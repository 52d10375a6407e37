/** Laws of the identity tracker over whole runs. */
module SelfTrackerLaws {
  import opened Prelude
  import opened SelfTracker

  ghost function Run(t: Identity, es: seq<Event>): Identity {
    if es == [] then t else Step(Run(t, es[..|es| - 1]), es[|es| - 1]).state
  }

  /** The state before event `k` of a session that starts from nothing. */
  ghost function Before(es: seq<Event>, k: nat): Identity
    requires k <= |es|
  {
    Run(UNKNOWN, es[..k])
  }

  ghost predicate Reachable(t: Identity) {
    exists es :: Run(UNKNOWN, es) == t
  }

  lemma RunPrefix(es: seq<Event>, k: nat)
    requires es != [] && k < |es|
    ensures Before(es, k) == Before(es[..|es| - 1], k)
  {
    assert es[..k] == es[..|es| - 1][..k];
  }

  // ---- what each event does, field by field --------------------------------

  predicate Near(a: u32, b: u32) {
    a - 16 <= b <= a + 16
  }

  /** All three gauges of a packet, each in its own place. */
  function Gauges(s: StatSync): SelfStat {
    SelfStat(true, Gauge(s.hp.has, s.hp.cur, s.hp.max), Gauge(s.mana.has, s.mana.cur, s.mana.max),
             Gauge(s.end.has, s.end.cur, s.end.max))
  }

  /** A spawn record is the player's exactly when its id is not zero and both names are the same non-empty
      text. It is adopted when no id is, or one more than 16 away; else it is the twin. */
  lemma SpawnRule(t: Identity, player: string, name: string, id: u32)
    ensures
      var o := Step(t, Spawn(player, name, id));
      var own := id != 0 && player == name && player != "";
      var adopts := own && (t.selfId == 0 || !Near(t.selfId, id));
      && o.reply == SpawnReply(if adopts then AdoptSelf else if own then SelfTwin else NotSelf)
      && (adopts ==>
            && o.state.selfId == id && o.state.altId == 0 && o.state.provisionalId == 0
            && o.state.guessed == t.guessed
            && o.state.retired == (if t.provisionalId in {0, id} then t.retired else t.provisionalId)
            && o.state.pending == (if t.pending.Some? && t.pending.value.id == id then t.pending else None))
      && (own && !adopts ==> o.state == t.(altId := if id == t.selfId then t.altId else id))
      && (!own ==> o.state == t)
  {
  }

  /** A position report adopts an id provisionally only while no id is adopted; after that it can only name
      the twin. */
  lemma PositionRule(t: Identity, id: u32)
    ensures
      var o := Step(t, SelfPos(id));
      var adopts := id != 0 && t.selfId == 0 && id != t.provisionalId;
      var twin := id != 0 && t.selfId != 0 && id != t.selfId && Near(t.selfId, id);
      && o.reply == PosReply(if adopts then Adopted else Known)
      && (adopts ==> o.state == t.(provisionalId := id,
                                   retired := if t.provisionalId == 0 then t.retired else t.provisionalId))
      && (!adopts ==> o.state == t.(altId := if twin then id else t.altId))
  {
  }

  /** A stat packet is the player's when it carries one of the three ids, or when it is wide, tells mana or
      endurance, and nothing better has named the player; a wide packet of a neighbouring id is kept. */
  lemma StatRule(t: Identity, s: StatSync)
    ensures
      var o := Step(t, Stat(s));
      var own := s.spawnId != 0 && s.spawnId in {t.selfId, t.altId, t.provisionalId};
      var claims := !own && s.spawnId != 0 && t.selfId == t.altId == 0 && s.wide && (s.mana.has || s.end.has)
                    && (if t.provisionalId == 0 then !t.guessed else Near(t.provisionalId, s.spawnId));
      var kept := !own && s.spawnId != 0 && t.selfId != 0 && Near(t.selfId, s.spawnId)
                  && s.wide && (s.hp.has || s.mana.has || s.end.has);
      var none := Gauge(false, 0, 0);
      && o.reply == StatReply(if own || claims then Gauges(s) else SelfStat(false, none, none, none))
      && (claims ==> o.state == t.(altId := s.spawnId, guessed := t.guessed || t.provisionalId == 0))
      && (kept ==> o.state == t.(pending := Some(Held(s.spawnId, Gauges(s)))))
      && (!claims && !kept ==> o.state == t)
  {
  }

  /** A drain gives the held packet once its id is one of the three; the retired id is given once; a reset
      keeps nothing. */
  lemma DrainRule(t: Identity)
    ensures
      var o := Step(t, TakeVitals);
      var known := t.pending.Some? && t.pending.value.id != 0
                   && t.pending.value.id in {t.selfId, t.altId, t.provisionalId};
      var none := Gauge(false, 0, 0);
      && o.reply == StatReply(if known then t.pending.value.stat else SelfStat(false, none, none, none))
      && o.state == (if known then t.(pending := None) else t)
    ensures Step(t, TakeRetired) == Output(t.(retired := 0), IdReply(t.retired))
    ensures Step(t, Reset) == Output(Identity(0, 0, None, 0, 0, false), NoReply)
  {
  }

  // ---- who is the player ---------------------------------------------------

  /** What holds of the ids in every reachable state. */
  ghost predicate Sound(t: Identity) {
    && (t.selfId != 0 ==>
          && t.provisionalId == 0
          && (t.altId == 0 || (t.altId != t.selfId && AbsDiff(t.altId, t.selfId) <= SAME_BATCH)))
    && (t.pending.Some? ==>
          && t.selfId != 0 && t.pending.value.id != 0
          && AbsDiff(t.pending.value.id, t.selfId) <= SAME_BATCH
          && t.pending.value.stat.isSelf && t.pending.value.stat.Any())
    && (t.guessed ==> t.selfId != 0 || t.altId != 0)
  }

  lemma StepSound(t: Identity, e: Event)
    requires Sound(t)
    ensures Sound(Step(t, e).state)
  {
  }

  lemma {:induction false} RunSound(es: seq<Event>)
    ensures Sound(Run(UNKNOWN, es))
  {
    if es == [] {
    } else {
      RunSound(es[..|es| - 1]);
      StepSound(Run(UNKNOWN, es[..|es| - 1]), es[|es| - 1]);
    }
  }

  /** In every reachable state: an adopted id leaves no provisional one, its twin is another id of
      the same batch, and at most two ids count as the player. */
  lemma IdentityInvariant(t: Identity)
    requires Reachable(t)
    ensures t.selfId != 0 ==> t.provisionalId == 0
    ensures t.selfId != 0 && t.altId != 0 ==> t.altId != t.selfId && AbsDiff(t.altId, t.selfId) <= SAME_BATCH
    ensures forall a, b, c :: t.IsSelf(a) && t.IsSelf(b) && t.IsSelf(c) ==> a == b || b == c || a == c
  {
    var es :| Run(UNKNOWN, es) == t;
    RunSound(es);
  }

  /** Only a name match that adopts, or a reset, changes the adopted id; in particular no position
      report and no stat packet does. */
  lemma WhoChangesSelfId(t: Identity, e: Event)
    ensures Step(t, e).state.selfId != t.selfId
            ==> e.Reset? || (e.Spawn? && e.spawnId == Step(t, e).state.selfId && e.spawnName == e.playerName != "")
    ensures Adopts(t, e) <==> Step(t, e).reply == SpawnReply(AdoptSelf)
    ensures Adopts(t, e) ==> Step(t, e).state.selfId == e.spawnId && Step(t, e).state.altId == 0
  {
  }

  /** Adopting the player leaves nothing held, whatever was held before: the guard that would keep a
      packet of the very id being adopted never finds one. */
  lemma AdoptionLeavesNothingHeld(t: Identity, e: Event)
    requires Reachable(t) && Adopts(t, e)
    ensures Step(t, e).state.pending == None
    ensures t.pending.Some? ==> t.pending.value.id != e.spawnId
  {
    var es :| Run(UNKNOWN, es) == t;
    RunSound(es);
  }

  // ---- where the ids come from ---------------------------------------------

  /** The three ways to learn an id: a record under the player's own name, a position report, a wide packet
      that tells mana or endurance. */
  datatype Source = OwnName | Position | Vitals

  predicate Tells(e: Event, id: u32, source: Source) {
    match source
    case OwnName => e.Spawn? && e.spawnId == id && e.spawnName == e.playerName && e.playerName != ""
    case Position => e.SelfPos? && e.spawnId == id
    case Vitals => e.Stat? && e.stat.spawnId == id && e.stat.wide && (e.stat.mana.has || e.stat.end.has)
  }

  ghost predicate ToldAt(es: seq<Event>, k: nat, id: u32, source: Source) {
    k < |es| && Tells(es[k], id, source) && forall j :: k < j < |es| ==> !es[j].Reset?
  }

  /** The id was named this way since the last reset. */
  ghost predicate Told(es: seq<Event>, id: u32, source: Source) {
    exists k :: ToldAt(es, k, id, source)
  }

  /** After any run the adopted id is the id of a record under the player's own name, the provisional id one
      that a position report named, and the twin one that any of the three ways named, all since the last
      reset. */
  lemma {:induction false} IdsHaveSources(es: seq<Event>)
    ensures var t := Run(UNKNOWN, es);
            && (t.selfId != 0 ==> Told(es, t.selfId, OwnName))
            && (t.provisionalId != 0 ==> Told(es, t.provisionalId, Position))
            && (t.altId != 0 ==> exists source :: Told(es, t.altId, source))
  {
    if es == [] {
    } else {
      var front, e := es[..|es| - 1], es[|es| - 1];
      var t := Run(UNKNOWN, front);
      IdsHaveSources(front);
      IdsChange(t, e);
      forall id, source
        ensures Told(front, id, source) && !e.Reset? ==> Told(es, id, source)
        ensures Tells(e, id, source) ==> Told(es, id, source)
      {
        StillTold(es, id, source);
      }
      hide Step, Told;
    }
  }

  /** A step keeps an id, clears it, or takes the one that the event names. */
  lemma IdsChange(t: Identity, e: Event)
    ensures var s := Step(t, e).state;
            && (e.Reset? ==> s.selfId == s.altId == s.provisionalId == 0)
            && (s.selfId in {0, t.selfId} || Tells(e, s.selfId, OwnName))
            && (s.provisionalId in {0, t.provisionalId} || Tells(e, s.provisionalId, Position))
            && (s.altId in {0, t.altId} || exists source :: Tells(e, s.altId, source))
  {
    var id := Step(t, e).state.altId;
    if id !in {0, t.altId} {
      assert Tells(e, id, OwnName) || Tells(e, id, Position) || Tells(e, id, Vitals);
    }
  }

  lemma StillTold(es: seq<Event>, id: u32, source: Source)
    requires es != []
    ensures Told(es[..|es| - 1], id, source) && !es[|es| - 1].Reset? ==> Told(es, id, source)
    ensures Tells(es[|es| - 1], id, source) ==> Told(es, id, source)
  {
    if Tells(es[|es| - 1], id, source) {
      assert ToldAt(es, |es| - 1, id, source);
    }
    if Told(es[..|es| - 1], id, source) && !es[|es| - 1].Reset? {
      var k :| ToldAt(es[..|es| - 1], k, id, source);
      assert ToldAt(es, k, id, source);
    }
  }

  // ---- held vitals ---------------------------------------------------------

  /** Event `k` is a stat packet that is kept. */
  ghost predicate HeldAt(es: seq<Event>, k: nat) {
    k < |es| && es[k].Stat? && Holds(Before(es, k), es[k].stat)
  }

  /** Event `k` empties the slot: an adoption, a drain that hands something over, or a reset. */
  ghost predicate ClearedAt(es: seq<Event>, k: nat) {
    k < |es| && (Adopts(Before(es, k), es[k]) || es[k].Reset? || (es[k].TakeVitals? && Releases(Before(es, k))))
  }

  /** Event `k` was kept and nothing since has replaced it or emptied the slot. */
  ghost predicate NewestHeld(es: seq<Event>, k: nat) {
    HeldAt(es, k) && forall j :: k < j < |es| ==> !HeldAt(es, j) && !ClearedAt(es, j)
  }

  lemma PrefixHistory(es: seq<Event>, k: nat)
    requires es != [] && k < |es| - 1
    ensures HeldAt(es, k) == HeldAt(es[..|es| - 1], k)
    ensures ClearedAt(es, k) == ClearedAt(es[..|es| - 1], k)
  {
    RunPrefix(es, k);
  }

  /** The slot is a fold over history: it holds exactly the newest kept packet since the last
      adoption, drain or reset, and is empty exactly when there is none. */
  lemma {:induction false} HeldIsNewest(es: seq<Event>)
    ensures match Run(UNKNOWN, es).pending
            case Some(h) => exists k: nat :: NewestHeld(es, k) && h == Held(es[k].stat.spawnId, Gauges(es[k].stat))
            case None => forall k: nat :: !NewestHeld(es, k)
  {
    if es == [] { return; }
    var n := |es| - 1;
    var front := es[..n];
    HeldIsNewest(front);
    RunSound(front);
    assert Before(es, n) == Run(UNKNOWN, front);
    forall k: nat | k < n
      ensures HeldAt(es, k) == HeldAt(front, k) && ClearedAt(es, k) == ClearedAt(front, k)
    {
      PrefixHistory(es, k);
    }
    var t := Run(UNKNOWN, front);
    if HeldAt(es, n) {
      assert NewestHeld(es, n);
    } else if ClearedAt(es, n) {
      HeldCleared(t, es[n]);
    } else {
      HeldKept(t, es[n]);
      SameNewest(es);
    }
  }

  lemma SameNewest(es: seq<Event>)
    requires es != [] && !HeldAt(es, |es| - 1) && !ClearedAt(es, |es| - 1)
    requires forall k: nat | k < |es| - 1 ::
               HeldAt(es, k) == HeldAt(es[..|es| - 1], k) && ClearedAt(es, k) == ClearedAt(es[..|es| - 1], k)
    ensures forall k: nat :: NewestHeld(es, k) <==> NewestHeld(es[..|es| - 1], k)
  {
    hide Before, HeldAt, ClearedAt;
    var front := es[..|es| - 1];
    forall k: nat ensures NewestHeld(es, k) <==> NewestHeld(front, k) {
      HeldInRange(es, k);
      HeldInRange(front, k);
      if NewestHeld(front, k) {
        forall j | k < j < |es| ensures !HeldAt(es, j) && !ClearedAt(es, j) {
          if j < |front| {
            assert HeldAt(es, j) == HeldAt(front, j) && ClearedAt(es, j) == ClearedAt(front, j);
          }
        }
      }
      if NewestHeld(es, k) {
        forall j | k < j < |front| ensures !HeldAt(front, j) && !ClearedAt(front, j) {
          assert HeldAt(es, j) == HeldAt(front, j) && ClearedAt(es, j) == ClearedAt(front, j);
        }
      }
    }
  }

  lemma HeldInRange(es: seq<Event>, k: nat)
    ensures HeldAt(es, k) ==> k < |es|
  {
  }

  lemma HeldCleared(t: Identity, e: Event)
    requires Sound(t)
    requires Adopts(t, e) || e.Reset? || (e.TakeVitals? && Releases(t))
    ensures Step(t, e).state.pending == None
  {
  }

  lemma HeldKept(t: Identity, e: Event)
    requires !Adopts(t, e) && !e.Reset? && !(e.TakeVitals? && Releases(t)) && !(e.Stat? && Holds(t, e.stat))
    ensures Step(t, e).state.pending == t.pending
  {
  }

  /** Event `k` is a drain that hands something over. */
  ghost predicate ReleasedAt(es: seq<Event>, k: nat) {
    k < |es| && es[k].TakeVitals? && Releases(Before(es, k))
  }

  /** Over any run: what a drain hands over is the newest packet kept before it, whose id is recognised by
      then, and no packet is handed over twice: it was kept after every earlier drain that gave anything. */
  lemma HandedOverOnce(es: seq<Event>, j: nat) returns (h: nat)
    requires ReleasedAt(es, j)
    ensures h < j && HeldAt(es, h) && Before(es, j).IsSelf(es[h].stat.spawnId)
    ensures Step(Before(es, j), es[j]).reply == StatReply(Gauges(es[h].stat))
    ensures forall i :: h < i < j ==> !HeldAt(es, i)
    ensures forall i :: 0 <= i < j && ReleasedAt(es, i) ==> i < h
  {
    var front := es[..j];
    HeldIsNewest(front);
    var held := Before(es, j).pending.value;
    h :| NewestHeld(front, h) && held == Held(front[h].stat.spawnId, Gauges(front[h].stat));
    forall i | 0 <= i < j
      ensures HeldAt(front, i) == HeldAt(es, i) && ClearedAt(front, i) == ClearedAt(es, i)
    {
      SameBefore(es, j, i);
    }
    forall i | 0 <= i < j && ReleasedAt(es, i) ensures i < h {
      assert ClearedAt(es, i) && !HeldAt(es, i);
    }
    hide HeldAt, ReleasedAt, ClearedAt, Before;
  }

  lemma SameBefore(es: seq<Event>, j: nat, i: nat)
    requires i < j <= |es|
    ensures HeldAt(es[..j], i) == HeldAt(es, i) && ClearedAt(es[..j], i) == ClearedAt(es, i)
  {
    assert es[..j][..i] == es[..i];
    hide Run, Holds, Adopts, Releases;
  }

  // ---- the guess from the stat channel -------------------------------------

  /** Event `k` is the stat channel naming the player. */
  ghost predicate ClaimedAt(es: seq<Event>, k: nat) {
    k < |es| && es[k].Stat? && Claims(Before(es, k), es[k].stat)
  }

  predicate Spent(t: Identity) {
    t.selfId != 0 || t.altId != 0
  }

  lemma {:induction false} SpentStays(es: seq<Event>, i: nat, j: nat)
    requires i <= j <= |es| && Spent(Before(es, i))
    requires forall r :: i <= r < j ==> !es[r].Reset?
    ensures Spent(Before(es, j))
  {
    if i == j {
    } else {
      SpentStays(es, i, j - 1);
      assert es[..j][..j - 1] == es[..j - 1];
    }
  }

  /** Between two resets the stat channel names the player at most once. */
  lemma ClaimsOnce(es: seq<Event>, i: nat, j: nat)
    requires i < j && ClaimedAt(es, i) && ClaimedAt(es, j)
    ensures exists r :: i < r < j && es[r].Reset?
  {
    if forall r :: i < r < j ==> !es[r].Reset? {
      assert es[..i + 1][..i] == es[..i];
      SpentStays(es, i + 1, j);
    }
  }

  /** A run that forgets the one-shot flag before every step. */
  ghost function RunWithoutFlag(es: seq<Event>): Identity {
    if es == [] then UNKNOWN
    else Step(RunWithoutFlag(es[..|es| - 1]), es[|es| - 1]).state.(guessed := false)
  }

  /** The one-shot flag never decides anything: without it every reply and every other field comes
      out the same, because a guess that was spent has always left an id behind. */
  lemma {:induction false} FlagDecidesNothing(es: seq<Event>, e: Event)
    ensures RunWithoutFlag(es) == Run(UNKNOWN, es).(guessed := false)
    ensures Step(RunWithoutFlag(es), e).reply == Step(Run(UNKNOWN, es), e).reply
  {
    if es == [] {
    } else {
      FlagDecidesNothing(es[..|es| - 1], es[|es| - 1]);
      RunSound(es[..|es| - 1]);
      FlagStep(Run(UNKNOWN, es[..|es| - 1]), es[|es| - 1]);
    }
    RunSound(es);
    FlagStep(Run(UNKNOWN, es), e);
  }

  lemma FlagStep(t: Identity, e: Event)
    requires Sound(t)
    ensures var a, b := Step(t, e), Step(t.(guessed := false), e);
            a.reply == b.reply && a.state.(guessed := false) == b.state.(guessed := false)
  {
  }

  // ---- handing superseded ids back -----------------------------------------

  function One(b: bool): nat {
    if b then 1 else 0
  }

  predicate AdoptsProvisional(t: Identity, e: Event) {
    e.SelfPos? && Step(t, e).reply == PosReply(Adopted)
  }

  /** The step retires the provisional id in favour of another. */
  predicate Supersedes(t: Identity, e: Event) {
    t.provisionalId != 0
    && (AdoptsProvisional(t, e) || (Adopts(t, e) && e.spawnId != t.provisionalId))
  }

  /** The step makes the provisional id the adopted one. */
  predicate Promotes(t: Identity, e: Event) {
    Adopts(t, e) && e.spawnId == t.provisionalId
  }

  /** How often one step reports `id` as adopted, hands it back, promotes it, and loses it: a
      superseded id is lost when it is itself superseded before the host drains it, or at a reset. */
  datatype Counts = Counts(adopted: nat, drained: nat, promoted: nat, lost: nat) {
    function Add(o: Counts): Counts {
      Counts(adopted + o.adopted, drained + o.drained, promoted + o.promoted, lost + o.lost)
    }
  }

  ghost function CountStep(t: Identity, e: Event, id: u32): Counts {
    Counts(
      One(AdoptsProvisional(t, e) && e.spawnId == id),
      One(e.TakeRetired? && t.retired == id),
      One(Promotes(t, e) && e.spawnId == id),
      if e.Reset? then One(t.retired == id) + One(t.provisionalId == id)
      else One(Supersedes(t, e) && t.retired == id))
  }

  ghost function CountRun(es: seq<Event>, id: u32): Counts {
    if es == [] then Counts(0, 0, 0, 0)
    else CountRun(es[..|es| - 1], id).Add(CountStep(Run(UNKNOWN, es[..|es| - 1]), es[|es| - 1], id))
  }

  lemma StepHandsBack(t: Identity, e: Event, id: u32)
    requires id != 0 && Sound(t)
    ensures var c, s := CountStep(t, e, id), Step(t, e).state;
            One(t.retired == id) + One(t.provisionalId == id) + c.adopted
            == c.drained + c.promoted + c.lost + One(s.retired == id) + One(s.provisionalId == id)
  {
  }

  /** Over any run: every time an id is reported as adopted, it is later handed back, promoted or
      lost, or it is still the provisional id or still waits to be handed back. */
  lemma {:induction false} EveryAdoptionAccountedFor(es: seq<Event>, id: u32)
    requires id != 0
    ensures var c, s := CountRun(es, id), Run(UNKNOWN, es);
            c.adopted == c.drained + c.promoted + c.lost + One(s.retired == id) + One(s.provisionalId == id)
  {
    if es == [] {
    } else {
      var front := es[..|es| - 1];
      EveryAdoptionAccountedFor(front, id);
      RunSound(front);
      StepHandsBack(Run(UNKNOWN, front), es[|es| - 1], id);
    }
  }

  /** A session whose host drains after every observation. */
  datatype Log = Log(state: Identity, adopted: seq<u32>, drained: seq<u32>, promoted: seq<u32>)

  ghost function Session(obs: seq<Event>): Log {
    if obs == [] then Log(UNKNOWN, [], [], [])
    else Observe(Session(obs[..|obs| - 1]), obs[|obs| - 1])
  }

  /** One observation and the drain behind it. */
  ghost function Observe(p: Log, e: Event): Log {
    var o := Step(p.state, e);
    var d := Step(o.state, TakeRetired);
    Log(d.state,
        p.adopted + (if AdoptsProvisional(p.state, e) then [e.spawnId] else []),
        p.drained + (if d.reply.id != 0 then [d.reply.id] else []),
        p.promoted + (if Promotes(p.state, e) && e.spawnId != 0 then [e.spawnId] else []))
  }

  predicate Observation(e: Event) {
    e.Spawn? || e.SelfPos? || e.Stat? || e.TakeVitals?
  }

  ghost predicate HandedBack(l: Log) {
    && l.state.retired == 0
    && (l.state.selfId != 0 ==> l.state.provisionalId == 0)
    && (l.promoted != [] ==> l.state.selfId != 0 && |l.promoted| == 1)
    && l.adopted == l.drained + l.promoted + (if l.state.provisionalId != 0 then [l.state.provisionalId] else [])
  }

  lemma ObserveHandsBack(p: Log, e: Event)
    requires HandedBack(p) && Observation(e)
    ensures HandedBack(Observe(p, e))
  {
    var q := Observe(p, e);
    if e.SelfPos? {
      PositionHandsBack(p, e.spawnId);
    } else if e.Spawn? {
      SpawnHandsBack(p, e);
    } else {
      assert q.adopted == p.adopted && q.drained == p.drained && q.promoted == p.promoted;
    }
  }

  lemma PositionHandsBack(p: Log, id: u32)
    requires HandedBack(p)
    ensures HandedBack(Observe(p, SelfPos(id)))
  {
    PositionRule(p.state, id);
    hide StepPos;
  }

  lemma SpawnHandsBack(p: Log, e: Event)
    requires HandedBack(p) && e.Spawn?
    ensures HandedBack(Observe(p, e))
  {
  }

  /** With such a host nothing is lost: the ids reported as adopted are, in order, the ids handed
      back, then the one id a name match promoted or the one that is still provisional. */
  lemma {:induction false} DrainingHostGetsAll(obs: seq<Event>)
    requires forall i :: 0 <= i < |obs| ==> Observation(obs[i])
    ensures HandedBack(Session(obs))
  {
    if obs == [] {
    } else {
      DrainingHostGetsAll(obs[..|obs| - 1]);
      ObserveHandsBack(Session(obs[..|obs| - 1]), obs[|obs| - 1]);
      hide Observe, HandedBack;
    }
  }
}
