/** Which spawn id is the player (`seq-backend-eql/src/self_track.rs`).

    `Identity` and `Step` say what each observation does as a value; the class carries the mutable
    fields and is proved to do exactly that. The laws over whole runs are in SelfTrackerLaws. */
module SelfTracker {
  import opened Prelude

  const SAME_BATCH: u32 := 16

  datatype SelfPosRouting = Known | Adopted
  datatype SpawnRouting = NotSelf | AdoptSelf | SelfTwin

  datatype Gauge = Gauge(has: bool, cur: int, max: int)

  const NO_GAUGE := Gauge(false, 0, 0)

  /** A decoded stat-sync packet. */
  datatype StatSync = StatSync(spawnId: u32, wide: bool, hp: Gauge, mana: Gauge, end: Gauge)

  /** The verdict on a packet, and what a held packet is kept as. */
  datatype SelfStat = SelfStat(isSelf: bool, hp: Gauge, mana: Gauge, end: Gauge) {
    predicate Any() {
      hp.has || mana.has || end.has
    }
  }

  const NO_STAT := SelfStat(false, NO_GAUGE, NO_GAUGE, NO_GAUGE)

  function OwnStat(s: StatSync): SelfStat {
    SelfStat(true, s.hp, s.mana, s.end)
  }

  datatype Held = Held(id: u32, stat: SelfStat)

  datatype Identity = Identity(
    selfId: u32, altId: u32, pending: Option<Held>, provisionalId: u32, retired: u32, guessed: bool)
  {
    predicate IsSelf(id: u32) {
      id != 0 && (id == selfId || id == altId || id == provisionalId)
    }

    predicate IsTwinCandidate(id: u32) {
      selfId != 0 && id != 0 && AbsDiff(id, selfId) <= SAME_BATCH
    }
  }

  const UNKNOWN := Identity(0, 0, None, 0, 0, false)

  datatype Event =
    | Spawn(playerName: string, spawnName: string, spawnId: u32)
    | SelfPos(spawnId: u32)
    | Stat(stat: StatSync)
    | TakeVitals
    | TakeRetired
    | Reset

  datatype Reply =
    | SpawnReply(spawn: SpawnRouting)
    | PosReply(pos: SelfPosRouting)
    | StatReply(verdict: SelfStat)
    | IdReply(id: u32)
    | NoReply

  datatype Output = Output(state: Identity, reply: Reply)

  // ---- one step ------------------------------------------------------------

  predicate NameMatch(e: Event) {
    e.Spawn? && e.spawnId != 0 && e.playerName != "" && e.spawnName != "" && e.spawnName == e.playerName
  }

  /** The name match is a new live copy: nothing adopted yet, or an id too far away to be a twin. */
  predicate Adopts(t: Identity, e: Event) {
    NameMatch(e) && (t.selfId == 0 || AbsDiff(e.spawnId, t.selfId) > SAME_BATCH)
  }

  function StepSpawn(t: Identity, e: Event): Output
    requires e.Spawn?
  {
    if !NameMatch(e) then Output(t, SpawnReply(NotSelf))
    else if Adopts(t, e) then
      var retired := if t.provisionalId != 0 && t.provisionalId != e.spawnId then t.provisionalId else t.retired;
      var pending := if t.pending.Some? && t.pending.value.id == e.spawnId then t.pending else None;
      Output(Identity(e.spawnId, 0, pending, 0, retired, t.guessed), SpawnReply(AdoptSelf))
    else
      Output(if e.spawnId != t.selfId then t.(altId := e.spawnId) else t, SpawnReply(SelfTwin))
  }

  function StepPos(t: Identity, id: u32): Output {
    if id == 0 then Output(t, PosReply(Known))
    else if t.selfId != 0 then
      Output(if id != t.selfId && t.IsTwinCandidate(id) then t.(altId := id) else t, PosReply(Known))
    else if t.provisionalId == id then Output(t, PosReply(Known))
    else
      var retired := if t.provisionalId != 0 then t.provisionalId else t.retired;
      Output(t.(provisionalId := id, retired := retired), PosReply(Adopted))
  }

  /** The stat channel may name the player when nothing better has: once per session, or beside the
      id the position reports named. */
  predicate Claims(t: Identity, s: StatSync) {
    && !t.IsSelf(s.spawnId)
    && t.selfId == 0 && t.altId == 0 && s.wide && (s.mana.has || s.end.has) && s.spawnId != 0
    && (if t.provisionalId != 0 then AbsDiff(s.spawnId, t.provisionalId) <= SAME_BATCH else !t.guessed)
  }

  /** The packet is kept for later: wide, not empty, its id not ours yet but close to ours. */
  predicate Holds(t: Identity, s: StatSync) {
    !t.IsSelf(s.spawnId) && s.wide && OwnStat(s).Any() && t.IsTwinCandidate(s.spawnId)
  }

  function StepStat(t: Identity, s: StatSync): Output {
    if t.IsSelf(s.spawnId) then Output(t, StatReply(OwnStat(s)))
    else if Claims(t, s) then
      Output(t.(altId := s.spawnId, guessed := t.guessed || t.provisionalId == 0), StatReply(OwnStat(s)))
    else if Holds(t, s) then Output(t.(pending := Some(Held(s.spawnId, OwnStat(s)))), StatReply(NO_STAT))
    else Output(t, StatReply(NO_STAT))
  }

  /** Draining hands the held packet over. */
  predicate Releases(t: Identity) {
    t.pending.Some? && t.IsSelf(t.pending.value.id)
  }

  function StepTakeVitals(t: Identity): Output {
    if Releases(t) then Output(t.(pending := None), StatReply(t.pending.value.stat))
    else Output(t, StatReply(NO_STAT))
  }

  function Step(t: Identity, e: Event): Output {
    match e
    case Spawn(_, _, _) => StepSpawn(t, e)
    case SelfPos(id) => StepPos(t, id)
    case Stat(s) => StepStat(t, s)
    case TakeVitals => StepTakeVitals(t)
    case TakeRetired => Output(t.(retired := 0), IdReply(t.retired))
    case Reset => Output(UNKNOWN, NoReply)
  }

  // ---- the tracker ---------------------------------------------------------

  class SelfTracker {
    var selfId: u32
    var altId: u32
    var pending: Option<Held>
    var provisionalId: u32
    var retired: u32
    var guessed: bool

    ghost function View(): Identity
      reads this
    {
      Identity(selfId, altId, pending, provisionalId, retired, guessed)
    }

    constructor ()
      ensures View() == UNKNOWN
    {
      selfId, altId, pending, provisionalId, retired, guessed := 0, 0, None, 0, 0, false;
    }

    method ResetAll()
      modifies this
      ensures View() == Step(old(View()), Reset).state
    {
      selfId, altId, pending, provisionalId, retired, guessed := 0, 0, None, 0, 0, false;
    }

    predicate IsSelf(id: u32)
      reads this
      ensures IsSelf(id) == View().IsSelf(id)
    {
      id != 0 && (id == selfId || id == altId || id == provisionalId)
    }

    predicate IsTwinCandidate(id: u32)
      reads this
      ensures IsTwinCandidate(id) == View().IsTwinCandidate(id)
    {
      selfId != 0 && id != 0 && AbsDiff(id, selfId) <= SAME_BATCH
    }

    method ObserveSelfPos(spawnId: u32) returns (r: SelfPosRouting)
      modifies this`altId, this`provisionalId, this`retired
      ensures Output(View(), PosReply(r)) == Step(old(View()), SelfPos(spawnId))
    {
      if spawnId == 0 {
        return Known;
      }
      if selfId != 0 {
        if spawnId != selfId && IsTwinCandidate(spawnId) {
          altId := spawnId;
        }
        return Known;
      }
      r := AdoptProvisional(spawnId);
    }

    method AdoptProvisional(spawnId: u32) returns (r: SelfPosRouting)
      requires spawnId != 0 && selfId == 0
      modifies this`provisionalId, this`retired
      ensures Output(View(), PosReply(r)) == StepPos(old(View()), spawnId)
    {
      if provisionalId == spawnId {
        return Known;
      }
      if provisionalId != 0 {
        retired := provisionalId;
      }
      provisionalId := spawnId;
      r := Adopted;
    }

    method TakeRetiredProvisional() returns (id: u32)
      modifies this`retired
      ensures Output(View(), IdReply(id)) == Step(old(View()), TakeRetired)
    {
      id := retired;
      retired := 0;
    }

    method ObserveSpawn(playerName: string, spawnName: string, spawnId: u32) returns (r: SpawnRouting)
      modifies this
      ensures Output(View(), SpawnReply(r)) == Step(old(View()), Spawn(playerName, spawnName, spawnId))
    {
      if spawnId == 0 || playerName == "" || spawnName == "" || spawnName != playerName {
        return NotSelf;
      }
      if selfId == 0 || AbsDiff(spawnId, selfId) > SAME_BATCH {
        selfId := spawnId;
        altId := 0;
        if provisionalId != 0 && provisionalId != spawnId {
          retired := provisionalId;
        }
        provisionalId := 0;
        if !(pending.Some? && pending.value.id == spawnId) {
          pending := None;
        }
        return AdoptSelf;
      }
      if spawnId != selfId {
        altId := spawnId;
      }
      r := SelfTwin;
    }

    method ObserveStatSync(s: StatSync) returns (r: SelfStat)
      modifies this`altId, this`pending, this`guessed
      ensures Output(View(), StatReply(r)) == Step(old(View()), Stat(s))
    {
      if IsSelf(s.spawnId) {
        return OwnStat(s);
      }
      var qualifies := if provisionalId != 0 then AbsDiff(s.spawnId, provisionalId) <= SAME_BATCH else !guessed;
      if selfId == 0 && altId == 0 && s.wide && (s.mana.has || s.end.has) && s.spawnId != 0 && qualifies {
        altId := s.spawnId;
        if provisionalId == 0 {
          guessed := true;
        }
        return OwnStat(s);
      }
      if s.wide && IsTwinCandidate(s.spawnId) {
        var v := OwnStat(s);
        if v.Any() {
          pending := Some(Held(s.spawnId, v));
        }
      }
      r := NO_STAT;
    }

    method TakePendingVitals() returns (r: SelfStat)
      modifies this`pending
      ensures Output(View(), StatReply(r)) == Step(old(View()), TakeVitals)
    {
      if pending.Some? {
        var held := pending.value;
        if IsSelf(held.id) {
          pending := None;
          return held.stat;
        }
      }
      r := NO_STAT;
    }
  }
}
