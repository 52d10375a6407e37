/** Flattening an event list into a batch (`seq-bridge/src/lib.rs`, `push_ref`, `translate_events`,
    `translate_event`): every event becomes a payload in a typed vector and a reference to it. Ten
    kinds stand for the ninety-eight, among them both pairs that share a vector. */
module EventBatch {
  import opened Prelude

  // ---- events --------------------------------------------------------------

  datatype Pos = Pos(x: i32, y: i32, z: i32, headingDeg: u16)

  datatype Velocity = Velocity(x: Option<i32>, y: Option<i32>, z: Option<i32>)

  datatype VitalValue = VitalValue(current: i32, maximum: Option<i32>)

  datatype ActiveBuff = ActiveBuff(ownerId: Option<u32>, spellId: u32, remainingTicks: Option<i32>,
                                   slot: Option<u32>, casterId: Option<u32>, casterName: Option<string>)

  datatype GroupMember = GroupMember(slot: byte, name: string, level: Option<u32>)

  datatype Event =
    | PlayerMoved(who: Option<u32>, pos: Pos)
    | PlayerVitalsUpdated(health: Option<VitalValue>, mana: Option<VitalValue>, endurance: Option<VitalValue>)
    | SpawnMoved(id: u32, pos: Pos, velocity: Velocity, deltaHeading: Option<i16>, animation: Option<i16>)
    | SpawnRemoved(id: u32)
    | Stance(name: string)
    | Invocation(name: string)
    | BuffAdded(buff: ActiveBuff)
    | GroupRosterUpdated(groupId: Option<u32>, members: seq<GroupMember>, complete: bool)
    | Targeted(id: u32)
    | Considered(id: u32)

  // ---- payloads: an option is a flag and a value that is the default when the flag is off -----

  datatype EventPlayerMoved = EventPlayerMoved(hasSpawnId: bool, spawnId: u32, pos: Pos)

  datatype EventVitalValue = EventVitalValue(current: i32, hasMaximum: bool, maximum: i32)

  datatype EventPlayerVitals = EventPlayerVitals(hasHealth: bool, health: EventVitalValue,
                                                 hasMana: bool, mana: EventVitalValue,
                                                 hasEndurance: bool, endurance: EventVitalValue)

  datatype EventVelocity = EventVelocity(hasX: bool, x: i32, hasY: bool, y: i32, hasZ: bool, z: i32)

  datatype EventSpawnMoved = EventSpawnMoved(id: u32, pos: Pos, velocity: EventVelocity, hasDeltaHeading: bool,
                                             deltaHeading: i16, hasAnimation: bool, animation: i16)

  datatype EventSpawnId = EventSpawnId(id: u32)

  datatype EventNamed = EventNamed(name: string)

  datatype EventActiveBuff = EventActiveBuff(hasOwnerId: bool, ownerId: u32, spellId: u32, hasRemainingTicks: bool,
                                             remainingTicks: i32, hasSlot: bool, slot: u32, hasCasterId: bool,
                                             casterId: u32, hasCasterName: bool, casterName: string)

  datatype EventGroupMember = EventGroupMember(slot: byte, name: string, hasLevel: bool, level: u32)

  datatype EventGroupRoster = EventGroupRoster(hasGroupId: bool, groupId: u32, members: seq<EventGroupMember>,
                                               complete: bool)

  function OrDefault<T>(o: Option<T>, d: T): T {
    if o.Some? then o.value else d
  }

  function Reopt<T>(has: bool, v: T): Option<T> {
    if has then Some(v) else None
  }

  function FlatVital(o: Option<VitalValue>): EventVitalValue {
    var v := OrDefault(o, VitalValue(0, None));
    EventVitalValue(v.current, v.maximum.Some?, OrDefault(v.maximum, 0))
  }

  function RebuiltVital(has: bool, v: EventVitalValue): Option<VitalValue> {
    Reopt(has, VitalValue(v.current, Reopt(v.hasMaximum, v.maximum)))
  }

  function FlatVelocity(v: Velocity): EventVelocity {
    EventVelocity(v.x.Some?, OrDefault(v.x, 0), v.y.Some?, OrDefault(v.y, 0), v.z.Some?, OrDefault(v.z, 0))
  }

  function RebuiltVelocity(v: EventVelocity): Velocity {
    Velocity(Reopt(v.hasX, v.x), Reopt(v.hasY, v.y), Reopt(v.hasZ, v.z))
  }

  function FlatBuff(b: ActiveBuff): EventActiveBuff {
    EventActiveBuff(b.ownerId.Some?, OrDefault(b.ownerId, 0), b.spellId, b.remainingTicks.Some?,
                    OrDefault(b.remainingTicks, 0), b.slot.Some?, OrDefault(b.slot, 0), b.casterId.Some?,
                    OrDefault(b.casterId, 0), b.casterName.Some?, OrDefault(b.casterName, ""))
  }

  function RebuiltBuff(b: EventActiveBuff): ActiveBuff {
    ActiveBuff(Reopt(b.hasOwnerId, b.ownerId), b.spellId, Reopt(b.hasRemainingTicks, b.remainingTicks),
               Reopt(b.hasSlot, b.slot), Reopt(b.hasCasterId, b.casterId), Reopt(b.hasCasterName, b.casterName))
  }

  function FlatMember(m: GroupMember): EventGroupMember {
    EventGroupMember(m.slot, m.name, m.level.Some?, OrDefault(m.level, 0))
  }

  function FlatMembers(ms: seq<GroupMember>): (r: seq<EventGroupMember>)
    ensures |r| == |ms| && forall i :: 0 <= i < |ms| ==> r[i] == FlatMember(ms[i])
  {
    seq(|ms|, i requires 0 <= i < |ms| => FlatMember(ms[i]))
  }

  function RebuiltMember(m: EventGroupMember): GroupMember {
    GroupMember(m.slot, m.name, Reopt(m.hasLevel, m.level))
  }

  function RebuiltMembers(ms: seq<EventGroupMember>): (r: seq<GroupMember>)
    ensures |r| == |ms| && forall i :: 0 <= i < |ms| ==> r[i] == RebuiltMember(ms[i])
  {
    seq(|ms|, i requires 0 <= i < |ms| => RebuiltMember(ms[i]))
  }

  // ---- vectors and references ----------------------------------------------

  datatype Kind =
    | KPlayerMoved | KPlayerVitals | KSpawnMoved | KSpawnRemoved | KStance | KInvocation | KBuffAdded
    | KGroupRoster | KTargeted | KConsidered

  datatype Vector =
    | VPlayerMoved | VPlayerVitals | VSpawnMoved | VSpawnRemoved | VNamed | VBuffAdded | VGroupRoster | VSpawnId

  /** Two pairs of kinds share a vector. */
  function VectorOf(k: Kind): Vector {
    match k
    case KPlayerMoved => VPlayerMoved
    case KPlayerVitals => VPlayerVitals
    case KSpawnMoved => VSpawnMoved
    case KSpawnRemoved => VSpawnRemoved
    case KStance => VNamed
    case KInvocation => VNamed
    case KBuffAdded => VBuffAdded
    case KGroupRoster => VGroupRoster
    case KTargeted => VSpawnId
    case KConsidered => VSpawnId
  }

  function KindOf(e: Event): Kind {
    match e
    case PlayerMoved(_, _) => KPlayerMoved
    case PlayerVitalsUpdated(_, _, _) => KPlayerVitals
    case SpawnMoved(_, _, _, _, _) => KSpawnMoved
    case SpawnRemoved(_) => KSpawnRemoved
    case Stance(_) => KStance
    case Invocation(_) => KInvocation
    case BuffAdded(_) => KBuffAdded
    case GroupRosterUpdated(_, _, _) => KGroupRoster
    case Targeted(_) => KTargeted
    case Considered(_) => KConsidered
  }

  function Home(e: Event): Vector {
    VectorOf(KindOf(e))
  }

  datatype EventRef = EventRef(kind: Kind, payloadIndex: nat)

  /** The typed vectors of a batch. */
  datatype Tables = Tables(
    playerMoved: seq<EventPlayerMoved>,
    playerVitals: seq<EventPlayerVitals>,
    spawnMoved: seq<EventSpawnMoved>,
    spawnRemoved: seq<EventSpawnId>,
    named: seq<EventNamed>,
    buffAdded: seq<EventActiveBuff>,
    groupRoster: seq<EventGroupRoster>,
    spawnId: seq<EventSpawnId>)

  datatype View = View(tables: Tables, refs: seq<EventRef>)

  const EMPTY := View(Tables([], [], [], [], [], [], [], []), [])

  function Len(t: Tables, v: Vector): nat {
    match v
    case VPlayerMoved => |t.playerMoved|
    case VPlayerVitals => |t.playerVitals|
    case VSpawnMoved => |t.spawnMoved|
    case VSpawnRemoved => |t.spawnRemoved|
    case VNamed => |t.named|
    case VBuffAdded => |t.buffAdded|
    case VGroupRoster => |t.groupRoster|
    case VSpawnId => |t.spawnId|
  }

  /** An event's payload at the end of its vector. */
  function Put(t: Tables, e: Event): Tables {
    match e
    case PlayerMoved(who, pos) =>
      t.(playerMoved := t.playerMoved + [EventPlayerMoved(who.Some?, OrDefault(who, 0), pos)])
    case PlayerVitalsUpdated(h, m, n) =>
      t.(playerVitals := t.playerVitals
                         + [EventPlayerVitals(h.Some?, FlatVital(h), m.Some?, FlatVital(m), n.Some?, FlatVital(n))])
    case SpawnMoved(id, pos, v, d, a) =>
      t.(spawnMoved := t.spawnMoved
                       + [EventSpawnMoved(id, pos, FlatVelocity(v), d.Some?, OrDefault(d, 0),
                                          a.Some?, OrDefault(a, 0))])
    case SpawnRemoved(id) => t.(spawnRemoved := t.spawnRemoved + [EventSpawnId(id)])
    case Stance(name) => t.(named := t.named + [EventNamed(name)])
    case Invocation(name) => t.(named := t.named + [EventNamed(name)])
    case BuffAdded(b) => t.(buffAdded := t.buffAdded + [FlatBuff(b)])
    case GroupRosterUpdated(g, ms, c) =>
      t.(groupRoster := t.groupRoster + [EventGroupRoster(g.Some?, OrDefault(g, 0), FlatMembers(ms), c)])
    case Targeted(id) => t.(spawnId := t.spawnId + [EventSpawnId(id)])
    case Considered(id) => t.(spawnId := t.spawnId + [EventSpawnId(id)])
  }

  /** The event that a reference stands for: a reader's way back, which sees the batch alone. */
  function Get(t: Tables, k: Kind, i: nat): Event
    requires i < Len(t, VectorOf(k))
  {
    match k
    case KPlayerMoved =>
      var p := t.playerMoved[i];
      PlayerMoved(Reopt(p.hasSpawnId, p.spawnId), p.pos)
    case KPlayerVitals =>
      var p := t.playerVitals[i];
      PlayerVitalsUpdated(RebuiltVital(p.hasHealth, p.health), RebuiltVital(p.hasMana, p.mana),
                          RebuiltVital(p.hasEndurance, p.endurance))
    case KSpawnMoved =>
      var p := t.spawnMoved[i];
      SpawnMoved(p.id, p.pos, RebuiltVelocity(p.velocity), Reopt(p.hasDeltaHeading, p.deltaHeading),
                 Reopt(p.hasAnimation, p.animation))
    case KSpawnRemoved => SpawnRemoved(t.spawnRemoved[i].id)
    case KStance => Stance(t.named[i].name)
    case KInvocation => Invocation(t.named[i].name)
    case KBuffAdded => BuffAdded(RebuiltBuff(t.buffAdded[i]))
    case KGroupRoster =>
      var p := t.groupRoster[i];
      GroupRosterUpdated(Reopt(p.hasGroupId, p.groupId), RebuiltMembers(p.members), p.complete)
    case KTargeted => Targeted(t.spawnId[i].id)
    case KConsidered => Considered(t.spawnId[i].id)
  }

  /** One event flattened. */
  function Add(b: View, e: Event): View {
    View(Put(b.tables, e), b.refs + [EventRef(KindOf(e), Len(b.tables, Home(e)))])
  }

  function Flatten(es: seq<Event>): View {
    if es == [] then EMPTY else Add(Flatten(es[..|es| - 1]), es[|es| - 1])
  }

  /** How many of the events live in a vector. */
  function Count(es: seq<Event>, v: Vector): nat {
    if es == [] then 0 else Count(es[..|es| - 1], v) + if Home(es[|es| - 1]) == v then 1 else 0
  }

  /** No vector grows past what a u32 index reaches. */
  ghost predicate Fits(es: seq<Event>) {
    forall v: Vector :: Count(es, v) <= 0x1_0000_0000
  }

  // ---- the batch -----------------------------------------------------------

  class SessionDecodeBatch {
    var events: seq<EventRef>
    var playerMoved: seq<EventPlayerMoved>
    var playerVitals: seq<EventPlayerVitals>
    var spawnMoved: seq<EventSpawnMoved>
    var spawnRemoved: seq<EventSpawnId>
    var named: seq<EventNamed>
    var buffAdded: seq<EventActiveBuff>
    var groupRoster: seq<EventGroupRoster>
    var spawnId: seq<EventSpawnId>

    ghost function Vectors(): Tables
      reads this
    {
      Tables(playerMoved, playerVitals, spawnMoved, spawnRemoved, named, buffAdded, groupRoster, spawnId)
    }

    ghost function Now(): View
      reads this
    {
      View(Vectors(), events)
    }

    /** The empty batch. */
    constructor ()
      ensures Now() == EMPTY
    {
      events := [];
      playerMoved, playerVitals, spawnMoved, spawnRemoved := [], [], [], [];
      named, buffAdded, groupRoster, spawnId := [], [], [], [];
    }

    /** Refuses an index that is not a u32, where the source stops the program. */
    method PushRef(kind: Kind, payloadIndex: nat) returns (ok: bool)
      modifies `events
      ensures ok <==> payloadIndex <= U32_MAX
      ensures events == old(events) + if ok then [EventRef(kind, payloadIndex)] else []
    {
      ok := payloadIndex <= U32_MAX;
      if ok {
        events := events + [EventRef(kind, payloadIndex)];
      }
    }

    method TranslateEvent(event: Event) returns (ok: bool)
      modifies this
      ensures ok <==> Len(old(Vectors()), Home(event)) <= U32_MAX
      ensures ok ==> Now() == Add(old(Now()), event)
    {
      hide FlatVital, FlatVelocity, FlatBuff, FlatMembers, OrDefault;
      match event
      case PlayerMoved(who, pos) =>
        var index := |playerMoved|;
        playerMoved := playerMoved + [EventPlayerMoved(who.Some?, OrDefault(who, 0), pos)];
        ok := PushRef(KPlayerMoved, index);
      case PlayerVitalsUpdated(h, m, n) =>
        var index := |playerVitals|;
        playerVitals := playerVitals
          + [EventPlayerVitals(h.Some?, FlatVital(h), m.Some?, FlatVital(m), n.Some?, FlatVital(n))];
        ok := PushRef(KPlayerVitals, index);
      case SpawnMoved(id, pos, v, d, a) =>
        var index := |spawnMoved|;
        spawnMoved := spawnMoved
          + [EventSpawnMoved(id, pos, FlatVelocity(v), d.Some?, OrDefault(d, 0), a.Some?, OrDefault(a, 0))];
        ok := PushRef(KSpawnMoved, index);
      case SpawnRemoved(id) =>
        var index := |spawnRemoved|;
        spawnRemoved := spawnRemoved + [EventSpawnId(id)];
        ok := PushRef(KSpawnRemoved, index);
      case Stance(name) =>
        var index := |named|;
        named := named + [EventNamed(name)];
        ok := PushRef(KStance, index);
      case Invocation(name) =>
        var index := |named|;
        named := named + [EventNamed(name)];
        ok := PushRef(KInvocation, index);
      case BuffAdded(buff) =>
        var index := |buffAdded|;
        buffAdded := buffAdded + [FlatBuff(buff)];
        ok := PushRef(KBuffAdded, index);
      case GroupRosterUpdated(g, members, complete) =>
        var index := |groupRoster|;
        groupRoster := groupRoster + [EventGroupRoster(g.Some?, OrDefault(g, 0), FlatMembers(members), complete)];
        ok := PushRef(KGroupRoster, index);
      case Targeted(id) =>
        var index := |spawnId|;
        spawnId := spawnId + [EventSpawnId(id)];
        ok := PushRef(KTargeted, index);
      case Considered(id) =>
        var index := |spawnId|;
        spawnId := spawnId + [EventSpawnId(id)];
        ok := PushRef(KConsidered, index);
    }

    lemma TablesOf()
      ensures Now().tables == Vectors()
    {
    }
  }

  /** The whole list into a new batch, exactly when no vector outgrows its indices. */
  method TranslateEvents(es: seq<Event>) returns (ok: bool, batch: SessionDecodeBatch)
    ensures fresh(batch)
    ensures ok <==> Fits(es)
    ensures ok ==> batch.Now() == Flatten(es)
  {
    hide *;
    batch := new SessionDecodeBatch();
    NothingFits();
    assert es[..0] == [];
    for i := 0 to |es|
      invariant fresh(batch) && batch.Now() == Flatten(es[..i]) && Fits(es[..i])
    {
      FlattenPush(es, i);
      CountIsLen(es[..i], Home(es[i]));
      FitsPush(es, i);
      batch.TablesOf();
      ok := batch.TranslateEvent(es[i]);
      if !ok {
        FitsShrinks(es, i + 1);
        return false, batch;
      }
    }
    assert es[..|es|] == es;
    return true, batch;
  }

  lemma NothingFits()
    ensures Flatten([]) == EMPTY && Fits([])
  {
  }

  lemma FlattenPush(es: seq<Event>, i: nat)
    requires i < |es|
    ensures Flatten(es[..i + 1]) == Add(Flatten(es[..i]), es[i])
    ensures forall v :: Count(es[..i + 1], v) == Count(es[..i], v) + if Home(es[i]) == v then 1 else 0
  {
    hide Add, Home;
    assert es[..i + 1][..i] == es[..i];
  }

  lemma FitsPush(es: seq<Event>, i: nat)
    requires i < |es| && Fits(es[..i])
    ensures Fits(es[..i + 1]) <==> Count(es[..i], Home(es[i])) <= U32_MAX
  {
    hide Count, Home, Flatten;
    FlattenPush(es, i);
    var h := Home(es[i]);
    assert Count(es[..i + 1], h) == Count(es[..i], h) + 1;
    if Count(es[..i], h) <= U32_MAX {
      var next := es[..i + 1];
      forall v: Vector ensures Count(next, v) <= 0x1_0000_0000 {
        assert Count(es[..i], v) <= 0x1_0000_0000;
      }
    }
  }

  lemma {:induction false} CountGrows(es: seq<Event>, i: nat, v: Vector)
    requires i <= |es|
    ensures Count(es[..i], v) <= Count(es, v)
    decreases |es|
  {
    if i == |es| {
      assert es[..i] == es;
    } else {
      var n := |es| - 1;
      CountGrows(es[..n], i, v);
      assert es[..n][..i] == es[..i];
    }
  }

  lemma FitsShrinks(es: seq<Event>, i: nat)
    requires i <= |es|
    ensures Fits(es) ==> Fits(es[..i])
  {
    hide Count;
    forall v: Vector ensures Count(es[..i], v) <= Count(es, v) {
      CountGrows(es, i, v);
    }
  }

  // ---- laws ----------------------------------------------------------------

  lemma PutLen(t: Tables, e: Event, v: Vector)
    ensures Len(Put(t, e), v) == Len(t, v) + if Home(e) == v then 1 else 0
  {
    hide FlatVital, FlatVelocity, FlatBuff, FlatMembers, OrDefault;
  }

  lemma MembersReadBack(ms: seq<GroupMember>)
    ensures RebuiltMembers(FlatMembers(ms)) == ms
  {
  }

  lemma VitalReadsBack(o: Option<VitalValue>)
    ensures RebuiltVital(o.Some?, FlatVital(o)) == o
  {
  }

  lemma VelocityReadsBack(v: Velocity)
    ensures RebuiltVelocity(FlatVelocity(v)) == v
  {
  }

  lemma BuffReadsBack(b: ActiveBuff)
    ensures RebuiltBuff(FlatBuff(b)) == b
  {
  }

  predicate Nested(e: Event) {
    e.PlayerVitalsUpdated? || e.SpawnMoved? || e.BuffAdded? || e.GroupRosterUpdated?
  }

  lemma PutGetNested(t: Tables, e: Event)
    requires Nested(e)
    ensures Len(t, Home(e)) < Len(Put(t, e), Home(e))
    ensures Get(Put(t, e), KindOf(e), Len(t, Home(e))) == e
  {
    hide FlatVital, FlatVelocity, FlatBuff, FlatMembers, RebuiltVital, RebuiltVelocity, RebuiltBuff, RebuiltMembers;
    match e
    case PlayerVitalsUpdated(h, m, n) =>
      VitalReadsBack(h);
      VitalReadsBack(m);
      VitalReadsBack(n);
    case SpawnMoved(_, _, v, _, _) => VelocityReadsBack(v);
    case BuffAdded(b) => BuffReadsBack(b);
    case GroupRosterUpdated(_, ms, _) => MembersReadBack(ms);
  }

  /** A payload reads back as the event it came from. */
  lemma PutGet(t: Tables, e: Event)
    ensures Len(t, Home(e)) < Len(Put(t, e), Home(e))
    ensures Get(Put(t, e), KindOf(e), Len(t, Home(e))) == e
  {
    if Nested(e) {
      PutGetNested(t, e);
      hide *;
    }
  }

  /** A later event moves no earlier payload, not even one in its own vector. */
  lemma PutKeeps(t: Tables, e: Event, k: Kind, i: nat)
    requires i < Len(t, VectorOf(k))
    ensures i < Len(Put(t, e), VectorOf(k)) && Get(Put(t, e), k, i) == Get(t, k, i)
  {
    hide FlatVital, FlatVelocity, FlatBuff, RebuiltVital, RebuiltVelocity, RebuiltBuff, OrDefault, Reopt;
  }

  /** Every vector is exactly as long as the events that live in it are many. */
  lemma {:induction false} CountIsLen(es: seq<Event>, v: Vector)
    ensures Len(Flatten(es).tables, v) == Count(es, v)
  {
    hide Len, Put, Home;
    if es == [] {
      EmptyLen(v);
    } else {
      CountIsLen(es[..|es| - 1], v);
      PutLen(Flatten(es[..|es| - 1]).tables, es[|es| - 1], v);
    }
  }

  lemma EmptyLen(v: Vector)
    ensures Len(EMPTY.tables, v) == 0
  {
  }

  /** One reference per event, in order, whose index counts the earlier events of its vector; and what
      the reference leads to is the event. */
  lemma {:induction false} RefOf(es: seq<Event>, i: nat)
    requires i < |es|
    ensures var b := Flatten(es);
            && |b.refs| == |es|
            && b.refs[i] == EventRef(KindOf(es[i]), Count(es[..i], Home(es[i])))
            && b.refs[i].payloadIndex < Len(b.tables, VectorOf(b.refs[i].kind))
            && Get(b.tables, b.refs[i].kind, b.refs[i].payloadIndex) == es[i]
  {
    hide *;
    var n := |es| - 1;
    var front, e := es[..n], es[n];
    assert es[..n + 1] == es;
    FlattenPush(es, n);
    AddParts(Flatten(front), e);
    RefCount(front);
    CountIsLen(front, Home(e));
    HomeIs(es[i]);
    if i == n {
      PutGet(Flatten(front).tables, e);
    } else {
      RefOf(front, i);
      assert front[..i] == es[..i];
      var ref := Flatten(front).refs[i];
      PutKeeps(Flatten(front).tables, e, ref.kind, ref.payloadIndex);
    }
  }

  lemma HomeIs(e: Event)
    ensures Home(e) == VectorOf(KindOf(e))
  {
  }

  lemma AddParts(b: View, e: Event)
    ensures Add(b, e).tables == Put(b.tables, e)
    ensures Add(b, e).refs == b.refs + [EventRef(KindOf(e), Len(b.tables, Home(e)))]
  {
    hide Put, KindOf, Len, Home;
  }

  lemma {:induction false} RefCount(es: seq<Event>)
    ensures |Flatten(es).refs| == |es|
  {
    hide Put, KindOf, Len, Home;
    if es == [] {
    } else {
      RefCount(es[..|es| - 1]);
    }
  }

  /** In a batch that was accepted, every index is a u32. */
  lemma {:induction false} IndicesFit(es: seq<Event>, i: nat)
    requires i < |es| && Fits(es)
    ensures |Flatten(es).refs| == |es| && Flatten(es).refs[i].payloadIndex < 0x1_0000_0000
  {
    hide *;
    RefOf(es, i);
    FlattenPush(es, i);
    FitsShrinks(es, i + 1);
    FitsAt(es[..i + 1], Home(es[i]));
  }

  lemma {:induction false} FitsAt(es: seq<Event>, v: Vector)
    requires Fits(es)
    ensures Count(es, v) <= 0x1_0000_0000
  {
    hide Count;
  }

  /** The list rebuilt from the batch alone. */
  ghost predicate Readable(b: View) {
    forall i :: 0 <= i < |b.refs| ==> b.refs[i].payloadIndex < Len(b.tables, VectorOf(b.refs[i].kind))
  }

  ghost function Rebuild(b: View): (r: seq<Event>)
    requires Readable(b)
  {
    seq(|b.refs|, i requires 0 <= i < |b.refs| => Get(b.tables, b.refs[i].kind, b.refs[i].payloadIndex))
  }

  /** Flattening loses nothing: every index is valid, and the list comes back. */
  lemma {:induction false} Lossless(es: seq<Event>)
    ensures Readable(Flatten(es)) && Rebuild(Flatten(es)) == es
  {
    hide Flatten, Get, Len, VectorOf, KindOf, Home, Count;
    RefCount(es);
    forall i | 0 <= i < |es|
      ensures var b := Flatten(es);
              && b.refs[i].payloadIndex < Len(b.tables, VectorOf(b.refs[i].kind))
              && Get(b.tables, b.refs[i].kind, b.refs[i].payloadIndex) == es[i]
    {
      RefOf(es, i);
    }
  }

  /** No payload is referenced twice, though kinds share vectors. */
  lemma {:induction false} NoSlotTwice(es: seq<Event>, i: nat, j: nat)
    requires i < j < |es|
    ensures |Flatten(es).refs| == |es|
    ensures var ri, rj := Flatten(es).refs[i], Flatten(es).refs[j];
            VectorOf(ri.kind) == VectorOf(rj.kind) ==> ri.payloadIndex < rj.payloadIndex
  {
    hide *;
    RefOf(es, i);
    RefOf(es, j);
    HomeIs(es[i]);
    HomeIs(es[j]);
    FlattenPush(es, i);
    CountGrows(es[..j], i + 1, Home(es[i]));
    assert es[..j][..i + 1] == es[..i + 1];
  }

  /** And every payload is referenced: nothing lies in a vector that no event put there. */
  lemma {:induction false} EverySlotReferenced(es: seq<Event>, v: Vector, k: nat) returns (i: nat)
    requires k < Len(Flatten(es).tables, v)
    ensures i < |es| == |Flatten(es).refs|
    ensures VectorOf(Flatten(es).refs[i].kind) == v && Flatten(es).refs[i].payloadIndex == k
  {
    hide *;
    CountIsLen(es, v);
    i := NthOf(es, v, k);
    RefOf(es, i);
    HomeIs(es[i]);
  }

  lemma {:induction false} NthOf(es: seq<Event>, v: Vector, k: nat) returns (i: nat)
    requires k < Count(es, v)
    ensures i < |es| && Home(es[i]) == v && Count(es[..i], v) == k
  {
    hide Home;
    var n := |es| - 1;
    if k < Count(es[..n], v) {
      i := NthOf(es[..n], v, k);
      assert es[..n][..i] == es[..i];
    } else {
      i := n;
    }
  }

  // ---- payloads as sent ----------------------------------------------------

  /** An option on the wire: its flag, and its value or the default. */
  predicate Sent<T(==)>(o: Option<T>, has: bool, v: T, default: T) {
    has == o.Some? && v == match o case Some(x) => x case None => default
  }

  predicate VitalSent(o: Option<VitalValue>, has: bool, v: EventVitalValue) {
    match o
    case Some(x) => has && v.current == x.current && Sent(x.maximum, v.hasMaximum, v.maximum, 0)
    case None => !has && v.current == 0 && !v.hasMaximum && v.maximum == 0
  }

  predicate VelocitySent(v: Velocity, w: EventVelocity) {
    Sent(v.x, w.hasX, w.x, 0) && Sent(v.y, w.hasY, w.y, 0) && Sent(v.z, w.hasZ, w.z, 0)
  }

  predicate BuffSent(b: ActiveBuff, w: EventActiveBuff) {
    && w.spellId == b.spellId && Sent(b.ownerId, w.hasOwnerId, w.ownerId, 0)
    && Sent(b.remainingTicks, w.hasRemainingTicks, w.remainingTicks, 0) && Sent(b.slot, w.hasSlot, w.slot, 0)
    && Sent(b.casterId, w.hasCasterId, w.casterId, 0) && Sent(b.casterName, w.hasCasterName, w.casterName, "")
  }

  predicate MembersSent(ms: seq<GroupMember>, ws: seq<EventGroupMember>) {
    && |ws| == |ms|
    && forall i :: 0 <= i < |ms| ==>
         ws[i].slot == ms[i].slot && ws[i].name == ms[i].name && Sent(ms[i].level, ws[i].hasLevel, ws[i].level, 0)
  }

  /** The reference names the event's kind, and leads to a payload with every field of the event in its place. */
  predicate Carries(t: Tables, r: EventRef, e: Event) {
    var i := r.payloadIndex;
    match e
    case PlayerMoved(who, pos) =>
      && r.kind == KPlayerMoved && i < |t.playerMoved|
      && Sent(who, t.playerMoved[i].hasSpawnId, t.playerMoved[i].spawnId, 0) && t.playerMoved[i].pos == pos
    case PlayerVitalsUpdated(h, m, n) =>
      && r.kind == KPlayerVitals && i < |t.playerVitals|
      && VitalSent(h, t.playerVitals[i].hasHealth, t.playerVitals[i].health)
      && VitalSent(m, t.playerVitals[i].hasMana, t.playerVitals[i].mana)
      && VitalSent(n, t.playerVitals[i].hasEndurance, t.playerVitals[i].endurance)
    case SpawnMoved(id, pos, v, d, a) =>
      && r.kind == KSpawnMoved && i < |t.spawnMoved|
      && t.spawnMoved[i].id == id && t.spawnMoved[i].pos == pos && VelocitySent(v, t.spawnMoved[i].velocity)
      && Sent(d, t.spawnMoved[i].hasDeltaHeading, t.spawnMoved[i].deltaHeading, 0)
      && Sent(a, t.spawnMoved[i].hasAnimation, t.spawnMoved[i].animation, 0)
    case SpawnRemoved(id) => r.kind == KSpawnRemoved && i < |t.spawnRemoved| && t.spawnRemoved[i].id == id
    case Stance(name) => r.kind == KStance && i < |t.named| && t.named[i].name == name
    case Invocation(name) => r.kind == KInvocation && i < |t.named| && t.named[i].name == name
    case BuffAdded(b) => r.kind == KBuffAdded && i < |t.buffAdded| && BuffSent(b, t.buffAdded[i])
    case GroupRosterUpdated(g, ms, c) =>
      && r.kind == KGroupRoster && i < |t.groupRoster|
      && Sent(g, t.groupRoster[i].hasGroupId, t.groupRoster[i].groupId, 0)
      && MembersSent(ms, t.groupRoster[i].members) && t.groupRoster[i].complete == c
    case Targeted(id) => r.kind == KTargeted && i < |t.spawnId| && t.spawnId[i].id == id
    case Considered(id) => r.kind == KConsidered && i < |t.spawnId| && t.spawnId[i].id == id
  }

  lemma PutCarries(t: Tables, e: Event)
    ensures Carries(Put(t, e), EventRef(KindOf(e), Len(t, Home(e))), e)
  {
  }

  lemma PutStillCarries(t: Tables, e: Event, r: EventRef, f: Event)
    requires Carries(t, r, f)
    ensures Carries(Put(t, e), r, f)
  {
    hide Sent, VitalSent, VelocitySent, BuffSent, MembersSent;
    hide FlatVital, FlatVelocity, FlatBuff, FlatMembers, OrDefault;
  }

  /** Every event of the list is carried by its reference, under its own kind and with all its fields; an option
      that is not there is a flag that is off and a zero or an empty text. */
  lemma {:induction false} EventsCarried(es: seq<Event>, i: nat)
    requires i < |es|
    ensures |Flatten(es).refs| == |es| && Carries(Flatten(es).tables, Flatten(es).refs[i], es[i])
  {
    hide *;
    var n := |es| - 1;
    var front, e := es[..n], es[n];
    assert es[..n + 1] == es;
    FlattenPush(es, n);
    AddParts(Flatten(front), e);
    RefCount(front);
    if i == n {
      PutCarries(Flatten(front).tables, e);
    } else {
      EventsCarried(front, i);
      PutStillCarries(Flatten(front).tables, e, Flatten(front).refs[i], es[i]);
    }
  }
}
