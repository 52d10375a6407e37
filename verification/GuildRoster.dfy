/** The guild roster packet (`seq-backend-eql/src/guild_roster.rs`).

    `Packet` keeps every byte of the wire, the unread ones too, so that parsing is exactly the
    inverse of `Encode`. Text is kept as its bytes. */
module GuildRoster {
  import opened Prelude

  datatype GuildMemberRow = GuildMemberRow(
    name: seq<byte>, level: u32, bankerFlag: u32, classMask: u32, rank: u32, lastOn: u32,
    fullMember: byte, publicNote: seq<byte>, zoneId: u16)

  datatype GuildRoster = GuildRoster(guildId: u32, members: seq<GuildMemberRow>)

  datatype RosterError =
    | Truncated(at: nat, size: nat)
    | CountMismatch(declared: nat, held: nat)
    | BadLength(length: u32, at: nat, size: nat)

  datatype Member = Member(
    name: seq<byte>, level: u32, banker: u32, classMask: u32, rank: u32, lastOn: u32,
    tributeOn: byte, trophyOn: byte, tributeDonated: u32, tributeLast: u32, fullMember: byte,
    note: seq<byte>, zoneId: u16, tail: seq<byte>)

  datatype Packet = Packet(requester: seq<byte>, guildId: u32, unknown: u32, gap: seq<byte>, members: seq<Member>)

  // ---- the wire format -----------------------------------------------------

  predicate TextOk(s: seq<byte>) {
    |s| <= U32_MAX
  }

  /** A u32 length and then the bytes. */
  function TextBytes(s: seq<byte>): (r: seq<byte>)
    requires TextOk(s)
    ensures |r| == 4 + |s|
  {
    U32Bytes(|s|) + s
  }

  predicate MemberOk(m: Member) {
    TextOk(m.name) && TextOk(m.note) && |m.tail| == 4
  }

  function MemberBytes(m: Member): (r: seq<byte>)
    requires MemberOk(m)
  {
    TextBytes(m.name) + (StatsBytes(m) + (TextBytes(m.note) + (U16Bytes(m.zoneId) + m.tail)))
  }

  /** The 31 fixed bytes between the two texts. */
  function StatsBytes(m: Member): (r: seq<byte>)
    ensures |r| == 31
  {
    RankBytes(m) + TributeBytes(m)
  }

  function RankBytes(m: Member): (r: seq<byte>)
    ensures |r| == 20
  {
    U32Bytes(m.level) + (U32Bytes(m.banker) + (U32Bytes(m.classMask) + (U32Bytes(m.rank) + U32Bytes(m.lastOn))))
  }

  function TributeBytes(m: Member): (r: seq<byte>)
    ensures |r| == 11
  {
    [m.tributeOn, m.trophyOn] + (U32Bytes(m.tributeDonated) + (U32Bytes(m.tributeLast) + [m.fullMember]))
  }

  ghost predicate MembersOk(ms: seq<Member>) {
    forall i :: 0 <= i < |ms| ==> MemberOk(ms[i])
  }

  ghost function MembersBytes(ms: seq<Member>): seq<byte>
    requires MembersOk(ms)
  {
    if ms == [] then [] else MembersBytes(ms[..|ms| - 1]) + MemberBytes(ms[|ms| - 1])
  }

  ghost predicate PacketOk(w: Packet) {
    TextOk(w.requester) && |w.gap| == 2 && |w.members| <= U32_MAX && MembersOk(w.members)
  }

  ghost function Encode(w: Packet): seq<byte>
    requires PacketOk(w)
  {
    TextBytes(w.requester) + (U32Bytes(w.guildId) + (U32Bytes(w.unknown) + (w.gap +
      (U32Bytes(|w.members|) + MembersBytes(w.members)))))
  }

  // ---- reading it ----------------------------------------------------------

  function ByteAt(b: seq<byte>, p: nat): Result<At<byte>, RosterError> {
    if p + 1 <= |b| then Ok(At(b[p], p + 1)) else Err(Truncated(p, |b|))
  }

  function WordAt(b: seq<byte>, p: nat): Result<At<u16>, RosterError> {
    if p + 2 <= |b| then Ok(At(U16At(b, p), p + 2)) else Err(Truncated(p, |b|))
  }

  function LongAt(b: seq<byte>, p: nat): Result<At<u32>, RosterError> {
    if p + 4 <= |b| then Ok(At(U32At(b, p), p + 4)) else Err(Truncated(p, |b|))
  }

  function SkipAt(b: seq<byte>, p: nat, n: nat): Result<At<seq<byte>>, RosterError> {
    if p + n <= |b| then Ok(At(b[p..p + n], p + n)) else Err(Truncated(p, |b|))
  }

  function TextAt(b: seq<byte>, p: nat): Result<At<seq<byte>>, RosterError> {
    var n :- LongAt(b, p);
    if n.next + n.value <= |b| then Ok(At(b[n.next..n.next + n.value], n.next + n.value))
    else Err(BadLength(n.value, p, |b|))
  }

  function MemberAt(b: seq<byte>, p: nat): Result<At<Member>, RosterError> {
    var name :- TextAt(b, p);
    var level :- LongAt(b, name.next);
    var banker :- LongAt(b, level.next);
    var mask :- LongAt(b, banker.next);
    var rank :- LongAt(b, mask.next);
    var lastOn :- LongAt(b, rank.next);
    var tributeOn :- ByteAt(b, lastOn.next);
    var trophyOn :- ByteAt(b, tributeOn.next);
    var donated :- LongAt(b, trophyOn.next);
    var last :- LongAt(b, donated.next);
    var full :- ByteAt(b, last.next);
    var note :- TextAt(b, full.next);
    var zone :- WordAt(b, note.next);
    var tail :- SkipAt(b, zone.next, 4);
    Ok(At(Member(name.value, level.value, banker.value, mask.value, rank.value, lastOn.value, tributeOn.value,
                 trophyOn.value, donated.value, last.value, full.value, note.value, zone.value, tail.value),
          tail.next))
  }

  /** The first `n` members. */
  function MembersAt(b: seq<byte>, p: nat, n: nat): (r: Result<At<seq<Member>>, RosterError>)
    ensures r.Ok? ==> |r.value.value| == n
  {
    if n == 0 then Ok(At([], p)) else
    var front :- MembersAt(b, p, n - 1);
    var m :- MemberAt(b, front.next);
    Ok(At(front.value + [m.value], m.next))
  }

  datatype Header = Header(requester: seq<byte>, guildId: u32, unknown: u32, gap: seq<byte>, count: u32)

  function HeaderAt(b: seq<byte>): Result<At<Header>, RosterError> {
    var requester :- TextAt(b, 0);
    var guildId :- LongAt(b, requester.next);
    var unknown :- LongAt(b, guildId.next);
    var gap :- SkipAt(b, unknown.next, 2);
    var count :- LongAt(b, gap.next);
    Ok(At(Header(requester.value, guildId.value, unknown.value, gap.value, count.value), count.next))
  }

  function ParsePacket(b: seq<byte>): Result<Packet, RosterError> {
    var h :- HeaderAt(b);
    var ms :- MembersAt(b, h.next, h.value.count);
    if ms.next != |b| then Err(CountMismatch(h.value.count, |ms.value|))
    else Ok(Packet(h.value.requester, h.value.guildId, h.value.unknown, h.value.gap, ms.value))
  }

  // ---- the cursor ----------------------------------------------------------

  class Cursor {
    const b: seq<byte>
    var p: nat

    constructor (b: seq<byte>)
      ensures this.b == b && p == 0
    {
      this.b := b;
      p := 0;
    }

    method Byte() returns (r: Result<byte, RosterError>)
      modifies this`p
      ensures Read(ByteAt(b, old(p)), r, p)
    {
      if p >= |b| {
        return Err(Truncated(p, |b|));
      }
      r := Ok(b[p]);
      p := p + 1;
    }

    method Word() returns (r: Result<u16, RosterError>)
      modifies this`p
      ensures Read(WordAt(b, old(p)), r, p)
    {
      if p + 2 > |b| {
        return Err(Truncated(p, |b|));
      }
      r := Ok(U16At(b, p));
      p := p + 2;
    }

    method Long() returns (r: Result<u32, RosterError>)
      modifies this`p
      ensures Read(LongAt(b, old(p)), r, p)
    {
      if p + 4 > |b| {
        return Err(Truncated(p, |b|));
      }
      r := Ok(U32At(b, p));
      p := p + 4;
    }

    method Skip(n: nat) returns (r: Result<seq<byte>, RosterError>)
      modifies this`p
      ensures Read(SkipAt(b, old(p), n), r, p)
    {
      if p + n > |b| {
        return Err(Truncated(p, |b|));
      }
      r := Ok(b[p..p + n]);
      p := p + n;
    }

    method Text() returns (r: Result<seq<byte>, RosterError>)
      modifies this`p
      ensures Read(TextAt(b, old(p)), r, p)
    {
      var at := p;
      var n :- Long();
      if p + n > |b| {
        return Err(BadLength(n, at, |b|));
      }
      r := Ok(b[p..p + n]);
      p := p + n;
    }
  }

  /** A cursor read gives the value found there and moves past it, or gives the error. */
  ghost predicate Read<T>(found: Result<At<T>, RosterError>, r: Result<T, RosterError>, p: nat) {
    match found
    case Ok(a) => r == Ok(a.value) && p == a.next
    case Err(e) => r == Err(e)
  }

  function Surface(m: Member): GuildMemberRow {
    GuildMemberRow(m.name, m.level, m.banker, m.classMask, m.rank, m.lastOn, m.fullMember, m.note, m.zoneId)
  }

  function SurfaceAll(ms: seq<Member>): (r: seq<GuildMemberRow>)
    ensures |r| == |ms| && forall i :: 0 <= i < |ms| ==> r[i] == Surface(ms[i])
  {
    if ms == [] then [] else SurfaceAll(ms[..|ms| - 1]) + [Surface(ms[|ms| - 1])]
  }

  method ReadMember(c: Cursor) returns (r: Result<Member, RosterError>)
    modifies c`p
    ensures Read(MemberAt(c.b, old(c.p)), r, c.p)
  {
    hide U32At, U16At;
    var name :- c.Text();
    var level :- c.Long();
    var banker :- c.Long();
    var mask :- c.Long();
    var rank :- c.Long();
    var lastOn :- c.Long();
    var tributeOn :- c.Byte();
    var trophyOn :- c.Byte();
    var donated :- c.Long();
    var last :- c.Long();
    var full :- c.Byte();
    var note :- c.Text();
    var zone :- c.Word();
    var tail :- c.Skip(4);
    r := Ok(Member(name, level, banker, mask, rank, lastOn, tributeOn, trophyOn, donated, last, full, note,
                   zone, tail));
  }

  /** What the host sees: the parsed packet without the fields nobody reads. */
  function Parse(b: seq<byte>): Result<GuildRoster, RosterError> {
    var w :- ParsePacket(b);
    Ok(GuildRoster(w.guildId, SurfaceAll(w.members)))
  }

  method ParseGuildMemberList(b: seq<byte>) returns (r: Result<GuildRoster, RosterError>)
    ensures r == Parse(b)
  {
    hide U32At, U16At, MemberAt, Surface;
    var c := new Cursor(b);
    var requester :- c.Text();
    var guildId :- c.Long();
    var unknown :- c.Long();
    var gap :- c.Skip(2);
    var count :- c.Long();
    ghost var start := c.p;
    assert HeaderAt(b) == Ok(At(Header(requester, guildId, unknown, gap, count), start));
    var members := [];
    ghost var wire := [];
    for i := 0 to count
      invariant MembersAt(b, start, i) == Ok(At(wire, c.p))
      invariant members == SurfaceAll(wire) && |members| == i
    {
      ghost var before := c.p;
      var got := ReadMember(c);
      if got.Err? {
        MembersStop(b, start, i + 1, count);
        return Err(got.error);
      }
      assert (wire + [got.value])[..|wire|] == wire;
      members := members + [Surface(got.value)];
      wire := wire + [got.value];
    }
    if c.p != |b| {
      return Err(CountMismatch(count, |members|));
    }
    r := Ok(GuildRoster(guildId, members));
  }

  /** Once a member fails, the whole list fails the same way. */
  lemma {:induction false} MembersStop(b: seq<byte>, p: nat, i: nat, n: nat)
    requires i <= n && MembersAt(b, p, i).Err?
    ensures MembersAt(b, p, n) == Err(MembersAt(b, p, i).error)
  {
    hide MemberAt;
    if i == n {
    } else {
      MembersStop(b, p, i, n - 1);
    }
  }

  // ---- exactness -----------------------------------------------------------

  /** Whether reading at `p` gives `v` and moves `n` bytes on. */
  ghost predicate Gives<T>(found: Result<At<T>, RosterError>, v: T, p: nat, n: nat) {
    found == Ok(At(v, p + n))
  }

  lemma LongExact(b: seq<byte>, p: nat, v: u32)
    ensures Lies(b, p, U32Bytes(v)) <==> Gives(LongAt(b, p), v, p, 4)
  {
    LiesU32(b, p, v);
  }

  lemma WordExact(b: seq<byte>, p: nat, v: u16)
    ensures Lies(b, p, U16Bytes(v)) <==> Gives(WordAt(b, p), v, p, 2)
  {
    LiesU16(b, p, v);
  }

  lemma ByteExact(b: seq<byte>, p: nat, v: byte)
    ensures Lies(b, p, [v]) <==> Gives(ByteAt(b, p), v, p, 1)
  {
    if p < |b| {
      assert b[p..p + 1] == [b[p]];
    }
  }

  lemma SkipExact(b: seq<byte>, p: nat, v: seq<byte>)
    ensures Lies(b, p, v) <==> Gives(SkipAt(b, p, |v|), v, p, |v|)
  {
  }

  lemma TextExact(b: seq<byte>, p: nat, s: seq<byte>)
    ensures TextOk(s) && Lies(b, p, TextBytes(s)) <==> Gives(TextAt(b, p), s, p, 4 + |s|)
  {
    hide U32Bytes, U32At;
    if TextOk(s) {
      LiesSplit(b, p, U32Bytes(|s|), s);
      LongExact(b, p, |s|);
    }
  }

  /** The five longs from the level to the last login. */
  ghost predicate RankGiven(b: seq<byte>, p: nat, m: Member) {
    && Gives(LongAt(b, p), m.level, p, 4) && Gives(LongAt(b, p + 4), m.banker, p + 4, 4)
    && Gives(LongAt(b, p + 8), m.classMask, p + 8, 4) && Gives(LongAt(b, p + 12), m.rank, p + 12, 4)
    && Gives(LongAt(b, p + 16), m.lastOn, p + 16, 4)
  }

  lemma RankExact(b: seq<byte>, p: nat, m: Member)
    ensures Lies(b, p, RankBytes(m)) <==> RankGiven(b, p, m)
  {
    hide U32Bytes, U32At, Lies, Gives;
    var r4 := U32Bytes(m.rank) + U32Bytes(m.lastOn);
    var r3 := U32Bytes(m.classMask) + r4;
    var r2 := U32Bytes(m.banker) + r3;
    LiesSplit(b, p, U32Bytes(m.level), r2);
    LiesSplit(b, p + 4, U32Bytes(m.banker), r3);
    LiesSplit(b, p + 8, U32Bytes(m.classMask), r4);
    LiesSplit(b, p + 12, U32Bytes(m.rank), U32Bytes(m.lastOn));
    LongExact(b, p, m.level);
    LongExact(b, p + 4, m.banker);
    LongExact(b, p + 8, m.classMask);
    LongExact(b, p + 12, m.rank);
    LongExact(b, p + 16, m.lastOn);
  }

  ghost predicate TributeGiven(b: seq<byte>, p: nat, m: Member) {
    && Gives(ByteAt(b, p), m.tributeOn, p, 1) && Gives(ByteAt(b, p + 1), m.trophyOn, p + 1, 1)
    && Gives(LongAt(b, p + 2), m.tributeDonated, p + 2, 4) && Gives(LongAt(b, p + 6), m.tributeLast, p + 6, 4)
    && Gives(ByteAt(b, p + 10), m.fullMember, p + 10, 1)
  }

  lemma TributeExact(b: seq<byte>, p: nat, m: Member)
    ensures Lies(b, p, TributeBytes(m)) <==> TributeGiven(b, p, m)
  {
    hide U32Bytes, U32At, Lies, Gives;
    var r3 := U32Bytes(m.tributeLast) + [m.fullMember];
    var r2 := U32Bytes(m.tributeDonated) + r3;
    assert [m.tributeOn, m.trophyOn] == [m.tributeOn] + [m.trophyOn];
    LiesSplit(b, p, [m.tributeOn, m.trophyOn], r2);
    LiesSplit(b, p, [m.tributeOn], [m.trophyOn]);
    LiesSplit(b, p + 2, U32Bytes(m.tributeDonated), r3);
    LiesSplit(b, p + 6, U32Bytes(m.tributeLast), [m.fullMember]);
    ByteExact(b, p, m.tributeOn);
    ByteExact(b, p + 1, m.trophyOn);
    LongExact(b, p + 2, m.tributeDonated);
    LongExact(b, p + 6, m.tributeLast);
    ByteExact(b, p + 10, m.fullMember);
  }

  ghost predicate MemberGiven(b: seq<byte>, p: nat, m: Member) {
    var q := p + 4 + |m.name|;
    var z := q + 35 + |m.note|;
    && Gives(TextAt(b, p), m.name, p, 4 + |m.name|)
    && RankGiven(b, q, m) && TributeGiven(b, q + 20, m)
    && Gives(TextAt(b, q + 31), m.note, q + 31, 4 + |m.note|)
    && Gives(WordAt(b, z), m.zoneId, z, 2) && Gives(SkipAt(b, z + 2, 4), m.tail, z + 2, 4)
  }

  lemma MemberParts(b: seq<byte>, p: nat, m: Member)
    requires |m.tail| == 4
    ensures MemberOk(m) && Lies(b, p, MemberBytes(m)) <==> MemberGiven(b, p, m)
    ensures MemberOk(m) ==> |MemberBytes(m)| == 45 + |m.name| + |m.note|
  {
    hide U32Bytes, U16Bytes, Lies, Gives, RankBytes, TributeBytes, RankGiven, TributeGiven, TextBytes, TextAt;
    var q := p + 4 + |m.name|;
    var z := q + 35 + |m.note|;
    TextExact(b, p, m.name);
    TextExact(b, q + 31, m.note);
    if MemberOk(m) {
      var r3 := U16Bytes(m.zoneId) + m.tail;
      var r2 := TextBytes(m.note) + r3;
      var r1 := StatsBytes(m) + r2;
      LiesSplit(b, p, TextBytes(m.name), r1);
      LiesSplit(b, q, StatsBytes(m), r2);
      LiesSplit(b, q, RankBytes(m), TributeBytes(m));
      LiesSplit(b, q + 31, TextBytes(m.note), r3);
      LiesSplit(b, z, U16Bytes(m.zoneId), m.tail);
      RankExact(b, q, m);
      TributeExact(b, q + 20, m);
      WordExact(b, z, m.zoneId);
      SkipExact(b, z + 2, m.tail);
    }
  }

  lemma MemberReads(b: seq<byte>, p: nat, m: Member)
    requires MemberOk(m) && Lies(b, p, MemberBytes(m))
    ensures MemberAt(b, p) == Ok(At(m, p + |MemberBytes(m)|))
  {
    hide MemberBytes, Lies, MemberAt, MemberGiven;
    MemberParts(b, p, m);
    MemberGivenReads(b, p, m);
  }

  lemma MemberGivenReads(b: seq<byte>, p: nat, m: Member)
    requires MemberGiven(b, p, m)
    ensures MemberAt(b, p) == Ok(At(m, p + 45 + |m.name| + |m.note|))
  {
    var q := p + 4 + |m.name|;
    var z := q + 35 + |m.note|;
    assert TextAt(b, p) == Ok(At(m.name, q));
    assert LongAt(b, q) == Ok(At(m.level, q + 4)) && LongAt(b, q + 4) == Ok(At(m.banker, q + 8));
    assert LongAt(b, q + 8) == Ok(At(m.classMask, q + 12)) && LongAt(b, q + 12) == Ok(At(m.rank, q + 16));
    assert LongAt(b, q + 16) == Ok(At(m.lastOn, q + 20));
    assert ByteAt(b, q + 20) == Ok(At(m.tributeOn, q + 21)) && ByteAt(b, q + 21) == Ok(At(m.trophyOn, q + 22));
    assert LongAt(b, q + 22) == Ok(At(m.tributeDonated, q + 26)) && LongAt(b, q + 26) == Ok(At(m.tributeLast, q + 30));
    assert ByteAt(b, q + 30) == Ok(At(m.fullMember, q + 31));
    assert TextAt(b, q + 31) == Ok(At(m.note, z));
    assert WordAt(b, z) == Ok(At(m.zoneId, z + 2)) && SkipAt(b, z + 2, 4) == Ok(At(m.tail, z + 6));
    hide TextAt, LongAt, WordAt, ByteAt, SkipAt, Gives;
  }

  lemma MemberFound(b: seq<byte>, p: nat, m: Member, next: nat)
    requires MemberAt(b, p) == Ok(At(m, next))
    ensures MemberOk(m) && Lies(b, p, MemberBytes(m)) && next == p + |MemberBytes(m)|
  {
    MemberFoundParts(b, p, m, next);
    MemberParts(b, p, m);
  }

  lemma MemberFoundParts(b: seq<byte>, p: nat, m: Member, next: nat)
    requires MemberAt(b, p) == Ok(At(m, next))
    ensures |m.tail| == 4 && MemberGiven(b, p, m) && next == p + 45 + |m.name| + |m.note|
  {
    hide U32At, U16At;
  }

  lemma MembersOkPush(ms: seq<Member>)
    requires ms != []
    ensures MembersOk(ms) <==> MembersOk(ms[..|ms| - 1]) && MemberOk(ms[|ms| - 1])
  {
    hide MemberOk;
    var n := |ms| - 1;
    assert forall i :: 0 <= i < n ==> ms[..n][i] == ms[i];
    if MembersOk(ms[..n]) && MemberOk(ms[n]) {
      forall i | 0 <= i < |ms| ensures MemberOk(ms[i]) {
        if i < n {
          assert MemberOk(ms[..n][i]);
        }
      }
    }
  }

  lemma {:induction false} MembersBytesPush(ms: seq<Member>)
    requires ms != [] && MembersOk(ms) && MembersOk(ms[..|ms| - 1]) && MemberOk(ms[|ms| - 1])
    ensures MembersBytes(ms) == MembersBytes(ms[..|ms| - 1]) + MemberBytes(ms[|ms| - 1])
  {
    hide MemberOk, MemberBytes, MembersOk;
  }

  lemma {:induction false} MembersPush(b: seq<byte>, p: nat, ms: seq<Member>)
    requires ms != []
    ensures MembersOk(ms) <==> MembersOk(ms[..|ms| - 1]) && MemberOk(ms[|ms| - 1])
    ensures MembersOk(ms) ==>
              var front, last := MembersBytes(ms[..|ms| - 1]), MemberBytes(ms[|ms| - 1]);
              && |MembersBytes(ms)| == |front| + |last|
              && (Lies(b, p, MembersBytes(ms)) <==> Lies(b, p, front) && Lies(b, p + |front|, last))
  {
    hide *;
    MembersOkPush(ms);
    if MembersOk(ms) {
      MembersBytesPush(ms);
      LiesSplit(b, p, MembersBytes(ms[..|ms| - 1]), MemberBytes(ms[|ms| - 1]));
    }
  }

  lemma {:induction false} NoMembers(b: seq<byte>, p: nat, ms: seq<Member>)
    requires p <= |b| && ms == []
    ensures MembersAt(b, p, |ms|) == Ok(At(ms, p))
    ensures MembersOk(ms) && MembersBytes(ms) == [] && Lies(b, p, [])
  {
  }

  lemma {:induction false} MembersAtPush(b: seq<byte>, p: nat, ms: seq<Member>, mid: nat, next: nat)
    requires ms != [] && MembersAt(b, p, |ms| - 1) == Ok(At(ms[..|ms| - 1], mid))
    requires MemberAt(b, mid) == Ok(At(ms[|ms| - 1], next))
    ensures MembersAt(b, p, |ms|) == Ok(At(ms, next))
  {
    hide MemberAt;
    assert ms == ms[..|ms| - 1] + [ms[|ms| - 1]];
  }

  lemma MembersAtPop(b: seq<byte>, p: nat, ms: seq<Member>, next: nat) returns (mid: nat)
    requires ms != [] && MembersAt(b, p, |ms|) == Ok(At(ms, next))
    ensures MembersAt(b, p, |ms| - 1) == Ok(At(ms[..|ms| - 1], mid))
    ensures MemberAt(b, mid) == Ok(At(ms[|ms| - 1], next))
  {
    hide MemberAt;
    mid := MembersAt(b, p, |ms| - 1).value.next;
  }

  /** The members found are exactly the ones whose bytes lie there: reading what lies there ... */
  lemma {:induction false} MembersRead(b: seq<byte>, p: nat, ms: seq<Member>)
    requires p <= |b| && MembersOk(ms) && Lies(b, p, MembersBytes(ms))
    ensures MembersAt(b, p, |ms|) == Ok(At(ms, p + |MembersBytes(ms)|))
  {
    hide *;
    if ms == [] {
      NoMembers(b, p, ms);
    } else {
      var n := |ms| - 1;
      MembersPush(b, p, ms);
      MembersRead(b, p, ms[..n]);
      var mid := p + |MembersBytes(ms[..n])|;
      MemberReads(b, mid, ms[n]);
      MembersAtPush(b, p, ms, mid, p + |MembersBytes(ms)|);
    }
  }

  /** ... and what was read lies there. */
  lemma {:induction false} MembersFound(b: seq<byte>, p: nat, ms: seq<Member>, next: nat)
    requires p <= |b| && MembersAt(b, p, |ms|) == Ok(At(ms, next))
    ensures MembersOk(ms) && Lies(b, p, MembersBytes(ms)) && next == p + |MembersBytes(ms)|
  {
    hide *;
    if ms == [] {
      NoMembers(b, p, ms);
    } else {
      var n := |ms| - 1;
      var mid := MembersAtPop(b, p, ms, next);
      MembersFound(b, p, ms[..n], mid);
      MemberFound(b, mid, ms[n], next);
      MembersPush(b, p, ms);
    }
  }

  ghost predicate HeaderGiven(b: seq<byte>, w: Packet)
    requires |w.members| <= U32_MAX
  {
    var q := 4 + |w.requester|;
    && Gives(TextAt(b, 0), w.requester, 0, q)
    && Gives(LongAt(b, q), w.guildId, q, 4) && Gives(LongAt(b, q + 4), w.unknown, q + 4, 4)
    && Gives(SkipAt(b, q + 8, 2), w.gap, q + 8, 2) && Gives(LongAt(b, q + 10), |w.members|, q + 10, 4)
  }

  lemma HeaderParts(b: seq<byte>, w: Packet)
    requires PacketOk(w)
    ensures var q := 18 + |w.requester|;
            Lies(b, 0, Encode(w)) <==> HeaderGiven(b, w) && Lies(b, q, MembersBytes(w.members))
    ensures |Encode(w)| == 18 + |w.requester| + |MembersBytes(w.members)|
  {
    hide U32Bytes, Lies, Gives, TextBytes, TextAt, MembersOk, MembersBytes;
    var q := 4 + |w.requester|;
    var r4 := U32Bytes(|w.members|) + MembersBytes(w.members);
    var r3 := w.gap + r4;
    var r2 := U32Bytes(w.unknown) + r3;
    var r1 := U32Bytes(w.guildId) + r2;
    TextExact(b, 0, w.requester);
    LiesSplit(b, 0, TextBytes(w.requester), r1);
    LiesSplit(b, q, U32Bytes(w.guildId), r2);
    LiesSplit(b, q + 4, U32Bytes(w.unknown), r3);
    LiesSplit(b, q + 8, w.gap, r4);
    LiesSplit(b, q + 10, U32Bytes(|w.members|), MembersBytes(w.members));
    LongExact(b, q, w.guildId);
    LongExact(b, q + 4, w.unknown);
    SkipExact(b, q + 8, w.gap);
    LongExact(b, q + 10, |w.members|);
  }

  lemma HeaderReads(b: seq<byte>, w: Packet)
    requires |w.members| <= U32_MAX && HeaderGiven(b, w)
    ensures HeaderAt(b) == Ok(At(Header(w.requester, w.guildId, w.unknown, w.gap, |w.members|), 18 + |w.requester|))
    ensures 18 + |w.requester| <= |b|
  {
    hide TextAt, U32At;
  }

  lemma HeaderFound(b: seq<byte>, w: Packet, next: nat)
    requires |w.members| <= U32_MAX
    requires HeaderAt(b) == Ok(At(Header(w.requester, w.guildId, w.unknown, w.gap, |w.members|), next))
    ensures HeaderGiven(b, w) && |w.gap| == 2 && TextOk(w.requester) && next == 18 + |w.requester| <= |b|
  {
    hide U32At;
  }

  /** Parsing accepts exactly the encodings, and gives back what was encoded: no other payload, and
      in particular none that ends early or late, is accepted. */
  lemma ParseInvertsEncode(b: seq<byte>, w: Packet)
    ensures ParsePacket(b) == Ok(w) <==> PacketOk(w) && b == Encode(w)
  {
    if PacketOk(w) && b == Encode(w) {
      LiesWhole(b, Encode(w));
      HeaderParts(b, w);
      HeaderReads(b, w);
      hide MembersOk, MembersBytes, Encode, HeaderAt, HeaderGiven, Lies, MembersAt;
      MembersRead(b, 18 + |w.requester|, w.members);
    } else if ParsePacket(b) == Ok(w) {
      hide MembersOk, MembersBytes, Encode, HeaderAt, HeaderGiven, Lies, MembersAt;
      var next := 18 + |w.requester|;
      HeaderFound(b, w, HeaderAt(b).value.next);
      MembersFound(b, next, w.members, |b|);
      HeaderParts(b, w);
      LiesWhole(b, Encode(w));
    }
  }

  /** The host's row carries nine fields of the member, each under its own name. */
  predicate Tells(r: GuildMemberRow, m: Member) {
    && r.name == m.name && r.level == m.level && r.bankerFlag == m.banker && r.classMask == m.classMask
    && r.rank == m.rank && r.lastOn == m.lastOn && r.fullMember == m.fullMember && r.publicNote == m.note
    && r.zoneId == m.zoneId
  }

  /** What an error says is so: a read ran past the end, a text is longer than what is left, or bytes are left
      over. */
  predicate ErrorTold(b: seq<byte>, e: RosterError) {
    match e
    case Truncated(at, size) => size == |b| && at + 4 > |b|
    case BadLength(n, at, size) => size == |b| && at + 4 <= |b| && n == U32At(b, at) && at + 4 + n > |b|
    case CountMismatch(declared, held) => declared == held
  }

  lemma MemberFails(b: seq<byte>, p: nat)
    ensures MemberAt(b, p).Err? ==> ErrorTold(b, MemberAt(b, p).error)
  {
    hide U32At, U16At;
  }

  lemma {:induction false} MembersFail(b: seq<byte>, p: nat, n: nat)
    ensures MembersAt(b, p, n).Err? ==> ErrorTold(b, MembersAt(b, p, n).error)
  {
    hide MemberAt, ErrorTold;
    if n > 0 {
      MembersFail(b, p, n - 1);
      if MembersAt(b, p, n - 1).Ok? {
        MemberFails(b, MembersAt(b, p, n - 1).value.next);
      }
    }
  }

  lemma HeaderFails(b: seq<byte>)
    ensures HeaderAt(b).Err? ==> ErrorTold(b, HeaderAt(b).error)
  {
    hide U32At;
  }

  lemma PacketFails(b: seq<byte>)
    ensures ParsePacket(b).Err? ==> ErrorTold(b, ParsePacket(b).error)
  {
    hide HeaderAt, MembersAt;
    HeaderFails(b);
    if HeaderAt(b).Ok? {
      MembersFail(b, HeaderAt(b).value.next, HeaderAt(b).value.value.count);
    }
  }

  /** A roster is accepted exactly when it is an encoding, and else the error is right; the host gets the guild
      and one row per member, in order. */
  lemma HostGetsRoster(b: seq<byte>, w: Packet)
    requires PacketOk(w)
    ensures var r := Parse(Encode(w));
            && r.Ok? && r.value.guildId == w.guildId && |r.value.members| == |w.members|
            && forall i :: 0 <= i < |w.members| ==> Tells(r.value.members[i], w.members[i])
    ensures match Parse(b)
            case Ok(_) => exists v :: PacketOk(v) && b == Encode(v)
            case Err(e) => ErrorTold(b, e)
  {
    PacketFails(b);
    ParseInvertsEncode(Encode(w), w);
    if Parse(b).Ok? {
      ParseInvertsEncode(b, ParsePacket(b).value);
    }
    hide PacketOk, Encode, ParsePacket, ErrorTold;
  }

  /** An accepted packet has no accepted proper extension, and so no accepted proper prefix: more bytes make
      the count a mismatch. */
  lemma PrefixFree(b: seq<byte>, t: seq<byte>)
    ensures ParsePacket(b).Ok? && t != [] ==>
              var n := |ParsePacket(b).value.members|;
              ParsePacket(b + t) == Err(CountMismatch(n, n))
  {
    if ParsePacket(b).Ok? {
      var w := ParsePacket(b).value;
      var c := b + t;
      ParseInvertsEncode(b, w);
      LiesWhole(b, Encode(w));
      LiesExtends(b, t, 0, Encode(w));
      HeaderParts(c, w);
      HeaderReads(c, w);
      hide MembersOk, MembersBytes, Encode, HeaderAt, HeaderGiven, Lies, MembersAt;
      MembersRead(c, 18 + |w.requester|, w.members);
    }
  }
}
