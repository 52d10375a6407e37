/** The active-buff list of a spawn (`seq-backend-eql/src/lib.rs`, `parse_buff_list`).

    `Packet` keeps every byte of the wire, the ignored ones too, so that parsing is exactly the
    inverse of `Encode`. */
module BuffList {
  import opened Prelude

  datatype BuffListEntry = BuffListEntry(spellId: u32, remainingTicks: i32, slot: u32, caster: seq<byte>)

  datatype BuffList = BuffList(spawnId: u32, entries: seq<BuffListEntry>)

  datatype DecodeError = Short(n: nat) | BadLength(n: nat)

  datatype Entry = Entry(spellId: u32, word4: u32, ticks: u32, word12: u32, caster: seq<byte>, slot: u32)

  datatype Packet = Packet(spawnId: u32, stamp: u32, flag: byte, pad: seq<byte>, entries: seq<Entry>)

  // ---- the wire format -----------------------------------------------------

  /** The slot is a u32 between entries and a u16 on the last one. */
  function SlotBytes(slot: u32, last: bool): seq<byte>
    requires last ==> slot < 0x1_0000
  {
    if last then U16Bytes(slot) else U32Bytes(slot)
  }

  predicate EntryOk(e: Entry, last: bool) {
    0 !in e.caster && (last ==> e.slot < 0x1_0000)
  }

  function EntryBytes(e: Entry, last: bool): seq<byte>
    requires EntryOk(e, last)
  {
    FixedBytes(e) + (e.caster + ([0] + SlotBytes(e.slot, last)))
  }

  function FixedBytes(e: Entry): (r: seq<byte>)
    ensures |r| == 16
  {
    U32Bytes(e.spellId) + (U32Bytes(e.word4) + (U32Bytes(e.ticks) + U32Bytes(e.word12)))
  }

  /** Entries `0..i` of a packet of `count` entries are well formed. */
  ghost predicate EntriesOk(es: seq<Entry>, count: nat) {
    |es| <= count && forall i :: 0 <= i < |es| ==> EntryOk(es[i], i + 1 == count)
  }

  ghost function EntriesBytes(es: seq<Entry>, count: nat): seq<byte>
    requires EntriesOk(es, count)
  {
    if es == [] then []
    else
      var n := |es| - 1;
      assert forall i :: 0 <= i < n ==> es[..n][i] == es[i];
      EntriesBytes(es[..n], count) + EntryBytes(es[n], |es| == count)
  }

  ghost predicate PacketOk(w: Packet) {
    |w.pad| == 5 && |w.entries| < 0x100 && EntriesOk(w.entries, |w.entries|)
  }

  ghost function Encode(w: Packet): seq<byte>
    requires PacketOk(w)
  {
    U32Bytes(w.spawnId) + (U32Bytes(w.stamp) + ([w.flag, |w.entries|] + (w.pad + EntriesBytes(w.entries, |w.entries|))))
  }

  // ---- reading it ----------------------------------------------------------

  function EntryAt(b: seq<byte>, p: nat, last: bool): (r: Option<At<Entry>>)
    ensures r.Some? ==> p <= r.value.next <= |b|
  {
    if p + 16 > |b| then None else
    match IndexFrom(b, 0, p + 16)
    case None => None
    case Some(nul) =>
      var q := nul + 1;
      var width := if last then 2 else 4;
      if q + width > |b| then None else
      var slot := if last then U16At(b, q) else U32At(b, q);
      Some(At(Entry(U32At(b, p), U32At(b, p + 4), U32At(b, p + 8), U32At(b, p + 12), b[p + 16..nul], slot), q + width))
  }

  /** The first `i` of `count` entries. */
  function EntriesAt(b: seq<byte>, p: nat, i: nat, count: nat): (r: Option<At<seq<Entry>>>)
    requires p <= |b|
    ensures r.Some? ==> p <= r.value.next <= |b| && |r.value.value| == i
  {
    if i == 0 then Some(At([], p)) else
    match EntriesAt(b, p, i - 1, count)
    case None => None
    case Some(front) =>
      match EntryAt(b, front.next, i == count)
      case None => None
      case Some(e) => Some(At(front.value + [e.value], e.next))
  }

  function ParsePacket(b: seq<byte>): Result<Packet, DecodeError> {
    if |b| < 15 then Err(Short(|b|)) else
    match EntriesAt(b, 15, b[9], b[9])
    case None => Err(BadLength(|b|))
    case Some(es) =>
      if es.next != |b| then Err(BadLength(|b|))
      else Ok(Packet(U32At(b, 0), U32At(b, 4), b[8], b[10..15], es.value))
  }

  function Surface(e: Entry): BuffListEntry {
    BuffListEntry(e.spellId, AsI32(e.ticks), e.slot, e.caster)
  }

  function SurfaceAll(es: seq<Entry>): (r: seq<BuffListEntry>)
    ensures |r| == |es| && forall i :: 0 <= i < |es| ==> r[i] == Surface(es[i])
  {
    if es == [] then [] else SurfaceAll(es[..|es| - 1]) + [Surface(es[|es| - 1])]
  }

  /** What the host sees: the parsed packet without the fields nobody reads. */
  function Parse(b: seq<byte>): Result<BuffList, DecodeError> {
    var w :- ParsePacket(b);
    Ok(BuffList(w.spawnId, SurfaceAll(w.entries)))
  }

  method ParseBuffList(b: seq<byte>) returns (r: Result<BuffList, DecodeError>)
    ensures r == Parse(b)
  {
    if |b| < 15 {
      return Err(Short(|b|));
    }
    var count: nat := b[9];
    var pos: nat := 15;
    var entries := [];
    ghost var wire := [];
    for i := 0 to count
      invariant pos <= |b|
      invariant EntriesAt(b, 15, i, count) == Some(At(wire, pos))
      invariant entries == SurfaceAll(wire)
    {
      hide EntryAt, U32At, Surface;
      var e := EntryAt(b, pos, i + 1 == count);
      if e.None? {
        EntriesStop(b, 15, i + 1, count, count);
        return Err(BadLength(|b|));
      }
      entries := entries + [Surface(e.value.value)];
      pos := e.value.next;
      assert (wire + [e.value.value])[..|wire|] == wire;
      wire := wire + [e.value.value];
    }
    if pos != |b| {
      return Err(BadLength(|b|));
    }
    r := Ok(BuffList(U32At(b, 0), entries));
  }

  /** Once an entry fails, the whole list fails. */
  lemma {:induction false} EntriesStop(b: seq<byte>, p: nat, i: nat, j: nat, count: nat)
    requires p <= |b| && i <= j && EntriesAt(b, p, i, count).None?
    ensures EntriesAt(b, p, j, count).None?
  {
    if i == j {
    } else {
      EntriesStop(b, p, i, j - 1, count);
    }
  }

  // ---- exactness -----------------------------------------------------------

  lemma {:induction false} CasterExact(b: seq<byte>, p: nat, caster: seq<byte>)
    requires p <= |b|
    ensures 0 !in caster && Lies(b, p, caster) && Lies(b, p + |caster|, [0])
            <==> IndexFrom(b, 0, p) == Some(p + |caster|) && b[p..p + |caster|] == caster
  {
    if 0 !in caster && Lies(b, p, caster) && Lies(b, p + |caster|, [0]) {
      IndexFromIs(b, 0, p, p + |caster|);
    }
  }

  lemma FixedExact(b: seq<byte>, p: nat, e: Entry)
    ensures Lies(b, p, FixedBytes(e))
            <==> p + 16 <= |b| && U32At(b, p) == e.spellId && U32At(b, p + 4) == e.word4
                 && U32At(b, p + 8) == e.ticks && U32At(b, p + 12) == e.word12
  {
    hide U32Bytes, U32At;
    LiesSplit(b, p, U32Bytes(e.spellId), U32Bytes(e.word4) + (U32Bytes(e.ticks) + U32Bytes(e.word12)));
    LiesSplit(b, p + 4, U32Bytes(e.word4), U32Bytes(e.ticks) + U32Bytes(e.word12));
    LiesSplit(b, p + 8, U32Bytes(e.ticks), U32Bytes(e.word12));
    LiesU32(b, p, e.spellId);
    LiesU32(b, p + 4, e.word4);
    LiesU32(b, p + 8, e.ticks);
    LiesU32(b, p + 12, e.word12);
  }

  lemma SlotExact(b: seq<byte>, p: nat, slot: u32, last: bool)
    requires last ==> slot < 0x1_0000
    ensures Lies(b, p, SlotBytes(slot, last))
            <==> if last then p + 2 <= |b| && U16At(b, p) == slot else p + 4 <= |b| && U32At(b, p) == slot
  {
    hide U32Bytes, U16Bytes, U32At, U16At;
    if last {
      LiesU16(b, p, slot);
    } else {
      LiesU32(b, p, slot);
    }
  }

  /** Where the parts of an entry lie. */
  lemma EntryParts(b: seq<byte>, p: nat, last: bool, e: Entry)
    requires EntryOk(e, last)
    ensures Lies(b, p, EntryBytes(e, last))
            <==> Lies(b, p, FixedBytes(e)) && Lies(b, p + 16, e.caster) && Lies(b, p + 16 + |e.caster|, [0])
                 && Lies(b, p + 17 + |e.caster|, SlotBytes(e.slot, last))
  {
    hide Lies, FixedBytes, SlotBytes;
    var slot := SlotBytes(e.slot, last);
    LiesSplit(b, p, FixedBytes(e), e.caster + ([0] + slot));
    LiesSplit(b, p + 16, e.caster, [0] + slot);
    LiesSplit(b, p + 16 + |e.caster|, [0], slot);
  }

  lemma EntryLength(e: Entry, last: bool)
    requires EntryOk(e, last)
    ensures |EntryBytes(e, last)| == 17 + |e.caster| + if last then 2 else 4
  {
  }

  lemma EntryReads(b: seq<byte>, p: nat, last: bool, e: Entry)
    requires EntryOk(e, last) && Lies(b, p, EntryBytes(e, last))
    ensures EntryAt(b, p, last) == Some(At(e, p + |EntryBytes(e, last)|))
  {
    hide *;
    EntryParts(b, p, last, e);
    EntryLength(e, last);
    FixedExact(b, p, e);
    CasterPlain(e, last);
    LiesInside(b, p + 16 + |e.caster|, [0]);
    CasterExact(b, p + 16, e.caster);
    SlotExact(b, p + 17 + |e.caster|, e.slot, last);
    EntryUnfolds(b, p, last, e);
  }

  lemma CasterPlain(e: Entry, last: bool)
    requires EntryOk(e, last)
    ensures 0 !in e.caster && (last ==> e.slot < 0x1_0000)
  {
  }

  lemma EntryUnfolds(b: seq<byte>, p: nat, last: bool, e: Entry)
    requires p + 16 <= |b| && IndexFrom(b, 0, p + 16) == Some(p + 16 + |e.caster|)
    requires b[p + 16..p + 16 + |e.caster|] == e.caster
    requires e.spellId == U32At(b, p) && e.word4 == U32At(b, p + 4)
    requires e.ticks == U32At(b, p + 8) && e.word12 == U32At(b, p + 12)
    requires var q := p + 17 + |e.caster|;
             if last then q + 2 <= |b| && U16At(b, q) == e.slot else q + 4 <= |b| && U32At(b, q) == e.slot
    ensures EntryAt(b, p, last) == Some(At(e, p + 17 + |e.caster| + if last then 2 else 4))
  {
    hide U32At, U16At, IndexFrom;
  }

  lemma EntryFound(b: seq<byte>, p: nat, last: bool, e: Entry, next: nat)
    requires EntryAt(b, p, last) == Some(At(e, next))
    ensures EntryOk(e, last) && Lies(b, p, EntryBytes(e, last)) && next == p + |EntryBytes(e, last)|
  {
    hide Lies, U32At, U16At, EntryBytes, FixedBytes, SlotBytes;
    CasterExact(b, p + 16, e.caster);
    FixedExact(b, p, e);
    SlotExact(b, p + 17 + |e.caster|, e.slot, last);
    EntryParts(b, p, last, e);
    EntryLength(e, last);
  }

  lemma EntriesOkPush(es: seq<Entry>, count: nat)
    requires es != [] && (|es| <= count || EntriesOk(es, count))
    ensures EntriesOk(es, count)
            <==> EntriesOk(es[..|es| - 1], count) && EntryOk(es[|es| - 1], |es| == count)
  {
    var n := |es| - 1;
    hide EntryOk;
    assert forall i :: 0 <= i < n ==> es[..n][i] == es[i];
    if EntriesOk(es[..n], count) && EntryOk(es[n], |es| == count) {
      forall i | 0 <= i < |es| ensures EntryOk(es[i], i + 1 == count) {
        if i < n {
          assert EntryOk(es[..n][i], i + 1 == count);
        }
      }
    }
  }

  lemma {:induction false} EntriesPush(b: seq<byte>, p: nat, es: seq<Entry>, count: nat)
    requires es != [] && EntriesOk(es, count)
    ensures EntriesOk(es[..|es| - 1], count) && EntryOk(es[|es| - 1], |es| == count)
    ensures |EntriesBytes(es, count)|
            == |EntriesBytes(es[..|es| - 1], count)| + |EntryBytes(es[|es| - 1], |es| == count)|
    ensures var front := EntriesBytes(es[..|es| - 1], count);
            Lies(b, p, EntriesBytes(es, count))
            <==> Lies(b, p, front) && Lies(b, p + |front|, EntryBytes(es[|es| - 1], |es| == count))
  {
    hide *;
    EntriesOkPush(es, count);
    EntriesBytesPush(es, count);
    LiesSplit(b, p, EntriesBytes(es[..|es| - 1], count), EntryBytes(es[|es| - 1], |es| == count));
  }

  lemma {:induction false} EntriesBytesPush(es: seq<Entry>, count: nat)
    requires es != [] && EntriesOk(es, count)
    requires EntriesOk(es[..|es| - 1], count) && EntryOk(es[|es| - 1], |es| == count)
    ensures EntriesBytes(es, count)
            == EntriesBytes(es[..|es| - 1], count) + EntryBytes(es[|es| - 1], |es| == count)
  {
    hide EntryOk, EntryBytes, EntriesOk;
  }

  lemma {:induction false} EntriesAtPush(b: seq<byte>, p: nat, es: seq<Entry>, count: nat, mid: nat, next: nat)
    requires p <= |b| && es != [] && mid <= |b|
    requires EntriesAt(b, p, |es| - 1, count) == Some(At(es[..|es| - 1], mid))
    requires EntryAt(b, mid, |es| == count) == Some(At(es[|es| - 1], next))
    ensures EntriesAt(b, p, |es|, count) == Some(At(es, next))
  {
    hide EntryAt;
    assert es == es[..|es| - 1] + [es[|es| - 1]];
  }

  lemma {:induction false} NoEntries(b: seq<byte>, p: nat, es: seq<Entry>, count: nat)
    requires p <= |b| && es == []
    ensures EntriesAt(b, p, |es|, count) == Some(At(es, p))
    ensures EntriesOk(es, count) && EntriesBytes(es, count) == [] && Lies(b, p, [])
  {
  }

  lemma EntriesAtPop(b: seq<byte>, p: nat, es: seq<Entry>, count: nat, next: nat) returns (mid: nat)
    requires p <= |b| && es != [] && EntriesAt(b, p, |es|, count) == Some(At(es, next))
    ensures mid <= |b| && EntriesAt(b, p, |es| - 1, count) == Some(At(es[..|es| - 1], mid))
    ensures EntryAt(b, mid, |es| == count) == Some(At(es[|es| - 1], next))
  {
    hide EntryAt;
    mid := EntriesAt(b, p, |es| - 1, count).value.next;
  }

  /** The entries found are exactly the ones whose bytes lie there: reading what lies there ... */
  lemma {:induction false} EntriesRead(b: seq<byte>, p: nat, es: seq<Entry>, count: nat)
    requires p <= |b| && EntriesOk(es, count) && Lies(b, p, EntriesBytes(es, count))
    ensures EntriesAt(b, p, |es|, count) == Some(At(es, p + |EntriesBytes(es, count)|))
  {
    hide *;
    if es == [] {
      NoEntries(b, p, es, count);
    } else {
      var n := |es| - 1;
      EntriesPush(b, p, es, count);
      EntriesRead(b, p, es[..n], count);
      var mid := p + |EntriesBytes(es[..n], count)|;
      EntryReads(b, mid, |es| == count, es[n]);
      LiesInside(b, p, EntriesBytes(es[..n], count));
      EntriesAtPush(b, p, es, count, mid, p + |EntriesBytes(es, count)|);
    }
  }

  /** ... and what was read lies there. */
  lemma {:induction false} EntriesFound(b: seq<byte>, p: nat, es: seq<Entry>, count: nat, next: nat)
    requires p <= |b| && |es| <= count && EntriesAt(b, p, |es|, count) == Some(At(es, next))
    ensures EntriesOk(es, count) && Lies(b, p, EntriesBytes(es, count)) && next == p + |EntriesBytes(es, count)|
  {
    hide *;
    if es == [] {
      NoEntries(b, p, es, count);
    } else {
      var n := |es| - 1;
      var mid := EntriesAtPop(b, p, es, count, next);
      EntriesFound(b, p, es[..n], count, mid);
      EntryFound(b, mid, |es| == count, es[n], next);
      EntriesOkPush(es, count);
      EntriesPush(b, p, es, count);
    }
  }

  /** Where the parts of a packet lie. */
  lemma HeaderParts(b: seq<byte>, w: Packet)
    requires PacketOk(w)
    ensures b == Encode(w)
            <==> |b| >= 15 && U32At(b, 0) == w.spawnId && U32At(b, 4) == w.stamp && b[8] == w.flag
                 && b[9] == |w.entries| && b[10..15] == w.pad
                 && Lies(b, 15, EntriesBytes(w.entries, |w.entries|))
                 && |b| == 15 + |EntriesBytes(w.entries, |w.entries|)|
  {
    hide EntriesOk, EntriesBytes, U32Bytes, U32At;
    var es := EntriesBytes(w.entries, |w.entries|);
    var head: seq<byte> := [w.flag, |w.entries|];
    LiesU32(b, 0, w.spawnId);
    LiesU32(b, 4, w.stamp);
    LiesSplit(b, 0, U32Bytes(w.spawnId), U32Bytes(w.stamp) + (head + (w.pad + es)));
    LiesSplit(b, 4, U32Bytes(w.stamp), head + (w.pad + es));
    LiesSplit(b, 8, head, w.pad + es);
    LiesSplit(b, 10, w.pad, es);
    assert b[0..|b|] == b;
    if |b| >= 10 {
      assert b[8..10] == [b[8], b[9]];
    }
  }

  /** Parsing accepts exactly the encodings, and gives back what was encoded. */
  lemma ParseInvertsEncode(b: seq<byte>, w: Packet)
    ensures ParsePacket(b) == Ok(w) <==> PacketOk(w) && b == Encode(w)
  {
    var n := |w.entries|;
    if PacketOk(w) && b == Encode(w) {
      HeaderParts(b, w);
      hide EntriesOk, EntriesBytes, EntriesAt, U32At, Encode;
      EntriesRead(b, 15, w.entries, n);
    } else if ParsePacket(b) == Ok(w) {
      hide EntriesOk, EntriesBytes, EntriesAt, U32At, Encode;
      EntriesFound(b, 15, w.entries, n, |b|);
      HeaderParts(b, w);
    }
  }

  /** The host's entry: spell, slot and caster as sent, the ticks in two's complement. */
  predicate Tells(r: BuffListEntry, e: Entry) {
    && r.spellId == e.spellId && r.slot == e.slot && r.caster == e.caster
    && r.remainingTicks == if e.ticks < 0x8000_0000 then e.ticks else e.ticks - 0x1_0000_0000
  }

  lemma FailsByLength(b: seq<byte>)
    ensures ParsePacket(b).Err? ==> ParsePacket(b).error == if |b| < 15 then Short(|b|) else BadLength(|b|)
  {
    hide EntriesAt;
  }

  /** A list is accepted exactly when it is an encoding, and else the error names its length; the host gets the
      spawn and one entry per buff, in order. */
  lemma HostGetsBuffs(b: seq<byte>, w: Packet)
    requires PacketOk(w)
    ensures var r := Parse(Encode(w));
            && r.Ok? && r.value.spawnId == w.spawnId && |r.value.entries| == |w.entries|
            && forall i :: 0 <= i < |w.entries| ==> Tells(r.value.entries[i], w.entries[i])
    ensures match Parse(b)
            case Ok(_) => exists v :: PacketOk(v) && b == Encode(v)
            case Err(e) => e == if |b| < 15 then Short(|b|) else BadLength(|b|)
  {
    FailsByLength(b);
    ParseInvertsEncode(Encode(w), w);
    if Parse(b).Ok? {
      ParseInvertsEncode(b, ParsePacket(b).value);
    }
    hide PacketOk, Encode, ParsePacket;
  }

  /** An accepted packet has no accepted proper extension, and so no accepted proper prefix. */
  lemma PrefixFree(b: seq<byte>, t: seq<byte>)
    ensures ParsePacket(b).Ok? && t != [] ==> ParsePacket(b + t) == Err(BadLength(|b + t|))
  {
    if ParsePacket(b).Ok? {
      hide EntriesOk, EntriesBytes, EntriesAt, U32At;
      var w := ParsePacket(b).value;
      assert (b + t)[9] == b[9];
      EntriesFound(b, 15, w.entries, |w.entries|, |b|);
      LiesExtends(b, t, 15, EntriesBytes(w.entries, |w.entries|));
      EntriesRead(b + t, 15, w.entries, |w.entries|);
    }
  }
}
