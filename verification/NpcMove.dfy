/** The MSB-first bit reader and the packet it reads (`seq-backend-eql/src/npc_move_update.rs`).

    The meaning of a read is the integer spelled by the bits it covers; the byte-wise reader is
    proved to return exactly that, and the parser to undo a bit writer. */
module NpcMove {
  import opened Prelude

  // ---- bits and their meaning ----------------------------------------------

  type bit = x: int | 0 <= x < 2

  /** The integer the bits spell, most significant first. */
  function Value(bs: seq<bit>): nat {
    if bs == [] then 0 else 2 * Value(bs[..|bs| - 1]) + bs[|bs| - 1]
  }

  /** The low `n` bits of a number, most significant first. */
  function UintBits(v: nat, n: nat): (r: seq<bit>)
    ensures |r| == n
  {
    if n == 0 then [] else UintBits(v / 2, n - 1) + [v % 2]
  }

  function ByteBits(b: byte): (r: seq<bit>)
    ensures |r| == 8
  {
    UintBits(b, 8)
  }

  function Bits(data: seq<byte>): (r: seq<bit>)
    ensures |r| == 8 * |data|
  {
    if data == [] then [] else Bits(data[..|data| - 1]) + ByteBits(data[|data| - 1])
  }

  lemma {:induction false} Pow2Grows(m: nat, n: nat)
    requires m <= n
    ensures Pow2(m) <= Pow2(n)
  {
    if m == n {
    } else {
      Pow2Grows(m, n - 1);
    }
  }

  lemma Pow2At8()
    ensures Pow2(0) == 1 && Pow2(1) == 2 && Pow2(2) == 4 && Pow2(3) == 8 && Pow2(4) == 16
    ensures Pow2(5) == 32 && Pow2(6) == 64 && Pow2(7) == 128 && Pow2(8) == 256
  {
  }

  lemma Pow2At32()
    ensures Pow2(32) == 0x1_0000_0000
  {
    Pow2At8();
    Pow2Add(8, 8);
    Pow2Add(16, 16);
  }

  lemma {:induction false} ValueBound(bs: seq<bit>)
    ensures Value(bs) < Pow2(|bs|)
  {
    if bs == [] {
    } else {
      ValueBound(bs[..|bs| - 1]);
    }
  }

  lemma {:induction false} ValueConcat(a: seq<bit>, b: seq<bit>)
    ensures Value(a + b) == Value(a) * Pow2(|b|) + Value(b)
  {
    if b == [] {
      assert a + b == a;
    } else {
      var b' := b[..|b| - 1];
      ValueConcat(a, b');
      assert (a + b)[..|a + b| - 1] == a + b';
      assert Value(a) * Pow2(|b|) == 2 * (Value(a) * Pow2(|b'|));
    }
  }

  lemma {:induction false} UintValue(v: nat, n: nat)
    requires v < Pow2(n)
    ensures Value(UintBits(v, n)) == v
  {
    if n == 0 {
    } else {
      UintValue(v / 2, n - 1);
      assert UintBits(v, n)[..n - 1] == UintBits(v / 2, n - 1);
    }
  }

  lemma ByteValue(b: byte)
    ensures Value(ByteBits(b)) == b
  {
    Pow2At8();
    UintValue(b, 8);
  }

  /** A split of a byte: its leading bits by division, its trailing bits by remainder. */
  lemma {:induction false} ByteSplit(b: byte, i: nat)
    requires i <= 8
    ensures Value(ByteBits(b)[..i]) == b / Pow2(8 - i)
    ensures Value(ByteBits(b)[i..]) == b % Pow2(8 - i)
  {
    var s := ByteBits(b);
    assert s == s[..i] + s[i..];
    ByteValue(b);
    ValueConcat(s[..i], s[i..]);
    ValueBound(s[i..]);
    DivMod(Value(s[..i]), Value(s[i..]), Pow2(8 - i));
  }

  lemma SplitRun(s: seq<bit>, i: nat, n: nat)
    requires i + n <= |s|
    ensures s[i..] == s[i..i + n] + s[i + n..]
  {
  }

  /** A run of bits inside one byte. */
  lemma ByteMiddle(b: byte, i: nat, n: nat)
    requires i + n <= 8
    ensures Value(ByteBits(b)[i..i + n]) == b % Pow2(8 - i) / Pow2(8 - i - n)
  {
    hide *;
    var s := ByteBits(b);
    ByteSplit(b, i);
    SplitRun(s, i, n);
    ValueConcat(s[i..i + n], s[i + n..]);
    ValueBound(s[i + n..]);
    DivMod(Value(s[i..i + n]), Value(s[i + n..]), Pow2(8 - i - n));
  }

  lemma {:induction false} BitsLast(data: seq<byte>)
    requires data != []
    ensures Bits(data) == Bits(data[..|data| - 1]) + ByteBits(data[|data| - 1])
  {
    hide ByteBits;
  }

  lemma SliceBehind(a: seq<bit>, b: seq<bit>, i: nat, j: nat)
    requires i <= j <= |b|
    ensures (a + b)[|a| + i..|a| + j] == b[i..j]
  {
  }

  lemma SliceBefore(a: seq<bit>, b: seq<bit>, i: nat, j: nat)
    requires i <= j <= |a|
    ensures (a + b)[i..j] == a[i..j]
  {
  }

  lemma {:induction false} BitsOfByte(data: seq<byte>, k: nat, i: nat, j: nat)
    requires k < |data| && i <= j <= 8
    ensures Bits(data)[8 * k + i..8 * k + j] == ByteBits(data[k])[i..j]
  {
    hide *;
    var n := |data| - 1;
    BitsLast(data);
    if k == n {
      assert |Bits(data[..n])| == 8 * n;
      SliceBehind(Bits(data[..n]), ByteBits(data[n]), i, j);
    } else {
      BitsOfByte(data[..n], k, i, j);
      SliceBefore(Bits(data[..n]), ByteBits(data[n]), 8 * k + i, 8 * k + j);
    }
  }

  // ---- reading from the bits -----------------------------------------------

  datatype Read = Read(value: int, rest: seq<bit>)

  /** An unsigned field: an under-read yields zero and consumes nothing. */
  function TakeUint(rest: seq<bit>, n: nat): Read {
    if n > |rest| then Read(0, rest) else Read(Value(rest[..n]), rest[n..])
  }

  /** A sign bit and then the magnitude. */
  function TakeInt(rest: seq<bit>, n: nat): Read
    requires n >= 1
  {
    var sign := TakeUint(rest, 1);
    var mag := TakeUint(sign.rest, n - 1);
    Read(if sign.value != 0 then -mag.value else mag.value, mag.rest)
  }

  function TakeOptional(has: bool, rest: seq<bit>, n: nat): Read
    requires n >= 1
  {
    if has then TakeInt(rest, n) else Read(0, rest)
  }

  /** Two reads in a row spell the two parts of one longer read. */
  lemma {:induction false} ReadsConcatenate(rest: seq<bit>, m: nat, n: nat)
    requires m + n <= |rest|
    ensures var a := TakeUint(rest, m); var b := TakeUint(a.rest, n);
            TakeUint(rest, m + n) == Read(a.value * Pow2(n) + b.value, b.rest)
  {
    assert rest[..m + n] == rest[..m] + rest[m..][..n];
    ValueConcat(rest[..m], rest[m..][..n]);
    assert rest[m..][n..] == rest[m + n..];
  }

  // ---- the reader ----------------------------------------------------------

  /** `<<` on a u32: bits shifted past the top are lost. */
  function Shl32(v: u32, n: nat): u32 {
    v * Pow2(n) % 0x1_0000_0000
  }

  class BitStream {
    const data: seq<byte>
    var cur: nat

    ghost predicate Valid()
      reads this
    {
      cur <= 8 * |data|
    }

    ghost function Rest(): seq<bit>
      reads this
      requires Valid()
    {
      Bits(data)[cur..]
    }

    constructor (data: seq<byte>)
      ensures this.data == data && Valid() && Rest() == Bits(data)
    {
      this.data := data;
      cur := 0;
    }

    /** Masks, shifts and ors of the original, with `&` of a low mask as a remainder and `|` of a
        freshly shifted word as a sum. */
    method ReadUint(n: nat) returns (out: u32)
      requires Valid() && n <= 32
      modifies this`cur
      ensures Valid()
      ensures Read(out, Rest()) == TakeUint(old(Rest()), n)
    {
      hide Bits, Pow2, Field, Shl32, TakeUint;
      if cur + n > 8 * |data| {
        TakeShort(Rest(), n);
        return 0;
      }
      ghost var start := cur;
      TakeField(data, start, n);
      EmptyField(data, start);
      Pow2At8();
      var byteIdx := cur / 8;
      var lead := if cur % 8 == 0 then 0 else 8 - cur % 8;
      if lead > n {
        WithinByte(data, start, n);
        var raw := data[byteIdx] % Pow2(lead);
        cur := cur + n;
        return raw / Pow2(lead - n);
      }
      var middle := (n - lead) / 8;
      var tail := n - lead - middle * 8;
      out := 0;
      if lead > 0 {
        WithinByte(data, start, lead);
        out := data[byteIdx] % Pow2(lead);
        byteIdx := byteIdx + 1;
      }
      for k := 0 to middle
        invariant cur == start && 8 * byteIdx == start + lead + 8 * k
        invariant out == Field(data, start, lead + 8 * k)
      {
        AppendPart(data, start, lead + 8 * k, byteIdx, 8, out);
        out := Shl32(out, 8) + data[byteIdx];
        byteIdx := byteIdx + 1;
      }
      if tail > 0 {
        AppendPart(data, start, lead + 8 * middle, byteIdx, tail, out);
        out := Shl32(out, tail) + data[byteIdx] / Pow2(8 - tail);
      }
      cur := cur + n;
    }

    method ReadInt(n: nat) returns (out: i32)
      requires Valid() && 1 <= n <= 32
      modifies this`cur
      ensures Valid()
      ensures Read(out, Rest()) == TakeInt(old(Rest()), n)
    {
      var sign := ReadUint(1);
      ghost var before := Rest();
      var mag := ReadUint(n - 1);
      TakeBound(before, n - 1);
      Pow2Grows(n - 1, 31);
      Pow2At32();
      var m: int := mag;
      out := if sign != 0 then -m else m;
    }

    /** A field that is read only when its mask bit is set. */
    method ReadIntIf(has: bool, n: nat) returns (out: i32)
      requires Valid() && 1 <= n <= 32
      modifies this`cur
      ensures Valid()
      ensures Read(out, Rest()) == TakeOptional(has, old(Rest()), n)
    {
      out := 0;
      if has {
        out := ReadInt(n);
      }
    }
  }

  /** What the `n` bits from `start` on spell. */
  ghost function Field(data: seq<byte>, start: nat, n: nat): nat
    requires start + n <= 8 * |data|
  {
    Value(Bits(data)[start..start + n])
  }

  lemma TakeShort(rest: seq<bit>, n: nat)
    requires n > |rest|
    ensures TakeUint(rest, n) == Read(0, rest)
  {
  }

  lemma {:induction false} TakeField(data: seq<byte>, start: nat, n: nat)
    requires start + n <= 8 * |data|
    ensures TakeUint(Bits(data)[start..], n) == Read(Field(data, start, n), Bits(data)[start + n..])
  {
    hide Value;
    var bs := Bits(data);
    hide Bits;
    assert bs[start..][..n] == bs[start..start + n];
    assert bs[start..][n..] == bs[start + n..];
  }

  lemma EmptyField(data: seq<byte>, start: nat)
    requires start <= 8 * |data|
    ensures Field(data, start, 0) == 0
  {
  }

  lemma ReadBound(data: seq<byte>, start: nat, n: nat)
    requires start + n <= 8 * |data| && n <= 32
    ensures Field(data, start, n) < 0x1_0000_0000
  {
    ValueBound(Bits(data)[start..start + n]);
    Pow2Grows(n, 32);
    Pow2At32();
  }

  lemma {:induction false} TakeBound(rest: seq<bit>, n: nat)
    ensures TakeUint(rest, n).value < Pow2(n)
  {
    if n <= |rest| {
      ValueBound(rest[..n]);
    }
  }

  /** A run that stays inside the byte it starts in. */
  lemma {:induction false} WithinByte(data: seq<byte>, start: nat, n: nat)
    requires start / 8 < |data| && start % 8 + n <= 8
    ensures Field(data, start, n)
            == data[start / 8] % Pow2(8 - start % 8) / Pow2(8 - start % 8 - n)
    ensures Field(data, start, n) < 0x1_0000_0000
  {
    hide *;
    var i, k := start % 8, start / 8;
    assert start == 8 * k + i && start + n == 8 * k + (i + n);
    FieldIs(data, start, n);
    BitsOfByte(data, k, i, i + n);
    ByteMiddle(data[k], i, n);
    ReadBound(data, start, n);
  }

  lemma {:induction false} FieldIs(data: seq<byte>, start: nat, n: nat)
    requires start + n <= 8 * |data|
    ensures Field(data, start, n) == Value(Bits(data)[start..start + n])
  {
  }

  lemma {:induction false} ShiftIn(out: u32, x: nat, n: nat)
    requires out * Pow2(n) + x < 0x1_0000_0000
    ensures Shl32(out, n) + x == out * Pow2(n) + x
  {
    hide Pow2;
    var d := Pow2(n);
    ProductNat(out, d);
    ModSmall(out * d, 0x1_0000_0000);
  }

  /** Shifting in the first `n` bits of the next byte: nothing falls off the top, and the result
      spells the longer run of bits. */
  lemma {:induction false} AppendPart(data: seq<byte>, start: nat, have: nat, k: nat, n: nat, out: u32)
    requires n <= 8 && have + n <= 32 && k < |data| && start + have == 8 * k
    requires out == Field(data, start, have)
    ensures Shl32(out, n) + data[k] / Pow2(8 - n) == Field(data, start, have + n)
    ensures Shl32(out, n) + data[k] / Pow2(8 - n) < 0x1_0000_0000
  {
    hide Pow2, Bits, Value, Shl32, UintBits;
    var bs := Bits(data);
    var a, b := bs[start..start + have], bs[start + have..start + have + n];
    assert bs[start..start + have + n] == a + b;
    BitsOfByte(data, k, 0, n);
    ByteSplit(data[k], n);
    assert ByteBits(data[k])[0..n] == ByteBits(data[k])[..n];
    ValueConcat(a, b);
    ReadBound(data, start, have + n);
    ShiftIn(out, data[k] / Pow2(8 - n), n);
  }

  // ---- the packet ----------------------------------------------------------

  datatype NpcMoveUpdate = NpcMoveUpdate(
    spawnId: u16, x: i16, y: i16, z: i16, heading: i16,
    deltaX: i16, deltaY: i16, deltaZ: i16, deltaHeading: i8, animation: i16,
    hasDeltaX: bool, hasDeltaY: bool, hasDeltaZ: bool, hasDeltaHeading: bool, hasAnimation: bool)

  datatype ParseError = BadLength(n: nat)

  predicate MaskBit(mask: nat, k: nat) {
    mask / Pow2(k) % 2 == 1
  }

  /** `as i16` and `as i8` of a wider integer: its low bits, read as signed. */
  function WrapI16(v: int): i16 {
    AsI16(v % 0x1_0000)
  }

  function WrapI8(v: int): i8 {
    AsI8(v % 0x100)
  }

  /** The fields in the order they lie in the bits. */
  datatype Fields = Fields(
    spawn: int, mask: int, y: int, x: int, z: int, heading: int,
    deltaHeading: int, animation: int, deltaY: int, deltaX: int, deltaZ: int)

  function ReadFields(bits: seq<bit>): Fields {
    var spawn := TakeUint(bits, 16);
    var garbage := TakeUint(spawn.rest, 32);
    var mask := TakeUint(garbage.rest, 6);
    var y := TakeInt(mask.rest, 19);
    var x := TakeInt(y.rest, 19);
    var z := TakeInt(x.rest, 19);
    var heading := TakeInt(z.rest, 12);
    var d := ReadDeltas(mask.value, heading.rest);
    Fields(spawn.value, mask.value, y.value, x.value, z.value, heading.value,
           d.deltaHeading, d.animation, d.deltaY, d.deltaX, d.deltaZ)
  }

  datatype Deltas = Deltas(deltaHeading: int, animation: int, deltaY: int, deltaX: int, deltaZ: int)

  /** The optional fields, in the order of their mask bits; the pitch is read and dropped. */
  function ReadDeltas(mask: nat, rest: seq<bit>): Deltas {
    var pitch := TakeOptional(MaskBit(mask, 0), rest, 12);
    var deltaHeading := TakeOptional(MaskBit(mask, 1), pitch.rest, 10);
    var animation := TakeOptional(MaskBit(mask, 2), deltaHeading.rest, 10);
    var deltaY := TakeOptional(MaskBit(mask, 3), animation.rest, 13);
    var deltaX := TakeOptional(MaskBit(mask, 4), deltaY.rest, 13);
    var deltaZ := TakeOptional(MaskBit(mask, 5), deltaX.rest, 13);
    Deltas(deltaHeading.value, animation.value, deltaY.value, deltaX.value, deltaZ.value)
  }

  predicate InRange(v: int, bound: int) {
    -bound < v < bound
  }

  /** The ranges that the field widths leave. */
  predicate Sized(f: Fields) {
    && 0 <= f.spawn < 0x1_0000 && 0 <= f.mask < 64
    && InRange(f.y, 0x4_0000) && InRange(f.x, 0x4_0000) && InRange(f.z, 0x4_0000) && InRange(f.heading, 2048)
    && InRange(f.deltaHeading, 512) && InRange(f.animation, 512)
    && InRange(f.deltaY, 4096) && InRange(f.deltaX, 4096) && InRange(f.deltaZ, 4096)
  }

  lemma {:induction false} IntBound(rest: seq<bit>, n: nat)
    requires n >= 1
    ensures InRange(TakeInt(rest, n).value, Pow2(n - 1))
  {
    TakeBound(TakeUint(rest, 1).rest, n - 1);
  }

  lemma Widths()
    ensures Pow2(6) == 64 && Pow2(9) == 512 && Pow2(11) == 2048 && Pow2(12) == 4096
    ensures Pow2(16) == 0x1_0000 && Pow2(18) == 0x4_0000
  {
    Pow2At8();
    Pow2Add(8, 8);
    Pow2Add(16, 2);
    assert Pow2(10) == 4 * Pow2(8);
  }

  lemma ReadFieldsSized(bits: seq<bit>)
    ensures Sized(ReadFields(bits))
  {
    Widths();
    hide TakeUint, TakeInt, Pow2, MaskBit;
    var spawn := TakeUint(bits, 16);
    var garbage := TakeUint(spawn.rest, 32);
    var mask := TakeUint(garbage.rest, 6);
    TakeBound(bits, 16);
    TakeBound(garbage.rest, 6);
    forall rest: seq<bit>
      ensures InRange(TakeInt(rest, 19).value, 0x4_0000) && InRange(TakeInt(rest, 12).value, 2048)
      ensures InRange(TakeInt(rest, 10).value, 512) && InRange(TakeInt(rest, 13).value, 4096)
      ensures TakeUint(rest, 6).value >= 0 && TakeUint(rest, 16).value >= 0
    {
      IntBound(rest, 19);
      IntBound(rest, 12);
      IntBound(rest, 10);
      IntBound(rest, 13);
      UintNat(rest, 6);
      UintNat(rest, 16);
    }
  }

  lemma UintNat(rest: seq<bit>, n: nat)
    ensures TakeUint(rest, n).value >= 0
  {
  }

  /** The packet the fields mean: coordinates in eighths, deltas in quarters, rounded down. */
  function Meaning(f: Fields): NpcMoveUpdate
    requires Sized(f)
  {
    NpcMoveUpdate(
      f.spawn, f.x / 8, f.y / 8, f.z / 8, f.heading, f.deltaX / 4, f.deltaY / 4, f.deltaZ / 4,
      f.deltaHeading / 4, f.animation / 4,
      MaskBit(f.mask, 4), MaskBit(f.mask, 3), MaskBit(f.mask, 5), MaskBit(f.mask, 1), MaskBit(f.mask, 2))
  }

  /** The shifts and narrowing casts of the original. */
  function Cast(f: Fields): NpcMoveUpdate
    requires f.mask >= 0
  {
    NpcMoveUpdate(
      f.spawn % 0x1_0000, WrapI16(f.x / 8), WrapI16(f.y / 8), WrapI16(f.z / 8), WrapI16(f.heading),
      WrapI16(f.deltaX / 4), WrapI16(f.deltaY / 4), WrapI16(f.deltaZ / 4),
      WrapI8(f.deltaHeading / 4), WrapI16(f.animation / 4),
      MaskBit(f.mask, 4), MaskBit(f.mask, 3), MaskBit(f.mask, 5), MaskBit(f.mask, 1), MaskBit(f.mask, 2))
  }

  /** No cast loses anything: after its shift every field fits the type it is cast to. */
  lemma CastLossless(f: Fields)
    requires Sized(f)
    ensures Cast(f) == Meaning(f)
  {
    hide MaskBit, AsI16;
    AsI16Fits(f.x / 8);
    AsI16Fits(f.y / 8);
    AsI16Fits(f.z / 8);
    AsI16Fits(f.heading);
    AsI16Fits(f.deltaX / 4);
    AsI16Fits(f.deltaY / 4);
    AsI16Fits(f.deltaZ / 4);
    AsI16Fits(f.animation / 4);
  }

  /** Every payload of 16 to 24 bytes parses, to the meaning of its fields. */
  function ParsePacket(bytes: seq<byte>): Result<NpcMoveUpdate, ParseError> {
    if |bytes| < 16 || |bytes| > 24 then Err(BadLength(|bytes|))
    else
      ReadFieldsSized(Bits(bytes));
      Ok(Meaning(ReadFields(Bits(bytes))))
  }

  method ParseNpcMoveUpdate(bytes: seq<byte>) returns (r: Result<NpcMoveUpdate, ParseError>)
    ensures r == ParsePacket(bytes)
  {
    if |bytes| < 16 || |bytes| > 24 {
      return Err(BadLength(|bytes|));
    }
    ReadFieldsSized(Bits(bytes));
    hide Bits, TakeUint, TakeInt, Pow2, MaskBit, Cast, Meaning, BitStream.Rest;
    var s := new BitStream(bytes);
    var spawn := s.ReadUint(16);
    var garbage := s.ReadUint(32);
    var mask := s.ReadUint(6);
    var y := s.ReadInt(19);
    var x := s.ReadInt(19);
    var z := s.ReadInt(19);
    var heading := s.ReadInt(12);
    var pitch := s.ReadIntIf(MaskBit(mask, 0), 12);
    var deltaHeading := s.ReadIntIf(MaskBit(mask, 1), 10);
    var animation := s.ReadIntIf(MaskBit(mask, 2), 10);
    var deltaY := s.ReadIntIf(MaskBit(mask, 3), 13);
    var deltaX := s.ReadIntIf(MaskBit(mask, 4), 13);
    var deltaZ := s.ReadIntIf(MaskBit(mask, 5), 13);
    // The original ends with a test for a cursor past the end; it cannot fire.
    assert s.cur <= 8 * |bytes|;
    var f := Fields(spawn, mask, y, x, z, heading, deltaHeading, animation, deltaY, deltaX, deltaZ);
    CastLossless(f);
    r := Ok(Cast(f));
  }

  // ---- the writer ----------------------------------------------------------

  function Abs(v: int): nat {
    if v < 0 then -v else v
  }

  function IntBits(v: int, n: nat): (r: seq<bit>)
    requires n >= 1
    ensures |r| == n
  {
    [if v < 0 then 1 else 0] + UintBits(Abs(v), n - 1)
  }

  function OptionalBits(o: Option<int>, n: nat): (r: seq<bit>)
    requires n >= 1
    ensures |r| == if o.Some? then n else 0
  {
    match o
    case None => []
    case Some(v) => IntBits(v, n)
  }

  datatype Wire = Wire(
    spawn: u16, garbage: u32, y: int, x: int, z: int, heading: int,
    pitch: Option<int>, deltaHeading: Option<int>, animation: Option<int>,
    deltaY: Option<int>, deltaX: Option<int>, deltaZ: Option<int>)

  function Flag(o: Option<int>): bit {
    if o.Some? then 1 else 0
  }

  function MaskOf(w: Wire): nat {
    var b0: int, b1: int, b2: int := Flag(w.pitch), Flag(w.deltaHeading), Flag(w.animation);
    var b3: int, b4: int, b5: int := Flag(w.deltaY), Flag(w.deltaX), Flag(w.deltaZ);
    b0 + 2 * b1 + 4 * b2 + 8 * b3 + 16 * b4 + 32 * b5
  }

  /** The packet's bits, followed by `rest`. */
  function Write(w: Wire, rest: seq<bit>): seq<bit> {
    UintBits(w.spawn, 16) + (UintBits(w.garbage, 32) + (UintBits(MaskOf(w), 6) +
      (IntBits(w.y, 19) + (IntBits(w.x, 19) + (IntBits(w.z, 19) + (IntBits(w.heading, 12) +
        (OptionalBits(w.pitch, 12) + (OptionalBits(w.deltaHeading, 10) + (OptionalBits(w.animation, 10) +
          (OptionalBits(w.deltaY, 13) + (OptionalBits(w.deltaX, 13) + (OptionalBits(w.deltaZ, 13) + rest))))))))))))
  }

  predicate OptionalFits(o: Option<int>, bound: nat) {
    o.Some? ==> InRange(o.value, bound)
  }

  predicate Fits(w: Wire) {
    && InRange(w.y, 0x4_0000) && InRange(w.x, 0x4_0000) && InRange(w.z, 0x4_0000) && InRange(w.heading, 2048)
    && OptionalFits(w.pitch, 2048) && OptionalFits(w.deltaHeading, 512) && OptionalFits(w.animation, 512)
    && OptionalFits(w.deltaY, 4096) && OptionalFits(w.deltaX, 4096) && OptionalFits(w.deltaZ, 4096)
  }

  function OrZero(o: Option<int>): int {
    if o.Some? then o.value else 0
  }

  function FieldsOf(w: Wire): Fields {
    Fields(w.spawn, MaskOf(w), w.y, w.x, w.z, w.heading, OrZero(w.deltaHeading), OrZero(w.animation),
           OrZero(w.deltaY), OrZero(w.deltaX), OrZero(w.deltaZ))
  }

  lemma {:induction false} UintWritten(v: nat, n: nat, rest: seq<bit>)
    requires v < Pow2(n)
    ensures TakeUint(UintBits(v, n) + rest, n) == Read(v, rest)
  {
    UintValue(v, n);
    assert (UintBits(v, n) + rest)[..n] == UintBits(v, n);
    assert (UintBits(v, n) + rest)[n..] == rest;
  }

  lemma {:induction false} IntWritten(v: int, n: nat, rest: seq<bit>)
    requires n >= 1 && InRange(v, Pow2(n - 1))
    ensures TakeInt(IntBits(v, n) + rest, n) == Read(v, rest)
  {
    var sign: bit := if v < 0 then 1 else 0;
    var mag := UintBits(Abs(v), n - 1);
    assert IntBits(v, n) + rest == [sign] + (mag + rest);
    assert UintBits(sign, 1) == [sign];
    assert Pow2(1) == 2;
    UintWritten(sign, 1, mag + rest);
    UintWritten(Abs(v), n - 1, rest);
  }

  lemma {:induction false} OptionalWritten(o: Option<int>, n: nat, rest: seq<bit>)
    requires n >= 1 && OptionalFits(o, Pow2(n - 1))
    ensures TakeOptional(o.Some?, OptionalBits(o, n) + rest, n) == Read(OrZero(o), rest)
  {
    if o.Some? {
      IntWritten(o.value, n, rest);
    } else {
      assert OptionalBits(o, n) + rest == rest;
    }
  }

  lemma MaskBits(w: Wire)
    ensures MaskOf(w) < 64
    ensures MaskBit(MaskOf(w), 0) == w.pitch.Some? && MaskBit(MaskOf(w), 1) == w.deltaHeading.Some?
    ensures MaskBit(MaskOf(w), 2) == w.animation.Some? && MaskBit(MaskOf(w), 3) == w.deltaY.Some?
    ensures MaskBit(MaskOf(w), 4) == w.deltaX.Some? && MaskBit(MaskOf(w), 5) == w.deltaZ.Some?
  {
    Pow2At8();
  }

  /** Reading undoes writing, whatever follows the written bits. */
  lemma FieldsReadBack(w: Wire, rest: seq<bit>)
    requires Fits(w)
    ensures ReadFields(Write(w, rest)) == FieldsOf(w)
  {
    Widths();
    Pow2At32();
    MaskBits(w);
    hide TakeUint, TakeInt, TakeOptional, Pow2, MaskBit, UintBits, IntBits, OptionalBits, MaskOf;
    var r1 := OptionalBits(w.deltaZ, 13) + rest;
    OptionalWritten(w.deltaZ, 13, rest);
    var r2 := OptionalBits(w.deltaX, 13) + r1;
    OptionalWritten(w.deltaX, 13, r1);
    var r3 := OptionalBits(w.deltaY, 13) + r2;
    OptionalWritten(w.deltaY, 13, r2);
    var r4 := OptionalBits(w.animation, 10) + r3;
    OptionalWritten(w.animation, 10, r3);
    var r5 := OptionalBits(w.deltaHeading, 10) + r4;
    OptionalWritten(w.deltaHeading, 10, r4);
    var r6 := OptionalBits(w.pitch, 12) + r5;
    OptionalWritten(w.pitch, 12, r5);
    var r7 := IntBits(w.heading, 12) + r6;
    IntWritten(w.heading, 12, r6);
    var r8 := IntBits(w.z, 19) + r7;
    IntWritten(w.z, 19, r7);
    var r9 := IntBits(w.x, 19) + r8;
    IntWritten(w.x, 19, r8);
    var r10 := IntBits(w.y, 19) + r9;
    IntWritten(w.y, 19, r9);
    var r11 := UintBits(MaskOf(w), 6) + r10;
    UintWritten(MaskOf(w), 6, r10);
    var r12 := UintBits(w.garbage, 32) + r11;
    UintWritten(w.garbage, 32, r11);
    UintWritten(w.spawn, 16, r12);
  }

  // ---- bytes and bits ------------------------------------------------------

  function Pack(bits: seq<bit>): (r: seq<byte>)
    requires |bits| % 8 == 0
    ensures |r| == |bits| / 8
  {
    if bits == [] then []
    else
      var n := |bits| - 8;
      ValueBound(bits[n..]);
      Pow2At8();
      Pack(bits[..n]) + [Value(bits[n..])]
  }

  lemma {:induction false} BitsOfValue(bs: seq<bit>)
    ensures UintBits(Value(bs), |bs|) == bs
  {
    hide *;
    if bs == [] {
      NoBits();
    } else {
      var front, last := bs[..|bs| - 1], bs[|bs| - 1];
      BitsOfValue(front);
      assert bs == front + [last];
      ValuePush(front, last);
      UintPush(Value(front), last, |front|);
    }
  }

  lemma NoBits()
    ensures Value([]) == 0 && UintBits(0, 0) == []
  {
  }

  lemma {:induction false} ValuePush(bs: seq<bit>, b: bit)
    ensures Value(bs + [b]) == 2 * Value(bs) + b
  {
    assert (bs + [b])[..|bs|] == bs;
  }

  lemma UintPush(v: nat, b: bit, n: nat)
    ensures UintBits(2 * v + b, n + 1) == UintBits(v, n) + [b]
  {
  }

  lemma {:induction false} PackBits(bits: seq<bit>)
    requires |bits| % 8 == 0
    ensures Bits(Pack(bits)) == bits
  {
    hide *;
    if bits == [] {
      NothingPacked();
    } else {
      var n := |bits| - 8;
      var v := PackLast(bits);
      PackBits(bits[..n]);
      BitsPush(Pack(bits[..n]), v);
      assert bits == bits[..n] + bits[n..];
    }
  }

  lemma NothingPacked()
    ensures Bits(Pack([])) == []
  {
  }

  /** The last byte packed spells the last eight bits. */
  lemma PackLast(bits: seq<bit>) returns (v: byte)
    requires |bits| % 8 == 0 && bits != []
    ensures Pack(bits) == Pack(bits[..|bits| - 8]) + [v] && ByteBits(v) == bits[|bits| - 8..]
  {
    hide Value, UintBits, Pow2;
    var last := bits[|bits| - 8..];
    ValueBound(last);
    Pow2At8();
    BitsOfValue(last);
    v := Value(last);
  }

  lemma {:induction false} BitsPush(data: seq<byte>, v: byte)
    ensures Bits(data + [v]) == Bits(data) + ByteBits(v)
  {
    hide ByteBits;
    assert (data + [v])[..|data|] == data;
  }

  /** Coordinates in eighths and deltas in quarters, rounded down, the heading as it is, and what was not sent
      as zero with its flag off. */
  predicate Tells(r: NpcMoveUpdate, w: Wire) {
    && r.spawnId == w.spawn && r.x == w.x / 8 && r.y == w.y / 8 && r.z == w.z / 8 && r.heading == w.heading
    && r.hasDeltaX == w.deltaX.Some? && r.deltaX == (if w.deltaX.Some? then w.deltaX.value / 4 else 0)
    && r.hasDeltaY == w.deltaY.Some? && r.deltaY == (if w.deltaY.Some? then w.deltaY.value / 4 else 0)
    && r.hasDeltaZ == w.deltaZ.Some? && r.deltaZ == (if w.deltaZ.Some? then w.deltaZ.value / 4 else 0)
    && r.hasDeltaHeading == w.deltaHeading.Some?
    && r.deltaHeading == (if w.deltaHeading.Some? then w.deltaHeading.value / 4 else 0)
    && r.hasAnimation == w.animation.Some?
    && r.animation == (if w.animation.Some? then w.animation.value / 4 else 0)
  }

  lemma MeaningTells(w: Wire)
    requires Sized(FieldsOf(w))
    ensures Tells(Meaning(FieldsOf(w)), w)
  {
    MaskBits(w);
    hide MaskBit, MaskOf, Sized;
  }

  /** Parsing inverts the writer, up to the fixed-point shifts, for every packet whose bits fit the
      24 bytes, with any padding. */
  lemma ParseInvertsWriter(w: Wire, pad: seq<bit>)
    requires Fits(w) && |Write(w, pad)| % 8 == 0 && 128 <= |Write(w, pad)| <= 192
    ensures var r := ParsePacket(Pack(Write(w, pad))); r.Ok? && Tells(r.value, w)
  {
    hide Tells, Fits, Write;
    PackBits(Write(w, pad));
    FieldsReadBack(w, pad);
    ReadFieldsSized(Write(w, pad));
    MeaningTells(w);
  }

  /** Every set of optional fields fits the 24 bytes except all six together, which need 194 bits. */
  lemma WhichMasksFit(w: Wire)
    ensures |Write(w, [])| <= 192 <==> MaskOf(w) != 63
  {
    hide UintBits, IntBits;
  }

  /** A read either takes its whole width or finds less than its width left. */
  lemma TakeIntShrinks(rest: seq<bit>, n: nat, bound: nat)
    requires |rest| <= bound && 2 <= n && 2 * n - 1 <= bound
    ensures |TakeInt(rest, n).rest| <= bound - n
  {
  }

  lemma TakeIntShort(rest: seq<bit>, n: nat)
    requires |rest| < n
    ensures TakeInt(rest, n).value == 0
  {
  }

  lemma FullDeltas(rest: seq<bit>)
    requires |rest| <= 69
    ensures ReadDeltas(63, rest).deltaZ == 0
  {
    Pow2At8();
    assert MaskBit(63, 0) && MaskBit(63, 1) && MaskBit(63, 2) && MaskBit(63, 3) && MaskBit(63, 4) && MaskBit(63, 5);
    hide TakeInt, Pow2, MaskBit;
    var pitch := TakeInt(rest, 12);
    TakeIntShrinks(rest, 12, 69);
    var deltaHeading := TakeInt(pitch.rest, 10);
    TakeIntShrinks(pitch.rest, 10, 57);
    var animation := TakeInt(deltaHeading.rest, 10);
    TakeIntShrinks(deltaHeading.rest, 10, 47);
    var deltaY := TakeInt(animation.rest, 13);
    TakeIntShrinks(animation.rest, 13, 37);
    var deltaX := TakeInt(deltaY.rest, 13);
    TakeIntShrinks(deltaY.rest, 13, 25);
    TakeIntShort(deltaX.rest, 13);
  }

  /** So with all six fields flagged the last one is always read as zero. */
  lemma FullMaskReadsNoDeltaZ(bits: seq<bit>)
    requires |bits| <= 192
    ensures ReadFields(bits).mask == 63 ==> ReadFields(bits).deltaZ == 0
  {
    var garbage := TakeUint(TakeUint(bits, 16).rest, 32);
    var mask := TakeUint(garbage.rest, 6);
    assert |mask.rest| <= 138;
    hide TakeUint, TakeInt, Value, ReadDeltas;
    var y := TakeInt(mask.rest, 19);
    TakeIntShrinks(mask.rest, 19, 138);
    var x := TakeInt(y.rest, 19);
    TakeIntShrinks(y.rest, 19, 119);
    var z := TakeInt(x.rest, 19);
    TakeIntShrinks(x.rest, 19, 100);
    var heading := TakeInt(z.rest, 12);
    TakeIntShrinks(z.rest, 12, 81);
    FullDeltas(heading.rest);
  }
}
