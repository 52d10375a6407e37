/** Packed signed coordinates (`seq-backend-eql/src/eqstructs.rs`, `bindings.rs`, `mob_update.rs`,
    `player_spawn_pos.rs`, and `pos19_word` in `lib.rs`).

    A mask of the low n bits is a remainder by 2^n, a right shift by n a division by 2^n. */
module PackedPosition {
  import opened Prelude

  lemma Pow2Values()
    ensures Pow2(3) == 8 && Pow2(4) == 16 && Pow2(7) == 128 && Pow2(8) == 0x100 && Pow2(12) == 0x1000
    ensures Pow2(16) == 0x1_0000 && Pow2(18) == 0x4_0000 && Pow2(19) == 0x8_0000 && Pow2(32) == 0x1_0000_0000
  {
    assert Pow2(8) == 16 * Pow2(4);
    Pow2Add(4, 8);
    Pow2Add(8, 8);
    Pow2Add(16, 2);
    Pow2Add(16, 3);
    Pow2Add(16, 16);
  }

  // ---- sign extension ------------------------------------------------------

  /** The signed value of the low bits, the ones below `n`, of which `half` is the topmost. */
  function LowSigned(v: nat, n: nat, half: nat): int
    requires n > 0
  {
    var w := v % n;
    if w < half then w else w - n
  }

  function Signed(v: nat, bits: nat): int
    requires 1 <= bits
  {
    LowSigned(v, Pow2(bits), Pow2(bits - 1))
  }

  /** A left shift that drops what leaves the word, and an arithmetic right shift. */
  function ShiftBack(v: u32, d: nat): i32
    requires d > 0
  {
    var shifted := AsI32(v * d % 0x1_0000_0000);
    QuotientFits(shifted, d);
    shifted / d
  }

  /** `sign_extend`: shift the field to the top of the word and arithmetically back. */
  function SignExtend(v: u32, bits: nat): i32
    requires 1 <= bits <= 32
  {
    ShiftBack(v, Pow2(32 - bits))
  }

  lemma QuotientFits(v: i32, d: nat)
    requires d > 0
    ensures -0x8000_0000 <= v / d < 0x8000_0000
  {
    var q, r := v / d, v % d;
    assert v == d * q + r;
    if q >= 1 {
      assert d * q >= q by { Scaled(d, q); }
    } else if q <= -1 {
      assert d * (-q - 1) >= -q - 1 by { Scaled(d, -q - 1); }
      assert d * (-q - 1) == -(d * q) - d;
    }
  }

  lemma Scaled(d: nat, q: nat)
    requires d > 0
    ensures d * q >= q
  {
    assert d * q == (d - 1) * q + q;
  }

  /** For every width, what sign extension gives is the signed value of the low bits, whatever lies
      above them. */
  lemma SignExtendIs(v: u32, bits: nat)
    requires 1 <= bits <= 32
    ensures SignExtend(v, bits) == Signed(v, bits)
  {
    hide LowSigned, ShiftBack, Pow2;
    WordSplits(bits);
    ShiftedBack(v, Pow2(bits), Pow2(32 - bits), Pow2(bits - 1));
  }

  lemma WordSplits(bits: nat)
    requires 1 <= bits <= 32
    ensures Pow2(bits) * Pow2(32 - bits) == 0x1_0000_0000 && Pow2(bits) == 2 * Pow2(bits - 1)
  {
    Pow2Values();
    Pow2Add(bits, 32 - bits);
  }

  lemma ShiftedBack(v: u32, n: nat, d: nat, half: nat)
    requires n * d == 0x1_0000_0000 && n == 2 * half && d > 0
    ensures ShiftBack(v, d) == LowSigned(v, n, half)
  {
    var w: nat, hi: nat := v % n, v / n;
    assert v == n * hi + w;
    TopOfWord(v, w, hi, n, d);
    HalfScaled(n, half, d);
    if w < half {
      Below(w, half, d);
      ExactQuotient(w, d);
    } else {
      Scales(half, w, d);
      Difference(w, n, d);
      ExactQuotient(w - n, d);
    }
  }

  lemma HalfScaled(n: nat, half: nat, d: nat)
    requires n * d == 0x1_0000_0000 && n == 2 * half
    ensures half * d == 0x8000_0000
  {
    assert n * d == 2 * (half * d);
  }

  lemma Scales(a: nat, b: nat, d: nat)
    requires a <= b
    ensures a * d <= b * d
  {
    assert b * d == a * d + (b - a) * d;
  }

  lemma Difference(a: int, b: int, d: int)
    ensures a * d - b * d == (a - b) * d
  {
  }

  lemma TopOfWord(v: nat, w: nat, hi: nat, n: nat, d: nat)
    requires n * d == 0x1_0000_0000 && v == n * hi + w && w < n && d > 0
    ensures v * d % 0x1_0000_0000 == w * d
  {
    assert v * d == hi * (n * d) + w * d;
    Below(w, n, d);
    DivMod(hi, w * d, n * d);
  }

  lemma Below(a: nat, b: nat, d: nat)
    requires a < b && d > 0
    ensures a * d < b * d
  {
    assert b * d == a * d + (b - a) * d;
    Scaled(d, b - a);
  }

  lemma ExactQuotient(q: int, d: nat)
    requires d > 0
    ensures q * d / d == q
  {
    var k := q * d / d - q;
    assert d * k == -(q * d % d) by {
      assert q * d == d * (q * d / d) + q * d % d;
    }
  }

  /** `pos19_word`: mask, subtract 2^19 when the sign bit is set, shift, narrow to i16. */
  function Pos19Word(w: u32): i16 {
    var v := w % 0x8_0000;
    var raw := if v / 0x4_0000 % 2 != 0 then v - 0x8_0000 else v;
    AsI16(raw / 8 % 0x1_0000)
  }

  lemma Pos19Is(w: u32)
    ensures Pos19Word(w) == LowSigned(w, 0x8_0000, 0x4_0000) / 8
  {
    var v := w % 0x8_0000;
    SignBit(v);
    AsI16Fits(LowSigned(w, 0x8_0000, 0x4_0000) / 8);
    hide AsI16;
  }

  lemma SignBit(v: nat)
    requires v < 0x8_0000
    ensures v / 0x4_0000 % 2 != 0 <==> v >= 0x4_0000
  {
  }

  lemma SignExtend19(w: u32)
    ensures SignExtend(w, 19) == LowSigned(w, 0x8_0000, 0x4_0000)
  {
    hide LowSigned, Pow2, SignExtend;
    Pow2Values();
    SignExtendIs(w, 19);
  }

  lemma LowBitsOnly(w: nat)
    ensures LowSigned(w % 0x8_0000, 0x8_0000, 0x4_0000) == LowSigned(w, 0x8_0000, 0x4_0000)
  {
    ModSmall(w % 0x8_0000, 0x8_0000);
  }

  /** The two ways of reading a coordinate are one: the word reader gives the sign-extended low 19
      bits in eighths, which always fit an i16, so its cast loses nothing. */
  lemma ReadersAgree(w: u32)
    ensures Pos19Word(w) == SignExtend(w % 0x8_0000, 19) / 8 == SignExtend(w, 19) / 8
  {
    hide *;
    Pos19Is(w);
    SignExtend19(w);
    SignExtend19(w % 0x8_0000);
    LowBitsOnly(w);
  }

  /** A coordinate in eighths, with any bits above it, reads back, for every i16. */
  lemma EighthsReadBack(c: i16, above: nat)
    requires c * 8 % 0x8_0000 + above * 0x8_0000 < 0x1_0000_0000
    ensures Pos19Word(c * 8 % 0x8_0000 + above * 0x8_0000) == c
  {
    hide *;
    var f := c * 8 % 0x8_0000;
    EighthsBits(c);
    Pos19Is(f + above * 0x8_0000);
    FieldBelow(f, above);
  }

  /** The low 19 bits of a coordinate in eighths, in two's complement. */
  lemma EighthsBits(c: i16)
    ensures var f := c * 8 % 0x8_0000;
            f == (if c >= 0 then c * 8 else c * 8 + 0x8_0000) && (if f < 0x4_0000 then f else f - 0x8_0000) / 8 == c
  {
  }

  lemma FieldBelow(f: nat, above: nat)
    requires f < 0x8_0000
    ensures LowSigned(f + above * 0x8_0000, 0x8_0000, 0x4_0000) == if f < 0x4_0000 then f else f - 0x8_0000
  {
    DivMod(above, f, 0x8_0000);
  }

  // ---- fields of a 64-bit word ---------------------------------------------

  /** `u64::from_le_bytes`. */
  function U64At(b: seq<byte>, p: nat): u64
    requires p + 8 <= |b|
  {
    var lo: int, hi: int := U32At(b, p), U32At(b, p + 4);
    lo + 0x1_0000_0000 * hi
  }

  /** `n` bits of a word from bit `k` up. */
  function Bits(w: nat, k: nat, n: nat): nat {
    w / Pow2(k) % Pow2(n)
  }

  /** A field put at bit `k`, with `below` under it and `above` over it, is what `Bits` reads. */
  lemma {:induction false} FieldAlone(below: nat, field: nat, above: nat, k: nat, n: nat)
    requires below < Pow2(k) && field < Pow2(n)
    ensures Bits(below + (field + above * Pow2(n)) * Pow2(k), k, n) == field
  {
    DivMod(field + above * Pow2(n), below, Pow2(k));
    DivMod(above, field, Pow2(n));
  }

  lemma Pow2More()
    ensures Pow2(0) == 1 && Pow2(7) == 128 && Pow2(10) == 0x400 && Pow2(19) == 0x8_0000 && Pow2(38) == 0x40_0000_0000
    ensures Pow2(44) == 0x1000_0000_0000 && Pow2(45) == 0x2000_0000_0000
  {
    Pow2Values();
    assert Pow2(0) == 1 && Pow2(10) == 4 * Pow2(8);
    Pow2Add(19, 19);
    Pow2Add(32, 12);
    assert Pow2(45) == 2 * Pow2(44);
  }

  /** A 19-bit field of `w` above `below`, which lies under 2^k. */
  lemma {:induction false} FieldHere(w: nat, below: nat, field: nat, above: nat, k: nat, d: nat)
    requires Pow2(k) == d && below < d && field < 0x8_0000 && w == below + (field + above * 0x8_0000) * d
    ensures Bits(w, k, 19) == field
  {
    hide Pow2;
    Pow2More();
    FieldAlone(below, field, above, k, 19);
  }

  /** The 19 bits that hold a signed coordinate. */
  function Coord(c: int): (r: nat)
    requires -0x4_0000 <= c < 0x4_0000
    ensures r < 0x8_0000
  {
    c % 0x8_0000
  }

  lemma CoordReads(c: int)
    requires -0x4_0000 <= c < 0x4_0000
    ensures SignExtend(Coord(c), 19) == c
  {
    Pow2Values();
    SignExtendIs(Coord(c), 19);
    assert Coord(c) == if c >= 0 then c else c + 0x8_0000;
  }

  // ---- the mob update ------------------------------------------------------

  datatype MobUpdate = MobUpdate(spawnId: u16, x: i32, y: i32, z: i32, heading: u16)

  datatype BadLength = BadLength(n: nat)

  function HeadingOf(hi16: u16): u16 {
    hi16 / 16 % 0x1000
  }

  function ParseMobUpdate(b: seq<byte>): Result<MobUpdate, BadLength> {
    if |b| != 18 then Err(BadLength(|b|)) else
    var lo64 := U64At(b, 8);
    Pow2Values();
    Ok(MobUpdate(U16At(b, 0), SignExtend(Bits(lo64, 45, 19), 19) / 8, SignExtend(Bits(lo64, 0, 19), 19) / 8,
                 SignExtend(Bits(lo64, 19, 19), 19) / 8, HeadingOf(U16At(b, 16))))
  }

  /** The packed word: y, z, a 7-bit gap and x, each above the other. */
  function MobWord(y: int, z: int, gap: nat, x: int): nat
    requires -0x4_0000 <= y < 0x4_0000 && -0x4_0000 <= z < 0x4_0000 && -0x4_0000 <= x < 0x4_0000 && gap < 128
  {
    Coord(y) + (Coord(z) + (gap + Coord(x) * 128) * 0x8_0000) * 0x8_0000
  }

  lemma MobFields(y: int, z: int, gap: nat, x: int)
    requires -0x4_0000 <= y < 0x4_0000 && -0x4_0000 <= z < 0x4_0000 && -0x4_0000 <= x < 0x4_0000 && gap < 128
    ensures var w := MobWord(y, z, gap, x);
            && w < 0x1_0000_0000_0000_0000
            && Bits(w, 0, 19) == Coord(y) && Bits(w, 19, 19) == Coord(z)
            && Bits(w, 38, 7) == gap && Bits(w, 45, 19) == Coord(x)
  {
    hide Pow2, Bits, Coord;
    Pow2More();
    var w := MobWord(y, z, gap, x);
    var cx, cy, cz := Coord(x), Coord(y), Coord(z);
    FieldHere(w, 0, cy, cz + (gap + cx * 128) * 0x8_0000, 0, 1);
    FieldHere(w, cy, cz, gap + cx * 128, 19, 0x8_0000);
    FieldHere(w, cy + cz * 0x8_0000 + gap * 0x40_0000_0000, cx, 0, 45, 0x2000_0000_0000);
    GapHere(w, cy + cz * 0x8_0000, gap, cx);
  }

  lemma GapHere(w: nat, below: nat, gap: nat, above: nat)
    requires below < 0x40_0000_0000 && gap < 128 && w == below + (gap + above * 128) * 0x40_0000_0000
    ensures Bits(w, 38, 7) == gap
  {
    hide Pow2;
    Pow2More();
    DivMod(gap + above * 128, below, 0x40_0000_0000);
    DivMod(above, gap, 128);
  }

  /** Every coordinate comes back in eighths, whatever the other fields and the gap hold; and the
      heading is the upper twelve bits of its word. */
  lemma MobReadsBack(b: seq<byte>, y: int, z: int, gap: nat, x: int, heading: nat, low: nat)
    requires |b| == 18
    requires -0x4_0000 <= y < 0x4_0000 && -0x4_0000 <= z < 0x4_0000 && -0x4_0000 <= x < 0x4_0000 && gap < 128
    requires heading < 0x1000 && low < 16
    requires U64At(b, 8) == MobWord(y, z, gap, x) && U16At(b, 16) == low + 16 * heading
    ensures ParseMobUpdate(b) == Ok(MobUpdate(U16At(b, 0), x / 8, y / 8, z / 8, heading))
  {
    hide *;
    MobFields(y, z, gap, x);
    CoordReads(x);
    CoordReads(y);
    CoordReads(z);
    HeadingReads(heading, low);
    MobUnfolds(b);
  }

  lemma HeadingReads(heading: nat, low: nat)
    requires heading < 0x1000 && low < 16
    ensures HeadingOf(low + 16 * heading) == heading
  {
  }

  lemma MobUnfolds(b: seq<byte>)
    requires |b| == 18
    ensures var lo64 := U64At(b, 8);
            Bits(lo64, 45, 19) < 0x8_0000 && Bits(lo64, 0, 19) < 0x8_0000 && Bits(lo64, 19, 19) < 0x8_0000
    ensures var lo64 := U64At(b, 8);
            ParseMobUpdate(b)
            == Ok(MobUpdate(U16At(b, 0), SignExtend(Bits(lo64, 45, 19), 19) / 8, SignExtend(Bits(lo64, 0, 19), 19) / 8,
                            SignExtend(Bits(lo64, 19, 19), 19) / 8, HeadingOf(U16At(b, 16))))
  {
    hide U64At, U16At, SignExtend, HeadingOf;
    Pow2Values();
  }

  /** The accessor meant for the four spare bits: a signed nibble from bit 12. */
  function Unused2(hi16: u16): int {
    var v := hi16 / 0x1000 % 16;
    if v / 8 % 2 != 0 then v - 16 else v
  }

  /** It reads the top of the heading instead: it never depends on the spare bits, and two headings
      that differ there give different answers. */
  lemma Unused2ReadsHeading(heading: nat, low: nat)
    requires heading < 0x1000 && low < 16
    ensures HeadingOf(low + 16 * heading) == heading
    ensures Unused2(low + 16 * heading) == if heading < 0x800 then heading / 0x100 else heading / 0x100 - 16
  {
  }

  /** It is right, the signed spare nibble, exactly where the spare bits repeat the top of the heading. */
  lemma Unused2RightWhen(heading: nat, low: nat)
    requires heading < 0x1000 && low < 16
    ensures Unused2(low + 16 * heading) == (if low < 8 then low else low - 16) <==> low == heading / 0x100
  {
    Unused2ReadsHeading(heading, low);
    hide Unused2;
  }

  // ---- the player position -------------------------------------------------

  datatype PlayerSpawnPos = PlayerSpawnPos(spawnId: u16, spawnId2: u16, x: i32, y: i32, z: i32, heading: u16)

  /** Coordinates raw, not in eighths; the fields the wire does not carry are left out. */
  function ParsePlayerSpawnPos(b: seq<byte>): Result<PlayerSpawnPos, BadLength> {
    if |b| != 28 then Err(BadLength(|b|)) else
    var hi := U64At(b, 16);
    Pow2Values();
    Ok(PlayerSpawnPos(U16At(b, 0), U16At(b, 2), SignExtend(Bits(U64At(b, 8), 10, 19), 19),
                      SignExtend(Bits(hi, 44, 19), 19), SignExtend(Bits(hi, 0, 19), 19), hi / 0x1_0000_0000 % 0x800))
  }

  /** The unaligned coordinates and the 11-bit heading come back from any surrounding bits. */
  lemma PlayerReadsBack(b: seq<byte>, x: int, y: int, z: int, heading: nat,
                        below: nat, above: nat, gap: nat, spare: nat, top: nat)
    requires |b| == 28 && below < 0x400 && gap < 0x2000 && heading < 0x800 && spare < 2
    requires -0x4_0000 <= y < 0x4_0000 && -0x4_0000 <= z < 0x4_0000 && -0x4_0000 <= x < 0x4_0000
    requires U64At(b, 8) == below + (Coord(x) + above * 0x8_0000) * 0x400
    requires U64At(b, 16)
             == Coord(z) + (gap + (heading + (spare + (Coord(y) + top * 0x8_0000) * 2) * 0x800) * 0x2000) * 0x8_0000
    ensures ParsePlayerSpawnPos(b) == Ok(PlayerSpawnPos(U16At(b, 0), U16At(b, 2), x, y, z, heading))
  {
    PlayerFields(Coord(x), Coord(y), Coord(z), heading, below, above, gap, spare, top);
    CoordReads(x);
    CoordReads(y);
    CoordReads(z);
    hide U64At, U16At, Bits, SignExtend, Coord, Pow2;
  }

  lemma PlayerFields(x: nat, y: nat, z: nat, heading: nat, below: nat, above: nat, gap: nat, spare: nat, top: nat)
    requires below < 0x400 && gap < 0x2000 && heading < 0x800 && spare < 2
    requires x < 0x8_0000 && y < 0x8_0000 && z < 0x8_0000
    ensures Bits(below + (x + above * 0x8_0000) * 0x400, 10, 19) == x
    ensures var hi := z + (gap + (heading + (spare + (y + top * 0x8_0000) * 2) * 0x800) * 0x2000) * 0x8_0000;
            && Bits(hi, 0, 19) == z && Bits(hi, 44, 19) == y && hi / 0x1_0000_0000 % 0x800 == heading
  {
    hide Pow2, Bits;
    Pow2More();
    FieldHere(below + (x + above * 0x8_0000) * 0x400, below, x, above, 10, 0x400);
    var r1 := spare + (y + top * 0x8_0000) * 2;
    var r2 := gap + (heading + r1 * 0x800) * 0x2000;
    var hi := z + r2 * 0x8_0000;
    FieldHere(hi, 0, z, r2, 0, 1);
    FieldHere(hi, z + gap * 0x8_0000 + heading * 0x1_0000_0000 + spare * 0x800_0000_0000, y, top, 44,
              0x1000_0000_0000);
    HeadingHere(hi, z + gap * 0x8_0000, heading, r1);
  }

  lemma HeadingHere(hi: nat, below: nat, heading: nat, above: nat)
    requires below < 0x1_0000_0000 && heading < 0x800 && hi == below + (heading + above * 0x800) * 0x1_0000_0000
    ensures hi / 0x1_0000_0000 % 0x800 == heading
  {
    DivMod(heading + above * 0x800, below, 0x1_0000_0000);
    DivMod(above, heading, 0x800);
  }
}
