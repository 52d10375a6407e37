/** Types and sequence facts that the other modules share: fixed-width integers as
    subset types, little-endian reads, and the first position satisfying a test. */
module Prelude {

  datatype Option<+T> = None | Some(value: T)

  datatype Result<+T, +E> = Ok(value: T) | Err(error: E) {
    predicate IsFailure() {
      Err?
    }

    function PropagateFailure<U>(): Result<U, E>
      requires Err?
    {
      Err(error)
    }

    function Extract(): T
      requires Ok?
    {
      value
    }
  }

  type byte = x: int | 0 <= x < 0x100
  type u16 = x: int | 0 <= x < 0x1_0000
  type u32 = x: int | 0 <= x < 0x1_0000_0000
  type u64 = x: int | 0 <= x < 0x1_0000_0000_0000_0000
  type i8 = x: int | -0x80 <= x < 0x80
  type i16 = x: int | -0x8000 <= x < 0x8000
  type i32 = x: int | -0x8000_0000 <= x < 0x8000_0000

  /** A value read at some position, and where the next thing starts. */
  datatype At<T> = At(value: T, next: nat)

  const U32_MAX: u32 := 0xFFFF_FFFF

  function Min(a: int, b: int): int {
    if a <= b then a else b
  }

  /** `u32::abs_diff`. */
  function AbsDiff(a: u32, b: u32): u32 {
    if a <= b then b - a else a - b
  }

  // ---- powers of two and division -----------------------------------------

  function Pow2(n: nat): (r: nat)
    ensures r > 0
  {
    if n == 0 then 1 else 2 * Pow2(n - 1)
  }

  lemma {:induction false} Pow2Add(m: nat, n: nat)
    ensures Pow2(m + n) == Pow2(m) * Pow2(n)
  {
    if n == 0 {
    } else {
      Pow2Add(m, n - 1);
    }
  }

  lemma {:induction false} TimesGrows(a: nat, b: nat, d: nat)
    requires a < b
    ensures a * d + d <= b * d
  {
    assert b * d == (b - 1) * d + d;
    if a + 1 < b {
      TimesGrows(a, b - 1, d);
    }
  }

  lemma SameQuotient(q: nat, r: nat, q': nat, r': nat, d: nat)
    requires r < d && r' < d && q * d + r == q' * d + r'
    ensures q == q' && r == r'
  {
    if q < q' {
      TimesGrows(q, q', d);
    } else if q' < q {
      TimesGrows(q', q, d);
    }
  }

  /** Division with remainder is unique. */
  lemma DivMod(q: nat, r: nat, d: nat)
    requires r < d
    ensures (q * d + r) / d == q && (q * d + r) % d == r
  {
    var x := q * d + r;
    SameQuotient(x / d, x % d, q, r, d);
  }

  // ---- little-endian words -------------------------------------------------

  function U16At(b: seq<byte>, p: nat): u16
    requires p + 2 <= |b|
  {
    var b0: int, b1: int := b[p], b[p + 1];
    b0 + 0x100 * b1
  }

  function U32At(b: seq<byte>, p: nat): u32
    requires p + 4 <= |b|
  {
    var b0: int, b1: int, b2: int, b3: int := b[p], b[p + 1], b[p + 2], b[p + 3];
    b0 + 0x100 * b1 + 0x1_0000 * b2 + 0x100_0000 * b3
  }

  function U16Bytes(v: u16): (r: seq<byte>)
    ensures |r| == 2 && U16At(r, 0) == v
  {
    [v % 0x100, v / 0x100]
  }

  function U32Bytes(v: u32): (r: seq<byte>)
    ensures |r| == 4 && U32At(r, 0) == v
  {
    var v1 := v / 0x100;
    var v2 := v1 / 0x100;
    [v % 0x100, v1 % 0x100, v2 % 0x100, v2 / 0x100]
  }

  /** `x` lies in `b` at position `p`. */
  ghost predicate Lies(b: seq<byte>, p: nat, x: seq<byte>) {
    p + |x| <= |b| && b[p..p + |x|] == x
  }

  lemma LiesSplit(b: seq<byte>, p: nat, x: seq<byte>, y: seq<byte>)
    ensures Lies(b, p, x + y) <==> Lies(b, p, x) && Lies(b, p + |x|, y)
  {
    if p + |x| + |y| <= |b| {
      assert b[p..p + |x + y|] == b[p..p + |x|] + b[p + |x|..p + |x| + |y|];
      if b[p..p + |x + y|] == x + y {
        assert b[p..p + |x|] == (x + y)[..|x|] && b[p + |x|..p + |x| + |y|] == (x + y)[|x|..];
      }
    }
  }

  lemma LiesInside(b: seq<byte>, p: nat, x: seq<byte>)
    requires Lies(b, p, x)
    ensures p + |x| <= |b|
  {
  }

  lemma LiesWhole(b: seq<byte>, x: seq<byte>)
    ensures b == x <==> Lies(b, 0, x) && |b| == |x|
  {
    assert b[0..|b|] == b;
  }

  lemma LiesExtends(b: seq<byte>, t: seq<byte>, p: nat, x: seq<byte>)
    requires Lies(b, p, x)
    ensures Lies(b + t, p, x)
  {
    assert (b + t)[p..p + |x|] == b[p..p + |x|];
  }

  lemma LiesU32(b: seq<byte>, p: nat, v: u32)
    ensures Lies(b, p, U32Bytes(v)) <==> p + 4 <= |b| && U32At(b, p) == v
  {
    if p + 4 <= |b| {
      var s := b[p..p + 4];
      assert s[0] == b[p] && s[1] == b[p + 1] && s[2] == b[p + 2] && s[3] == b[p + 3];
      assert U32At(s, 0) == U32At(b, p);
      U32Inverse(s);
    }
  }

  lemma U32Inverse(s: seq<byte>)
    requires |s| == 4
    ensures U32Bytes(U32At(s, 0)) == s
  {
    var a: int, b: int, c: int, d: int := s[0], s[1], s[2], s[3];
    var v := a + 0x100 * b + 0x1_0000 * c + 0x100_0000 * d;
    assert v / 0x100 == b + 0x100 * c + 0x1_0000 * d;
    assert v / 0x100 / 0x100 == c + 0x100 * d;
  }

  lemma LiesU16(b: seq<byte>, p: nat, v: u16)
    ensures Lies(b, p, U16Bytes(v)) <==> p + 2 <= |b| && U16At(b, p) == v
  {
    if p + 2 <= |b| {
      var s := b[p..p + 2];
      assert s[0] == b[p] && s[1] == b[p + 1];
      assert U16Bytes(U16At(s, 0)) == s;
    }
  }

  /** Reinterpret a 32-bit word as a signed integer (`as i32`). */
  function AsI32(v: u32): i32 {
    if v < 0x8000_0000 then v else v - 0x1_0000_0000
  }

  /** Reinterpret a 16-bit word as a signed integer (`as i16`). */
  function AsI16(v: u16): i16 {
    if v < 0x8000 then v else v - 0x1_0000
  }

  /** Reinterpret a byte as a signed integer (`as i8`). */
  function AsI8(v: byte): i8 {
    if v < 0x80 then v else v - 0x100
  }

  lemma AsI16Fits(v: int)
    requires -0x8000 <= v < 0x8000
    ensures AsI16(v % 0x1_0000) == v
  {
  }

  lemma ModSmall(v: nat, m: nat)
    requires v < m
    ensures v % m == v
  {
    DivMod(0, v, m);
  }

  lemma ProductNat(a: nat, b: nat)
    ensures 0 <= a * b
  {
    if a == 0 {
    } else {
      TimesGrows(0, a, b);
    }
  }

  // ---- sequences -----------------------------------------------------------

  predicate OccursAt<T(==)>(s: seq<T>, pat: seq<T>, i: nat) {
    i + |pat| <= |s| && s[i..i + |pat|] == pat
  }

  function RemoveAt<T>(s: seq<T>, i: nat): seq<T>
    requires i < |s|
  {
    s[..i] + s[i + 1..]
  }

  /** Position of the first `x` at or after `from`. */
  function IndexFrom<T(==)>(s: seq<T>, x: T, from: nat): (r: Option<nat>)
    requires from <= |s|
    ensures r.Some? ==> from <= r.value < |s| && s[r.value] == x && x !in s[from..r.value]
    ensures r.None? ==> x !in s[from..]
    decreases |s| - from
  {
    if from == |s| then None
    else if s[from] == x then Some(from)
    else IndexFrom(s, x, from + 1)
  }

  function IndexOf<T(==)>(s: seq<T>, x: T): (r: Option<nat>)
    ensures r.Some? ==> r.value < |s| && s[r.value] == x && forall j :: 0 <= j < r.value ==> s[j] != x
    ensures r.None? ==> x !in s
  {
    var r := IndexFrom(s, x, 0);
    assert r.Some? ==> forall j :: 0 <= j < r.value ==> s[j] == s[0..r.value][j];
    r
  }

  /** A position that satisfies the definition of `IndexOf` is its result. */
  lemma IndexOfIs<T>(s: seq<T>, x: T, i: nat)
    requires i < |s| && s[i] == x && forall j :: 0 <= j < i ==> s[j] != x
    ensures IndexOf(s, x) == Some(i)
  {
  }

  lemma {:induction false} IndexFromIs<T>(s: seq<T>, x: T, from: nat, i: nat)
    requires from <= i < |s| && s[i] == x && x !in s[from..i]
    ensures IndexFrom(s, x, from) == Some(i)
    decreases i - from
  {
    if from == i {
    } else {
      assert s[from] in s[from..i];
      assert s[from..i][1..] == s[from + 1..i];
      IndexFromIs(s, x, from + 1, i);
    }
  }

  lemma SliceLast<T>(s: seq<T>, from: nat, end: nat)
    requires from < end <= |s|
    ensures s[from..end] == s[from..end - 1] + [s[end - 1]]
  {
  }

  lemma ConcatAssoc<T>(a: seq<T>, b: seq<T>, c: seq<T>)
    ensures a + b + c == a + (b + c)
  {
  }
}
