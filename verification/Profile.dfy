/** The player profile (`seq-backend-eql/src/lib.rs`): the scan for the name block, and the walk over
    the counted sections to the alternate-advancement table and the skills. */
module Profile {
  import opened Prelude

  // ---- the name block ------------------------------------------------------

  predicate IsUppercase(c: byte) {
    0x41 <= c <= 0x5a
  }

  predicate IsPrintable(c: byte) {
    0x20 <= c <= 0x7e
  }

  /** A capital letter, printable characters after it, and a NUL inside the buffer. */
  ghost predicate IsNameBuffer(nb: seq<byte>) {
    && 0 < |nb| && IsUppercase(nb[0])
    && exists k :: 0 < k < |nb| && TerminatedAt(nb, k)
  }

  predicate TerminatedAt(nb: seq<byte>, k: nat)
    requires k < |nb|
  {
    nb[k] == 0 && forall j :: 0 <= j < k ==> IsPrintable(nb[j])
  }

  /** The signature: the two length words and a name between them. */
  ghost predicate NameBlockAt(b: seq<byte>, p: nat) {
    && p + 104 <= |b|
    && U32At(b, p) == 64 && U32At(b, p + 68) == 32
    && IsNameBuffer(b[p + 4..p + 68])
  }

  method SpellsName(nb: seq<byte>) returns (ok: bool)
    requires 0 < |nb| && IsUppercase(nb[0])
    ensures ok <==> IsNameBuffer(nb)
  {
    for i := 0 to |nb|
      invariant forall j :: 0 <= j < i ==> IsPrintable(nb[j])
    {
      if nb[i] == 0 {
        assert TerminatedAt(nb, i);
        return true;
      }
      if !IsPrintable(nb[i]) {
        return false;
      }
    }
    return false;
  }

  /** The least offset that carries the signature, and none only when there is none. */
  method FindProfileNameBlock(b: seq<byte>) returns (r: Option<nat>)
    ensures r.Some? ==> NameBlockAt(b, r.value) && forall q: nat :: q < r.value ==> !NameBlockAt(b, q)
    ensures r.None? ==> forall q: nat :: !NameBlockAt(b, q)
  {
    if |b| < 104 {
      return None;
    }
    for p := 0 to |b| - 104 + 1
      invariant forall q: nat :: q < p ==> !NameBlockAt(b, q)
    {
      hide IsNameBuffer;
      if b[p] != 0x40 || b[p + 1] != 0 || b[p + 2] != 0 || b[p + 3] != 0 {
        continue;
      }
      if b[p + 68] != 0x20 || b[p + 69] != 0 || b[p + 70] != 0 || b[p + 71] != 0 {
        continue;
      }
      var nb := b[p + 4..p + 68];
      if !IsUppercase(nb[0]) {
        NeedsCapital(nb);
        continue;
      }
      var ok := SpellsName(nb);
      if ok {
        return Some(p);
      }
    }
    return None;
  }

  lemma NeedsCapital(nb: seq<byte>)
    requires 0 < |nb| && !IsUppercase(nb[0])
    ensures !IsNameBuffer(nb)
  {
  }

  /** A name block written anywhere carries the signature exactly when its buffer spells a name. */
  lemma WrittenBlockIsFound(before: seq<byte>, nb: seq<byte>, last: seq<byte>, after: seq<byte>)
    requires |nb| == 64 && |last| == 32
    ensures NameBlockAt(before + (U32Bytes(64) + (nb + (U32Bytes(32) + (last + after)))), |before|)
            <==> IsNameBuffer(nb)
  {
    hide IsNameBuffer, U32At, U32Bytes;
    var inner := U32Bytes(32) + (last + after);
    var b := before + (U32Bytes(64) + (nb + inner));
    assert b[|before|..|before| + 4] == U32Bytes(64);
    LiesU32(b, |before|, 64);
    assert b[|before| + 68..|before| + 72] == U32Bytes(32);
    LiesU32(b, |before| + 68, 32);
    assert b[|before| + 4..|before| + 68] == nb;
  }

  // ---- the wire format -----------------------------------------------------

  /** A section: a count and that many entries of a width, or a fixed number of bytes. */
  datatype Shape = Counted(width: nat) | Fixed(size: nat)

  datatype Section = Section(count: u32, body: seq<byte>)

  /** One alternate-advancement ability; the third word is read by nobody. */
  datatype Aa = Aa(id: u32, value: u32, unknown: u32)

  datatype Wire = Wire(header: seq<byte>, sections: seq<Section>, aas: seq<Aa>, skills: seq<u32>, rest: seq<byte>)

  /** Everything between the identity header and the ability table: bind points, deity and
      intoxication, spell refresh, equipment, three unnamed tables, the face, the stats, padding. */
  const SECTIONS: seq<Shape> :=
    [Counted(20), Fixed(4), Fixed(4), Counted(4), Counted(20), Counted(20), Counted(4), Counted(4),
     Fixed(51), Fixed(40), Fixed(28)]

  const WALK_START := 35
  const MAX_KNOWN_SKILLS := 100

  predicate SectionOk(x: Section, s: Shape) {
    match s
    case Counted(w) => |x.body| == x.count * w
    case Fixed(n) => x.count == 0 && |x.body| == n
  }

  function SectionBytes(x: Section, s: Shape): seq<byte> {
    (if s.Counted? then U32Bytes(x.count) else []) + x.body
  }

  predicate SectionsOk(xs: seq<Section>, ss: seq<Shape>): (r: bool)
    ensures r ==> |xs| == |ss|
  {
    |xs| == |ss| && (ss != [] ==> SectionOk(xs[0], ss[0]) && SectionsOk(xs[1..], ss[1..]))
  }

  function SectionsBytes(xs: seq<Section>, ss: seq<Shape>): seq<byte>
    requires |xs| == |ss|
  {
    if ss == [] then [] else SectionBytes(xs[0], ss[0]) + SectionsBytes(xs[1..], ss[1..])
  }

  function AaBytes(a: Aa): (r: seq<byte>)
    ensures |r| == 12
  {
    U32Bytes(a.id) + (U32Bytes(a.value) + U32Bytes(a.unknown))
  }

  function AasBytes(aas: seq<Aa>): (r: seq<byte>)
    ensures |r| == 12 * |aas|
  {
    if aas == [] then [] else AasBytes(aas[..|aas| - 1]) + AaBytes(aas[|aas| - 1])
  }

  function WordsBytes(ws: seq<u32>): (r: seq<byte>)
    ensures |r| == 4 * |ws|
  {
    if ws == [] then [] else WordsBytes(ws[..|ws| - 1]) + U32Bytes(ws[|ws| - 1])
  }

  predicate WireOk(w: Wire) {
    |w.header| == WALK_START && SectionsOk(w.sections, SECTIONS) && |w.aas| <= U32_MAX && |w.skills| <= U32_MAX
  }

  function Encode(w: Wire): seq<byte>
    requires WireOk(w)
  {
    w.header + (SectionsBytes(w.sections, SECTIONS)
                + (U32Bytes(|w.aas|) + (AasBytes(w.aas) + (U32Bytes(|w.skills|) + (WordsBytes(w.skills) + w.rest)))))
  }

  // ---- reading it ----------------------------------------------------------

  /** The position after a section that lies at `p`. */
  function SectionEnd(b: seq<byte>, p: nat, s: Shape): (r: Option<nat>)
    ensures r.Some? ==> p <= r.value <= |b|
  {
    match s
    case Fixed(n) => if p + n > |b| then None else Some(p + n)
    case Counted(w) =>
      if p + 4 > |b| then None else
      var n: nat := U32At(b, p);
      if p + 4 + n * w > |b| then None else Some(p + 4 + n * w)
  }

  function SectionsEnd(b: seq<byte>, p: nat, ss: seq<Shape>): (r: Option<nat>)
    requires p <= |b|
    ensures r.Some? ==> p <= r.value <= |b|
    decreases |ss|
  {
    if ss == [] then Some(p) else
    match SectionEnd(b, p, ss[0])
    case None => None
    case Some(q) => SectionsEnd(b, q, ss[1..])
  }

  function AasAt(b: seq<byte>, p: nat, n: nat): (r: seq<Aa>)
    requires p + 12 * n <= |b|
    ensures |r| == n
  {
    if n == 0 then [] else
    var q := p + 12 * (n - 1);
    AasAt(b, p, n - 1) + [Aa(U32At(b, q), U32At(b, q + 4), U32At(b, q + 8))]
  }

  function WordsAt(b: seq<byte>, p: nat, n: nat): (r: seq<u32>)
    requires p + 4 * n <= |b|
    ensures |r| == n
  {
    if n == 0 then [] else WordsAt(b, p, n - 1) + [U32At(b, p + 4 * (n - 1))]
  }

  /** A counted table of abilities, whole or not at all. */
  function AaTable(b: seq<byte>, p: nat): (r: Option<At<seq<Aa>>>)
    ensures r.Some? ==> p + 4 + 12 * |r.value.value| == r.value.next <= |b|
  {
    if p + 4 > |b| then None else
    var n: nat := U32At(b, p);
    if p + 4 + 12 * n > |b| then None else Some(At(AasAt(b, p + 4, n), p + 4 + 12 * n))
  }

  function SkillTable(b: seq<byte>, p: nat): (r: Option<At<seq<u32>>>)
    ensures r.Some? ==> p + 4 + 4 * |r.value.value| == r.value.next <= |b|
  {
    if p + 4 > |b| then None else
    var n: nat := U32At(b, p);
    if p + 4 + 4 * n > |b| then None else Some(At(WordsAt(b, p + 4, n), p + 4 + 4 * n))
  }

  /** What the walk finds: the ability table, and the skills behind it. */
  datatype Found = Found(aas: Option<seq<Aa>>, skills: Option<seq<u32>>)

  function Walk(b: seq<byte>): (r: Found)
    ensures r.skills.Some? ==> r.aas.Some?
  {
    if |b| < WALK_START then Found(None, None) else
    match SectionsEnd(b, WALK_START, SECTIONS)
    case None => Found(None, None)
    case Some(p) =>
      match AaTable(b, p)
      case None => Found(None, None)
      case Some(t) =>
        match SkillTable(b, t.next)
        case None => Found(Some(t.value), None)
        case Some(k) => Found(Some(t.value), Some(k.value))
  }

  // ---- the walk ------------------------------------------------------------

  function Ids(aas: seq<Aa>): (r: seq<u32>)
    ensures |r| == |aas| && forall i :: 0 <= i < |r| ==> r[i] == aas[i].id
  {
    seq(|aas|, i requires 0 <= i < |aas| => aas[i].id)
  }

  function Values(aas: seq<Aa>): (r: seq<u32>)
    ensures |r| == |aas| && forall i :: 0 <= i < |r| ==> r[i] == aas[i].value
  {
    seq(|aas|, i requires 0 <= i < |aas| => aas[i].value)
  }

  function Sum(ws: seq<u32>): nat {
    if ws == [] then 0 else Sum(ws[..|ws| - 1]) + ws[|ws| - 1]
  }

  /** One step of the section list. */
  lemma {:induction false} SectionsStep(b: seq<byte>, p: nat, k: nat)
    requires p <= |b| && k < |SECTIONS|
    ensures SectionsEnd(b, p, SECTIONS[k..])
            == match SectionEnd(b, p, SECTIONS[k])
               case None => None
               case Some(q) => SectionsEnd(b, q, SECTIONS[k + 1..])
  {
    assert SECTIONS[k..][1..] == SECTIONS[k + 1..];
  }

  /** A count, and that many entries: the position after them, or no. */
  method SkipTable(b: seq<byte>, p: nat, width: nat) returns (ok: bool, next: nat)
    ensures SectionEnd(b, p, Counted(width)) == if ok then Some(next) else None
    ensures ok ==> next <= |b|
  {
    if p + 4 > |b| {
      return false, p;
    }
    var count: nat := U32At(b, p);
    if p + 4 + count * width > |b| {
      return false, p;
    }
    return true, p + 4 + count * width;
  }

  method SkipFixed(b: seq<byte>, p: nat, n: nat) returns (ok: bool, next: nat)
    ensures SectionEnd(b, p, Fixed(n)) == if ok then Some(next) else None
    ensures ok ==> next <= |b|
  {
    if p + n > |b| {
      return false, p;
    }
    return true, p + n;
  }

  lemma Shapes()
    ensures |SECTIONS| == 11 && SECTIONS[0..] == SECTIONS && WALK_START == 35
    ensures SECTIONS[0] == Counted(20) && SECTIONS[1] == SECTIONS[2] == Fixed(4) && SECTIONS[3] == Counted(4)
    ensures SECTIONS[4] == SECTIONS[5] == Counted(20) && SECTIONS[6] == SECTIONS[7] == Counted(4)
    ensures SECTIONS[8] == Fixed(51) && SECTIONS[9] == Fixed(40) && SECTIONS[10] == Fixed(28)
  {
  }

  /** Section by section to the ability table; any overrun ends the walk. */
  method SkipSections(b: seq<byte>) returns (ok: bool, p: nat)
    requires |b| >= WALK_START
    ensures SectionsEnd(b, WALK_START, SECTIONS) == if ok then Some(p) else None
    ensures ok ==> p <= |b|
  {
    hide *;
    Shapes();
    // bind points
    SectionsStep(b, WALK_START, 0);
    ok, p := SkipTable(b, WALK_START, 20);
    if !ok { return; }
    // deity, intoxication
    SectionsStep(b, p, 1);
    ok, p := SkipFixed(b, p, 4);
    if !ok { return; }
    SectionsStep(b, p, 2);
    ok, p := SkipFixed(b, p, 4);
    if !ok { return; }
    // spell refresh
    SectionsStep(b, p, 3);
    ok, p := SkipTable(b, p, 4);
    if !ok { return; }
    // equipment
    SectionsStep(b, p, 4);
    ok, p := SkipTable(b, p, 20);
    if !ok { return; }
    // three unnamed tables
    SectionsStep(b, p, 5);
    ok, p := SkipTable(b, p, 20);
    if !ok { return; }
    SectionsStep(b, p, 6);
    ok, p := SkipTable(b, p, 4);
    if !ok { return; }
    SectionsStep(b, p, 7);
    ok, p := SkipTable(b, p, 4);
    if !ok { return; }
    // face, stats, padding
    SectionsStep(b, p, 8);
    ok, p := SkipFixed(b, p, 51);
    if !ok { return; }
    SectionsStep(b, p, 9);
    ok, p := SkipFixed(b, p, 40);
    if !ok { return; }
    SectionsStep(b, p, 10);
    ok, p := SkipFixed(b, p, 28);
    if !ok { return; }
    NoSections(b, p);
  }

  lemma {:induction false} NoSections(b: seq<byte>, p: nat)
    requires p <= |b|
    ensures SectionsEnd(b, p, SECTIONS[11..]) == Some(p)
  {
  }

  class PlayerProfile {
    var aaIds: seq<u32>
    var aaValues: seq<u32>
    var aaSpent: u32
    var skills: seq<u32>

    constructor ()
      ensures aaIds == aaValues == skills == [] && aaSpent == 0
    {
      aaIds, aaValues, skills, aaSpent := [], [], [], 0;
    }

    /** The ability table at `p`, whose `count` entries fit. */
    method PushAas(b: seq<byte>, p: nat, count: nat)
      requires p + 12 * count <= |b|
      modifies `aaIds, `aaValues, `aaSpent
      ensures aaIds == old(aaIds) + Ids(AasAt(b, p, count))
      ensures aaValues == old(aaValues) + Values(AasAt(b, p, count))
      ensures aaSpent == Sum(Values(AasAt(b, p, count))) % 0x1_0000_0000
    {
      var q := p;
      var spent: u32 := 0;
      ghost var seen: seq<Aa> := [];
      for i := 0 to count
        invariant q == p + 12 * i && seen == AasAt(b, p, i)
        invariant aaIds == old(aaIds) + Ids(seen)
        invariant aaValues == old(aaValues) + Values(seen)
        invariant spent == Sum(Values(seen)) % 0x1_0000_0000
      {
        hide *;
        var id, val := U32At(b, q), U32At(b, q + 4);
        ghost var a := Aa(id, val, U32At(b, q + 8));
        AasAtPush(b, p, i);
        PushOne(seen, a);
        WrapAdd(Sum(Values(seen)), val);
        ConcatAssoc(old(aaIds), Ids(seen), [id]);
        ConcatAssoc(old(aaValues), Values(seen), [val]);
        seen := seen + [a];
        q := q + 12;
        spent := (spent + val) % 0x1_0000_0000;
        aaIds := aaIds + [id];
        aaValues := aaValues + [val];
      }
      aaSpent := spent;
    }

    /** The skills at `p`, whose `count` entries fit: every one is read, the first hundred are kept. */
    method PushSkills(b: seq<byte>, p: nat, count: nat)
      requires p + 4 * count <= |b|
      modifies `skills
      ensures skills == old(skills) + WordsAt(b, p, count)[..Min(count, MAX_KNOWN_SKILLS)]
    {
      var q := p;
      for i := 0 to count
        invariant q == p + 4 * i
        invariant skills == old(skills) + WordsAt(b, p, i)[..Min(i, MAX_KNOWN_SKILLS)]
      {
        hide U32At;
        var v := U32At(b, q);
        q := q + 4;
        if i < MAX_KNOWN_SKILLS {
          skills := skills + [v];
        }
      }
    }

    /** Nothing is touched unless the whole ability table is there, and the skills stay as they were
        unless every one of them is. */
    method WalkSkills(b: seq<byte>)
      modifies this
      ensures match Walk(b).aas
              case None => aaIds == old(aaIds) && aaValues == old(aaValues) && aaSpent == old(aaSpent)
              case Some(aas) =>
                && aaIds == old(aaIds) + Ids(aas) && aaValues == old(aaValues) + Values(aas)
                && aaSpent == Sum(Values(aas)) % 0x1_0000_0000
      ensures match Walk(b).skills
              case None => skills == old(skills)
              case Some(ws) => skills == old(skills) + ws[..Min(|ws|, 100)]
    {
      hide SectionsEnd, Sum, Ids, Values, AasAt, WordsAt, U32At;
      if |b| < WALK_START {
        return;
      }
      var ok, p := SkipSections(b);
      if !ok || p + 4 > |b| {
        return;
      }
      var aaCount: nat := U32At(b, p);
      p := p + 4;
      if p + 12 * aaCount > |b| {
        return;
      }
      PushAas(b, p, aaCount);
      p := p + 12 * aaCount;
      if p + 4 > |b| {
        return;
      }
      var skillCount: nat := U32At(b, p);
      p := p + 4;
      if p + 4 * skillCount > |b| {
        return;
      }
      PushSkills(b, p, skillCount);
    }
  }

  lemma AasAtPush(b: seq<byte>, p: nat, n: nat)
    requires p + 12 * (n + 1) <= |b|
    ensures var q := p + 12 * n;
            AasAt(b, p, n + 1) == AasAt(b, p, n) + [Aa(U32At(b, q), U32At(b, q + 4), U32At(b, q + 8))]
  {
    hide U32At;
  }

  lemma WrapAdd(total: nat, v: u32)
    ensures (total % 0x1_0000_0000 + v) % 0x1_0000_0000 == (total + v) % 0x1_0000_0000
  {
  }

  lemma PushOne(aas: seq<Aa>, a: Aa)
    ensures Ids(aas + [a]) == Ids(aas) + [a.id] && Values(aas + [a]) == Values(aas) + [a.value]
    ensures Sum(Values(aas + [a])) == Sum(Values(aas)) + a.value
  {
    assert Values(aas + [a])[..|aas|] == Values(aas);
  }

  // ---- exactness -----------------------------------------------------------

  lemma SectionReads(b: seq<byte>, p: nat, x: Section, s: Shape)
    requires SectionOk(x, s) && Lies(b, p, SectionBytes(x, s))
    ensures SectionEnd(b, p, s) == Some(p + |SectionBytes(x, s)|)
  {
    if s.Counted? {
      LiesSplit(b, p, U32Bytes(x.count), x.body);
      LiesU32(b, p, x.count);
    }
    hide U32At, U32Bytes;
  }

  /** The section that a step passed over. */
  lemma SectionPassed(b: seq<byte>, p: nat, s: Shape, q: nat) returns (x: Section)
    requires SectionEnd(b, p, s) == Some(q)
    ensures SectionOk(x, s) && Lies(b, p, SectionBytes(x, s)) && q == p + |SectionBytes(x, s)|
  {
    if s.Counted? {
      x := Section(U32At(b, p), b[p + 4..q]);
      LiesU32(b, p, x.count);
      LiesSplit(b, p, U32Bytes(x.count), x.body);
    } else {
      x := Section(0, b[p..q]);
      assert [] + x.body == x.body;
    }
    hide U32At, U32Bytes;
  }

  lemma SectionsCons(b: seq<byte>, p: nat, xs: seq<Section>, ss: seq<Shape>)
    requires |xs| == |ss| && ss != []
    ensures SectionsOk(xs, ss) <==> SectionOk(xs[0], ss[0]) && SectionsOk(xs[1..], ss[1..])
    ensures |SectionsBytes(xs, ss)| == |SectionBytes(xs[0], ss[0])| + |SectionsBytes(xs[1..], ss[1..])|
    ensures Lies(b, p, SectionsBytes(xs, ss))
            <==> Lies(b, p, SectionBytes(xs[0], ss[0]))
                 && Lies(b, p + |SectionBytes(xs[0], ss[0])|, SectionsBytes(xs[1..], ss[1..]))
    ensures p <= |b|
            ==> SectionsEnd(b, p, ss)
                == match SectionEnd(b, p, ss[0]) case None => None case Some(q) => SectionsEnd(b, q, ss[1..])
  {
    hide SectionOk, SectionBytes, SectionEnd, Lies;
    LiesSplit(b, p, SectionBytes(xs[0], ss[0]), SectionsBytes(xs[1..], ss[1..]));
  }

  lemma {:induction false} SectionsRead(b: seq<byte>, p: nat, xs: seq<Section>, ss: seq<Shape>)
    requires p <= |b| && SectionsOk(xs, ss) && Lies(b, p, SectionsBytes(xs, ss))
    ensures SectionsEnd(b, p, ss) == Some(p + |SectionsBytes(xs, ss)|)
    decreases |ss|
  {
    if ss == [] {
    } else {
      SectionsCons(b, p, xs, ss);
      SectionReads(b, p, xs[0], ss[0]);
      SectionsRead(b, p + |SectionBytes(xs[0], ss[0])|, xs[1..], ss[1..]);
      hide *;
    }
  }

  lemma {:induction false} SectionsPassed(b: seq<byte>, p: nat, ss: seq<Shape>, q: nat) returns (xs: seq<Section>)
    requires p <= |b| && SectionsEnd(b, p, ss) == Some(q)
    ensures SectionsOk(xs, ss) && Lies(b, p, SectionsBytes(xs, ss)) && q == p + |SectionsBytes(xs, ss)|
    decreases |ss|
  {
    if ss == [] {
      xs := [];
    } else {
      var mid := SectionEnd(b, p, ss[0]).value;
      var x := SectionPassed(b, p, ss[0], mid);
      var rest := SectionsPassed(b, mid, ss[1..], q);
      xs := [x] + rest;
      assert xs[1..] == rest;
      SectionsCons(b, p, xs, ss);
      hide *;
    }
  }

  lemma AaExact(b: seq<byte>, p: nat, a: Aa)
    ensures Lies(b, p, AaBytes(a))
            <==> p + 12 <= |b| && a == Aa(U32At(b, p), U32At(b, p + 4), U32At(b, p + 8))
  {
    hide U32Bytes, U32At;
    LiesSplit(b, p, U32Bytes(a.id), U32Bytes(a.value) + U32Bytes(a.unknown));
    LiesSplit(b, p + 4, U32Bytes(a.value), U32Bytes(a.unknown));
    LiesU32(b, p, a.id);
    LiesU32(b, p + 4, a.value);
    LiesU32(b, p + 8, a.unknown);
  }

  lemma {:induction false} AasLast(b: seq<byte>, p: nat, aas: seq<Aa>)
    requires aas != []
    ensures var n := |aas| - 1;
            Lies(b, p, AasBytes(aas)) <==> Lies(b, p, AasBytes(aas[..n])) && Lies(b, p + 12 * n, AaBytes(aas[n]))
  {
    hide *;
    AasPush(aas);
    LiesSplit(b, p, AasBytes(aas[..|aas| - 1]), AaBytes(aas[|aas| - 1]));
  }

  lemma {:induction false} AasPush(aas: seq<Aa>)
    requires aas != []
    ensures AasBytes(aas) == AasBytes(aas[..|aas| - 1]) + AaBytes(aas[|aas| - 1])
  {
    hide AaBytes;
  }

  lemma {:induction false} AasAtLast(b: seq<byte>, p: nat, aas: seq<Aa>)
    requires aas != [] && p + 12 * |aas| <= |b|
    ensures var n := |aas| - 1;
            var q := p + 12 * n;
            AasAt(b, p, |aas|) == aas
            <==> AasAt(b, p, n) == aas[..n] && aas[n] == Aa(U32At(b, q), U32At(b, q + 4), U32At(b, q + 8))
  {
    hide U32At;
    assert aas == aas[..|aas| - 1] + [aas[|aas| - 1]];
  }

  lemma {:induction false} NoAas(b: seq<byte>, p: nat)
    requires p <= |b|
    ensures Lies(b, p, AasBytes([])) && AasAt(b, p, 0) == []
  {
  }

  lemma {:induction false} AasExact(b: seq<byte>, p: nat, aas: seq<Aa>)
    requires p <= |b|
    ensures Lies(b, p, AasBytes(aas)) <==> p + 12 * |aas| <= |b| && AasAt(b, p, |aas|) == aas
  {
    hide *;
    if aas == [] {
      NoAas(b, p);
    } else {
      AasLast(b, p, aas);
      AasExact(b, p, aas[..|aas| - 1]);
      AaExact(b, p + 12 * (|aas| - 1), aas[|aas| - 1]);
      if p + 12 * |aas| <= |b| {
        AasAtLast(b, p, aas);
      }
    }
  }

  lemma {:induction false} WordsLast(b: seq<byte>, p: nat, front: seq<u32>, last: u32)
    ensures Lies(b, p, WordsBytes(front + [last]))
            <==> Lies(b, p, WordsBytes(front)) && Lies(b, p + 4 * |front|, U32Bytes(last))
  {
    hide *;
    WordsPush(front, last);
    LiesSplit(b, p, WordsBytes(front), U32Bytes(last));
  }

  lemma {:induction false} WordsPush(front: seq<u32>, last: u32)
    ensures WordsBytes(front + [last]) == WordsBytes(front) + U32Bytes(last)
  {
    hide U32Bytes;
    assert (front + [last])[..|front|] == front;
  }

  lemma {:induction false} WordsAtLast(b: seq<byte>, p: nat, ws: seq<u32>)
    requires ws != [] && p + 4 * |ws| <= |b|
    ensures var n := |ws| - 1;
            WordsAt(b, p, |ws|) == ws <==> WordsAt(b, p, n) == ws[..n] && ws[n] == U32At(b, p + 4 * n)
  {
    hide U32At;
    assert ws == ws[..|ws| - 1] + [ws[|ws| - 1]];
  }

  lemma {:induction false} NoWords(b: seq<byte>, p: nat)
    requires p <= |b|
    ensures Lies(b, p, WordsBytes([])) && WordsAt(b, p, 0) == []
  {
  }

  lemma {:induction false} WordsExact(b: seq<byte>, p: nat, ws: seq<u32>)
    requires p <= |b|
    ensures Lies(b, p, WordsBytes(ws)) <==> p + 4 * |ws| <= |b| && WordsAt(b, p, |ws|) == ws
  {
    hide *;
    if ws == [] {
      NoWords(b, p);
    } else {
      var front, last := ws[..|ws| - 1], ws[|ws| - 1];
      assert ws == front + [last];
      WordsLast(b, p, front, last);
      WordsExact(b, p, front);
      LiesU32(b, p + 4 * (|ws| - 1), last);
      if p + 4 * |ws| <= |b| {
        WordsAtLast(b, p, ws);
      }
    }
  }

  lemma {:induction false} AaTableUnfolds(b: seq<byte>, p: nat, aas: seq<Aa>)
    requires |aas| <= U32_MAX
    ensures AaTable(b, p) == Some(At(aas, p + 4 + 12 * |aas|))
            <==> p + 4 + 12 * |aas| <= |b| && U32At(b, p) == |aas| && AasAt(b, p + 4, |aas|) == aas
  {
    hide U32At, AasAt;
  }

  lemma {:induction false} AaTableExact(b: seq<byte>, p: nat, aas: seq<Aa>)
    requires p <= |b| && |aas| <= U32_MAX
    ensures Lies(b, p, U32Bytes(|aas|) + AasBytes(aas)) <==> AaTable(b, p) == Some(At(aas, p + 4 + 12 * |aas|))
  {
    hide *;
    LiesSplit(b, p, U32Bytes(|aas|), AasBytes(aas));
    LiesU32(b, p, |aas|);
    if p + 4 <= |b| {
      AasExact(b, p + 4, aas);
    }
    AaTableUnfolds(b, p, aas);
  }

  lemma {:induction false} SkillTableUnfolds(b: seq<byte>, p: nat, ws: seq<u32>)
    requires |ws| <= U32_MAX
    ensures SkillTable(b, p) == Some(At(ws, p + 4 + 4 * |ws|))
            <==> p + 4 + 4 * |ws| <= |b| && U32At(b, p) == |ws| && WordsAt(b, p + 4, |ws|) == ws
  {
    hide U32At, WordsAt;
  }

  lemma {:induction false} SkillTableExact(b: seq<byte>, p: nat, ws: seq<u32>)
    requires p <= |b| && |ws| <= U32_MAX
    ensures Lies(b, p, U32Bytes(|ws|) + WordsBytes(ws)) <==> SkillTable(b, p) == Some(At(ws, p + 4 + 4 * |ws|))
  {
    hide *;
    LiesSplit(b, p, U32Bytes(|ws|), WordsBytes(ws));
    LiesU32(b, p, |ws|);
    if p + 4 <= |b| {
      WordsExact(b, p + 4, ws);
    }
    SkillTableUnfolds(b, p, ws);
  }

  /** Where the parts of a profile lie. */
  lemma WireParts(b: seq<byte>, w: Wire)
    requires WireOk(w)
    ensures var p := WALK_START + |SectionsBytes(w.sections, SECTIONS)|;
            var q := p + 4 + 12 * |w.aas|;
            var r := q + 4 + 4 * |w.skills|;
            b == Encode(w)
            <==> |b| == r + |w.rest| && b[..WALK_START] == w.header && b[r..] == w.rest
                 && Lies(b, WALK_START, SectionsBytes(w.sections, SECTIONS))
                 && Lies(b, p, U32Bytes(|w.aas|) + AasBytes(w.aas))
                 && Lies(b, q, U32Bytes(|w.skills|) + WordsBytes(w.skills))
  {
    hide U32Bytes, SectionsOk, SectionsBytes, AasBytes, WordsBytes;
    var mid := SectionsBytes(w.sections, SECTIONS);
    var aas := U32Bytes(|w.aas|) + AasBytes(w.aas);
    var skills := U32Bytes(|w.skills|) + WordsBytes(w.skills);
    ConcatAssoc(U32Bytes(|w.skills|), WordsBytes(w.skills), w.rest);
    ConcatAssoc(U32Bytes(|w.aas|), AasBytes(w.aas), skills + w.rest);
    assert Encode(w) == w.header + (mid + (aas + (skills + w.rest)));
    FourParts(b, w.header, mid, aas, skills, w.rest);
  }

  lemma FourParts(b: seq<byte>, h: seq<byte>, x: seq<byte>, y: seq<byte>, z: seq<byte>, t: seq<byte>)
    ensures b == h + (x + (y + (z + t)))
            <==> |b| == |h| + |x| + |y| + |z| + |t| && b[..|h|] == h && b[|b| - |t|..] == t
                 && Lies(b, |h|, x) && Lies(b, |h| + |x|, y) && Lies(b, |h| + |x| + |y|, z)
  {
    LiesSplit(b, 0, h, x + (y + (z + t)));
    LiesSplit(b, |h|, x, y + (z + t));
    LiesSplit(b, |h| + |x|, y, z + t);
    LiesSplit(b, |h| + |x| + |y|, z, t);
    assert b[0..|b|] == b;
  }

  /** A well-formed profile, whatever follows its skills, is walked to exactly its two tables. */
  lemma WellFormedRecovered(w: Wire)
    requires WireOk(w)
    ensures Walk(Encode(w)) == Found(Some(w.aas), Some(w.skills))
  {
    hide *;
    SizesOk(w);
    var b := Encode(w);
    WireParts(b, w);
    SectionsRead(b, WALK_START, w.sections, SECTIONS);
    var p := WALK_START + |SectionsBytes(w.sections, SECTIONS)|;
    AaTableExact(b, p, w.aas);
    SkillTableExact(b, p + 4 + 12 * |w.aas|, w.skills);
    WalkUnfolds(b, p);
  }

  /** The ability table is found whatever follows it, a cut skill table included. */
  lemma AbilitiesRecovered(w: Wire, rest: seq<byte>)
    requires WireOk(w)
    ensures var b := w.header + (SectionsBytes(w.sections, SECTIONS)
                                 + (U32Bytes(|w.aas|) + (AasBytes(w.aas) + rest)));
            Walk(b).aas == Some(w.aas)
  {
    hide *;
    SizesOk(w);
    var mid, aas := SectionsBytes(w.sections, SECTIONS), U32Bytes(|w.aas|) + AasBytes(w.aas);
    var b := w.header + (mid + (U32Bytes(|w.aas|) + (AasBytes(w.aas) + rest)));
    ConcatAssoc(U32Bytes(|w.aas|), AasBytes(w.aas), rest);
    assert [] + rest == rest;
    FourParts(b, w.header, mid, aas, [], rest);
    SectionsRead(b, WALK_START, w.sections, SECTIONS);
    AaTableExact(b, WALK_START + |mid|, w.aas);
    WalkUnfolds(b, WALK_START + |mid|);
  }

  lemma SizesOk(w: Wire)
    requires WireOk(w)
    ensures |w.header| == WALK_START && |w.aas| <= U32_MAX && |w.skills| <= U32_MAX && SectionsOk(w.sections, SECTIONS)
  {
    hide SectionsOk;
  }

  lemma {:induction false} WalkUnfolds(b: seq<byte>, p: nat)
    requires |b| >= WALK_START && SectionsEnd(b, WALK_START, SECTIONS) == Some(p)
    ensures var t := AaTable(b, p);
            && (t.None? ==> Walk(b) == Found(None, None))
            && (t.Some? ==>
                  var k := SkillTable(b, t.value.next);
                  Walk(b) == Found(Some(t.value.value), if k.Some? then Some(k.value.value) else None))
  {
    hide SectionsEnd, AaTable, SkillTable;
  }

  /** Skills are found in well-formed profiles alone: the bytes are the encoding of one, with the
      tables that were found. */
  lemma FoundMeansWellFormed(b: seq<byte>) returns (w: Wire)
    ensures Walk(b).skills.Some? ==>
              WireOk(w) && Encode(w) == b && Walk(b) == Found(Some(w.aas), Some(w.skills))
  {
    hide *;
    w := Wire([], [], [], [], []);
    if Walk(b).skills.None? {
      return;
    }
    var p, q, r, aas, skills := WalkSteps(b);
    var xs := SectionsPassed(b, WALK_START, SECTIONS, p);
    w := Wire(b[..WALK_START], xs, aas, skills, b[r..]);
    AaTableExact(b, p, aas);
    SkillTableExact(b, q, skills);
    WireOkIntro(w);
    WireParts(b, w);
  }

  lemma WalkSteps(b: seq<byte>) returns (p: nat, q: nat, r: nat, aas: seq<Aa>, skills: seq<u32>)
    requires Walk(b).skills.Some?
    ensures WALK_START == 35 <= p <= q <= r <= |b| && |aas| <= U32_MAX && |skills| <= U32_MAX
    ensures q == p + 4 + 12 * |aas| && r == q + 4 + 4 * |skills|
    ensures SectionsEnd(b, WALK_START, SECTIONS) == Some(p)
    ensures AaTable(b, p) == Some(At(aas, q)) && SkillTable(b, q) == Some(At(skills, r))
    ensures Walk(b) == Found(Some(aas), Some(skills))
  {
    hide SectionsEnd, AasAt, WordsAt, U32At;
    p := SectionsEnd(b, WALK_START, SECTIONS).value;
    aas, q := AaTable(b, p).value.value, AaTable(b, p).value.next;
    skills, r := SkillTable(b, q).value.value, SkillTable(b, q).value.next;
  }

  lemma WireOkIntro(w: Wire)
    requires |w.header| == WALK_START && SectionsOk(w.sections, SECTIONS)
    requires |w.aas| <= U32_MAX && |w.skills| <= U32_MAX
    ensures WireOk(w)
  {
    hide SectionsOk;
  }
}
