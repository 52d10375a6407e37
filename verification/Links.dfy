/** Chat links, as UTF-8 bytes (`seq-backend-eql/src/links.rs`). */
module Links {
  import opened Prelude

  const MARK: byte := 0x12
  const CARET: byte := 0x5E
  const QUOTE: byte := 0x27
  const ITEM_LINK_HEX := 197

  function LastIndexOf(s: seq<byte>, x: byte): (r: Option<nat>)
    ensures r.Some? ==> r.value < |s| && s[r.value] == x && x !in s[r.value + 1..]
    ensures r.None? ==> x !in s
  {
    if s == [] then None
    else if s[|s| - 1] == x then Some(|s| - 1)
    else
      var r := LastIndexOf(s[..|s| - 1], x);
      assert s == s[..|s| - 1] + [s[|s| - 1]];
      assert r.Some? ==> s[r.value + 1..] == s[..|s| - 1][r.value + 1..] + [s[|s| - 1]];
      r
  }

  function TrimQuotes(s: seq<byte>): (r: seq<byte>)
    ensures |r| <= |s| && r == s[|s| - |r|..]
  {
    if s != [] && s[0] == QUOTE then TrimQuotes(s[1..]) else s
  }

  /** `str::get(n..)`: nothing past the end or inside a character. */
  function GetFrom(s: seq<byte>, n: nat): Option<seq<byte>> {
    if n == |s| || (n < |s| && !(0x80 <= s[n] < 0xC0)) then Some(s[n..]) else None
  }

  /** A spell link's name follows its last caret and quotes; an item link's name follows the fixed
      header. */
  function LinkName(link: seq<byte>): (r: seq<byte>)
    ensures |r| <= |link| && forall c :: c in r ==> c in link
  {
    match LastIndexOf(link, CARET)
    case Some(i) => TrimQuotes(link[i + 1..])
    case None => (match GetFrom(link, ITEM_LINK_HEX) case Some(name) => name case None => [])
  }

  function Clean(s: seq<byte>): (r: seq<byte>)
    ensures |r| <= |s| && MARK !in r
    decreases |s|
  {
    match IndexOf(s, MARK)
    case None => s
    case Some(open) =>
      var body := s[open + 1..];
      match IndexOf(body, MARK)
      case None => s[..open] + body
      case Some(close) => s[..open] + LinkName(body[..close]) + Clean(body[close + 1..])
  }

  method CleanLinks(s: seq<byte>) returns (out: seq<byte>)
    ensures out == Clean(s)
  {
    out := [];
    var rest := s;
    var open := IndexOf(rest, MARK);
    while open.Some?
      invariant open == IndexOf(rest, MARK)
      invariant out + Clean(rest) == Clean(s)
      decreases |rest|
    {
      ghost var was, done := rest, out;
      out := out + rest[..open.value];
      var body := rest[open.value + 1..];
      var close := IndexOf(body, MARK);
      if close.None? {
        out := out + body;
        ConcatAssoc(done, was[..open.value], body);
        return;
      }
      out := out + LinkName(body[..close.value]);
      rest := body[close.value + 1..];
      CleanStep(done, was[..open.value], LinkName(body[..close.value]), Clean(rest));
      open := IndexOf(rest, MARK);
    }
    out := out + rest;
  }

  lemma CleanStep(done: seq<byte>, a: seq<byte>, b: seq<byte>, c: seq<byte>)
    ensures done + a + b + c == done + (a + b + c)
  {
    ConcatAssoc(done, a, b);
    ConcatAssoc(done, a + b, c);
  }

  // ---- laws ----------------------------------------------------------------

  /** Text without a marker is left alone, so cleaning twice is cleaning once. */
  lemma {:induction false} CleanIsIdempotent(s: seq<byte>)
    ensures MARK !in s ==> Clean(s) == s
    ensures Clean(Clean(s)) == Clean(s)
  {
    if MARK !in s {
      CleanPlain(s);
    }
    CleanPlain(Clean(s));
  }

  lemma {:induction false} CleanPlain(s: seq<byte>)
    requires MARK !in s
    ensures Clean(s) == s
  {
  }

  ghost function Markers(s: seq<byte>): nat {
    if s == [] then 0 else (if s[0] == MARK then 1 else 0) + Markers(s[1..])
  }

  lemma {:induction false} MarkersConcat(a: seq<byte>, b: seq<byte>)
    ensures Markers(a + b) == Markers(a) + Markers(b)
  {
    if a == [] {
      assert a + b == b;
    } else {
      MarkersConcat(a[1..], b);
      assert (a + b)[1..] == a[1..] + b;
    }
  }

  lemma {:induction false} NoMarkers(s: seq<byte>)
    ensures MARK !in s <==> Markers(s) == 0
  {
    if s == [] {
    } else {
      NoMarkers(s[1..]);
      assert s == [s[0]] + s[1..];
    }
  }

  lemma IndexOfConcat(a: seq<byte>, b: seq<byte>, x: byte)
    requires x !in a
    ensures IndexOf(a + b, x) == match IndexOf(b, x) case None => None case Some(i) => Some(|a| + i)
  {
    var s := a + b;
    if IndexOf(b, x).Some? {
      var i := IndexOf(b, x).value;
      forall j | 0 <= j < |a| + i ensures s[j] != x {
        assert s[j] == if j < |a| then a[j] else b[j - |a|];
      }
      IndexOfIs(s, x, |a| + i);
    }
  }

  lemma IndexOfHead(x: byte, b: seq<byte>)
    ensures IndexOf([x] + b, x) == Some(0)
  {
    IndexOfIs([x] + b, x, 0);
  }

  /** Text whose first marker follows `pre`. */
  lemma CleanUnfold(pre: seq<byte>, body: seq<byte>)
    requires MARK !in pre
    ensures Clean(pre + ([MARK] + body))
            == match IndexOf(body, MARK)
               case None => pre + body
               case Some(close) => pre + LinkName(body[..close]) + Clean(body[close + 1..])
  {
    hide LinkName, IndexOf;
    IndexOfHead(MARK, body);
    IndexOfConcat(pre, [MARK] + body, MARK);
    var s := pre + ([MARK] + body);
    assert s[..|pre|] == pre && s[|pre| + 1..] == body;
  }

  /** A text that opens a link and closes it again. */
  lemma {:induction false} CleanLink(pre: seq<byte>, link: seq<byte>, rest: seq<byte>)
    requires MARK !in pre && MARK !in link
    ensures Clean(pre + ([MARK] + (link + ([MARK] + rest)))) == pre + LinkName(link) + Clean(rest)
  {
    var body := link + ([MARK] + rest);
    IndexOfHead(MARK, rest);
    IndexOfConcat(link, [MARK] + rest, MARK);
    assert body[..|link|] == link && body[|link| + 1..] == rest;
    hide Clean, LinkName, IndexOf;
    CleanUnfold(pre, body);
  }

  /** A text with a marker splits at its first one. */
  lemma SplitAtMark(s: seq<byte>) returns (pre: seq<byte>, body: seq<byte>)
    requires Markers(s) >= 1
    ensures MARK !in pre && s == pre + ([MARK] + body) && Markers(s) == 1 + Markers(body)
  {
    NoMarkers(s);
    var open := IndexOf(s, MARK).value;
    pre, body := s[..open], s[open + 1..];
    assert s == pre + ([MARK] + body);
    MarkersConcat(pre, [MARK] + body);
    assert ([MARK] + body)[1..] == body;
    NoMarkers(pre);
  }

  /** Cleaning distributes over concatenation when the left part leaves no link open. */
  lemma {:induction false} CleanConcat(a: seq<byte>, b: seq<byte>)
    requires Markers(a) % 2 == 0
    ensures Clean(a + b) == Clean(a) + Clean(b)
    decreases |a|
  {
    if Markers(a) == 0 {
      NoMarkers(a);
      CleanPrefix(a, b);
    } else {
      var pre, body := SplitAtMark(a);
      var link, rest := SplitAtMark(body);
      hide Clean, Markers, LinkName;
      CleanConcat(rest, b);
      CleanLink(pre, link, rest);
      CleanLink(pre, link, rest + b);
      ConcatAssoc([MARK], rest, b);
      ConcatAssoc(link, [MARK] + rest, b);
      ConcatAssoc([MARK], link + ([MARK] + rest), b);
      ConcatAssoc(pre, [MARK] + (link + ([MARK] + rest)), b);
      ConcatAssoc(pre + LinkName(link), Clean(rest), Clean(b));
    }
  }

  lemma {:induction false} CleanPrefix(a: seq<byte>, b: seq<byte>)
    requires MARK !in a
    ensures Clean(a + b) == a + Clean(b)
  {
    hide Clean, LinkName, IndexOf, Markers;
    if MARK !in b {
      CleanPlain(b);
      CleanPlain(a + b);
    } else {
      NoMarkers(b);
      var pre, body := SplitAtMark(b);
      CleanUnfold(pre, body);
      CleanUnfold(a + pre, body);
      ConcatAssoc(a, pre, [MARK] + body);
      match IndexOf(body, MARK)
      case None =>
        ConcatAssoc(a, pre, body);
      case Some(close) =>
        ConcatAssoc(a, pre, LinkName(body[..close]));
        ConcatAssoc(a, pre + LinkName(body[..close]), Clean(body[close + 1..]));
    }
  }

  // ---- links written and read back -----------------------------------------

  /** What a chat line is made of. */
  datatype Segment =
    | Plain(text: seq<byte>)
    | Item(header: seq<byte>, name: seq<byte>)
    | Spell(args: seq<byte>, name: seq<byte>)
  {
    function Written(): seq<byte> {
      match this
      case Plain(text) => text
      case Item(header, name) => [0x12] + ((header + name) + ([0x12] + []))
      case Spell(args, name) => [0x12] + ((args + [0x5E, 0x27] + name) + ([0x12] + []))
    }

    function Shown(): seq<byte> {
      if Plain? then text else name
    }

    /** An item header has the fixed width and no caret; names do not contain the marker, and a
        spell name neither a caret nor a leading quote. */
    predicate Ok() {
      match this
      case Plain(text) => MARK !in text
      case Item(header, name) =>
        |header| == 197 && CARET !in header && CARET !in name && MARK !in header && MARK !in name
        && (name != [] ==> !(0x80 <= name[0] < 0xC0))
      case Spell(args, name) =>
        MARK !in args && MARK !in name && CARET !in name && (name != [] ==> name[0] != QUOTE)
    }
  }

  function WrittenAll(segments: seq<Segment>): seq<byte> {
    if segments == [] then [] else segments[0].Written() + WrittenAll(segments[1..])
  }

  function ShownAll(segments: seq<Segment>): seq<byte> {
    if segments == [] then [] else segments[0].Shown() + ShownAll(segments[1..])
  }

  lemma {:induction false} LastIndexIs(s: seq<byte>, x: byte, i: nat)
    requires i < |s| && s[i] == x && x !in s[i + 1..]
    ensures LastIndexOf(s, x) == Some(i)
  {
    if i < |s| - 1 {
      assert s[|s| - 1] == s[i + 1..][|s| - i - 2];
      assert s[i + 1..][..|s| - i - 2] == s[..|s| - 1][i + 1..];
      LastIndexIs(s[..|s| - 1], x, i);
    }
  }

  lemma ItemName(header: seq<byte>, name: seq<byte>)
    requires Item(header, name).Ok()
    ensures LinkName(header + name) == name
  {
    assert CARET !in header + name;
    assert (header + name)[ITEM_LINK_HEX..] == name;
    assert name != [] ==> (header + name)[ITEM_LINK_HEX] == name[0];
  }

  lemma SpellName(args: seq<byte>, name: seq<byte>)
    requires Spell(args, name).Ok()
    ensures LinkName(args + [CARET, QUOTE] + name) == name
  {
    hide LastIndexOf;
    var link := args + [CARET, QUOTE] + name;
    assert link[|args|] == CARET && link[|args| + 1..] == [QUOTE] + name;
    LastIndexIs(link, CARET, |args|);
    assert ([QUOTE] + name)[1..] == name;
    assert TrimQuotes(name) == name;
  }

  lemma SegmentShown(g: Segment)
    requires g.Ok()
    ensures Clean(g.Written()) == g.Shown() && Markers(g.Written()) % 2 == 0
  {
    match g
    case Plain(text) =>
      NoMarkers(text);
      CleanPlain(text);
    case Item(header, name) =>
      ItemName(header, name);
      LinkShown(header + name);
    case Spell(args, name) =>
      SpellName(args, name);
      LinkShown(args + [CARET, QUOTE] + name);
  }

  lemma LinkShown(link: seq<byte>)
    requires MARK !in link
    ensures var s := [MARK] + (link + ([MARK] + [])); Clean(s) == LinkName(link) && Markers(s) == 2
  {
    hide LinkName;
    var s := [MARK] + (link + ([MARK] + []));
    CleanLink([], link, []);
    assert [] + s == s && [] + LinkName(link) + Clean([]) == LinkName(link);
    MarkersConcat([MARK], link + ([MARK] + []));
    MarkersConcat(link, [MARK] + []);
    NoMarkers(link);
    assert Markers([]) == 0;
    assert [MARK][1..] == [] && ([MARK] + [])[1..] == [];
  }

  /** A line of text, item links and spell links shows exactly its text and the names it links. */
  lemma {:induction false} LineReadsBack(segments: seq<Segment>)
    requires forall i :: 0 <= i < |segments| ==> segments[i].Ok()
    ensures Clean(WrittenAll(segments)) == ShownAll(segments)
  {
    if segments == [] {
    } else {
      LineReadsBack(segments[1..]);
      SegmentShown(segments[0]);
      CleanConcat(segments[0].Written(), WrittenAll(segments[1..]));
    }
  }

  /** A marker that nothing closes is dropped, and the text behind it stays. */
  lemma {:induction false} OpenLinkStays(pre: seq<byte>, body: seq<byte>)
    requires MARK !in pre && MARK !in body
    ensures Clean(pre + ([0x12] + body)) == pre + body
  {
    CleanUnfold(pre, body);
  }

  /** A link without a caret that is shorter than an item header, or whose header ends inside a character, shows
      nothing. */
  lemma {:induction false} NamelessLink(pre: seq<byte>, link: seq<byte>, rest: seq<byte>)
    requires MARK !in pre && MARK !in link && CARET !in link
    requires |link| < 197 || (|link| > 197 && 0x80 <= link[197] < 0xC0)
    ensures Clean(pre + ([0x12] + (link + ([0x12] + rest)))) == pre + Clean(rest)
  {
    CleanLink(pre, link, rest);
    assert LinkName(link) == [] && pre + [] == pre;
    hide Clean;
  }
}
