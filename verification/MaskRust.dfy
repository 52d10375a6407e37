/** The comment and literal mask behind the coverage audit (`tools/event_coverage.py`). */
module MaskRust {
  import opened Prelude

  datatype State = Normal | Line | Block(depth: nat) | Str

  predicate Pair(s: string, i: nat, a: char, b: char) {
    i + 1 < |s| && s[i] == a && s[i + 1] == b
  }

  /** One step of the lexer: what it shows of the one or two characters it takes, and the state it
      goes on in. */
  datatype Token = Token(shown: string, next: State)

  function Step(s: string, i: nat, st: State): (t: Token)
    requires i < |s|
    ensures 1 <= |t.shown| <= 2 && i + |t.shown| <= |s|
  {
    match st
    case Normal =>
      if Pair(s, i, '/', '/') then Token("  ", Line)
      else if Pair(s, i, '/', '*') then Token("  ", Block(1))
      else if s[i] == '"' then Token(" ", Str)
      else Token([s[i]], Normal)
    case Line =>
      if s[i] == '\n' then Token("\n", Normal) else Token(" ", Line)
    case Block(depth) =>
      if Pair(s, i, '/', '*') then Token("  ", Block(depth + 1))
      else if Pair(s, i, '*', '/') then Token("  ", if depth <= 1 then Normal else Block(depth - 1))
      else Token(if s[i] == '\n' then "\n" else " ", st)
    case Str =>
      if s[i] == '\\' && i + 1 < |s| then Token("  ", Str)
      else Token(" ", if s[i] == '"' then Normal else Str)
  }

  /** What the mask shows from position `i` on, entered in the given state. */
  function MaskFrom(s: string, i: nat, st: State): (r: string)
    requires i <= |s|
    ensures |r| == |s| - i
    decreases |s| - i
  {
    if i == |s| then ""
    else
      var t := Step(s, i, st);
      t.shown + MaskFrom(s, i + |t.shown|, t.next)
  }

  function Mask(s: string): (r: string)
    ensures |r| == |s|
  {
    MaskFrom(s, 0, Normal)
  }

  /** Between two character lists, one lexer step at `i` was taken: up to `j`, into `next`. */
  ghost predicate Took(s: string, before: string, after: string, i: nat, st: State, j: nat, next: State)
    requires i < |s|
  {
    var t := Step(s, i, st);
    && j == i + |t.shown| && next == t.next && |after| == |before|
    && forall k :: 0 <= k < |after| ==> after[k] == if i <= k < j then t.shown[k - i] else before[k]
  }

  /** The original's loop: a character list blanked in place, an index, a state and a block depth. */
  method MaskSource(source: string) returns (r: string)
    ensures r == Mask(source)
  {
    var n := |source|;
    var chars := new char[n](i requires 0 <= i < n => source[i]);
    var i: nat := 0;
    var state := Normal;
    assert chars[..] == source;
    while i < n
      invariant i <= n && (state.Block? ==> state.depth >= 1)
      invariant Progress(source, chars[..], i, state)
      decreases n - i
    {
      hide Progress, Took, Step;
      ghost var before, from, was := chars[..], i, state;
      match state {
        case Normal => i, state := InNormal(source, chars, i);
        case Line => i, state := InLine(source, chars, i);
        case Block(depth) => i, state := InBlock(source, chars, i, depth);
        case Str => i, state := InString(source, chars, i);
      }
      Advance(source, before, chars[..], from, was, i, state);
    }
    r := chars[..];
  }

  /** Before `i` the characters are masked, from `i` on they are still the source. */
  ghost predicate Progress(s: string, now: string, i: nat, st: State) {
    && i <= |s| == |now|
    && (forall k :: i <= k < |s| ==> now[k] == s[k])
    && (forall k :: 0 <= k < i ==> now[k] == Mask(s)[k])
    && MaskFrom(s, i, st) == Mask(s)[i..]
  }

  lemma Advance(s: string, before: string, after: string, i: nat, st: State, j: nat, next: State)
    requires i < |s| && Progress(s, before, i, st) && Took(s, before, after, i, st, j, next)
    ensures i < j && Progress(s, after, j, next)
  {
    hide MaskFrom, Mask, Step;
    StepShows(s, i, st, Mask(s));
    Patched(s, Mask(s), before, after, i, Step(s, i, st).shown);
  }

  /** Writing what the mask shows at `i` over a list masked up to there masks it up to the end of what was written. */
  lemma Patched(s: string, mask: string, before: string, after: string, i: nat, shown: string)
    requires |before| == |after| == |mask| == |s| && i + |shown| <= |s|
    requires forall k :: i <= k < |s| ==> before[k] == s[k]
    requires forall k :: 0 <= k < i ==> before[k] == mask[k]
    requires forall k :: 0 <= k < |shown| ==> mask[i + k] == shown[k]
    requires forall k :: 0 <= k < |s| ==> after[k] == if i <= k < i + |shown| then shown[k - i] else before[k]
    ensures forall k :: i + |shown| <= k < |s| ==> after[k] == s[k]
    ensures forall k :: 0 <= k < i + |shown| ==> after[k] == mask[k]
  {
    forall k | i <= k < i + |shown| ensures after[k] == mask[k] {
      var d := k - i;
      assert mask[i + d] == shown[d];
    }
  }

  method InNormal(source: string, chars: array<char>, i: nat) returns (j: nat, next: State)
    requires i < |source| == chars.Length && Progress(source, chars[..], i, Normal)
    modifies chars
    ensures Took(source, old(chars[..]), chars[..], i, Normal, j, next)
  {
    j, next := i + 1, Normal;
    if Pair(source, i, '/', '/') {
      chars[i], chars[i + 1] := ' ', ' ';
      j, next := i + 2, Line;
    } else if Pair(source, i, '/', '*') {
      chars[i], chars[i + 1] := ' ', ' ';
      j, next := i + 2, Block(1);
    } else if source[i] == '"' {
      chars[i] := ' ';
      next := Str;
    }
  }

  method InLine(source: string, chars: array<char>, i: nat) returns (j: nat, next: State)
    requires i < |source| == chars.Length && Progress(source, chars[..], i, Line)
    modifies chars
    ensures Took(source, old(chars[..]), chars[..], i, Line, j, next)
  {
    next := Line;
    if source[i] == '\n' {
      next := Normal;
    } else {
      chars[i] := ' ';
    }
    j := i + 1;
  }

  method InBlock(source: string, chars: array<char>, i: nat, blockDepth: nat) returns (j: nat, next: State)
    requires i < |source| == chars.Length && Progress(source, chars[..], i, Block(blockDepth)) && blockDepth >= 1
    modifies chars
    ensures Took(source, old(chars[..]), chars[..], i, Block(blockDepth), j, next)
    ensures next.Block? ==> next.depth >= 1
  {
    j, next := i + 1, Block(blockDepth);
    if Pair(source, i, '/', '*') {
      chars[i], chars[i + 1] := ' ', ' ';
      j, next := i + 2, Block(blockDepth + 1);
    } else if Pair(source, i, '*', '/') {
      chars[i], chars[i + 1] := ' ', ' ';
      j, next := i + 2, if blockDepth - 1 == 0 then Normal else Block(blockDepth - 1);
    } else if source[i] != '\n' {
      chars[i] := ' ';
    }
  }

  method InString(source: string, chars: array<char>, i: nat) returns (j: nat, next: State)
    requires i < |source| == chars.Length && Progress(source, chars[..], i, Str)
    modifies chars
    ensures Took(source, old(chars[..]), chars[..], i, Str, j, next)
  {
    j, next := i + 1, Str;
    if source[i] == '\\' && i + 1 < |source| {
      chars[i], chars[i + 1] := ' ', ' ';
      j := i + 2;
    } else {
      if source[i] == '"' {
        next := Normal;
      }
      chars[i] := ' ';
    }
  }

  lemma StepShows(s: string, i: nat, st: State, mask: string)
    requires i < |s| == |mask| && MaskFrom(s, i, st) == mask[i..]
    ensures var t := Step(s, i, st);
            && (forall j :: 0 <= j < |t.shown| ==> mask[i + j] == t.shown[j])
            && MaskFrom(s, i + |t.shown|, t.next) == mask[i + |t.shown|..]
            && mask[i] == t.shown[0] && (|t.shown| == 2 ==> mask[i + 1] == t.shown[1])
  {
    var t := Step(s, i, st);
    hide Step;
    assert forall j :: 0 <= j < |t.shown| ==> mask[i..][j] == t.shown[j];
    assert mask[i..][|t.shown|..] == mask[i + |t.shown|..];
  }

  // ---- laws of the mask ----------------------------------------------------

  predicate Opener(s: string, k: nat) {
    k < |s| && (s[k] == '"' || Pair(s, k, '/', '/') || Pair(s, k, '/', '*'))
  }

  lemma ShownChar(s: string, i: nat, st: State, k: nat)
    requires i < |s| && k < |Step(s, i, st).shown|
    ensures var c := Step(s, i, st).shown[k];
            && (c == s[i + k] || c == ' ')
            && (c == '"' || c == '/' ==> !Opener(s, i + k))
  {
  }

  /** Every character is kept or blanked, and a kept quote or slash is not the start of anything. */
  lemma {:induction false} MaskedChar(s: string, i: nat, st: State, k: nat)
    requires i + k < |s|
    ensures var c := MaskFrom(s, i, st)[k];
            && (c == s[i + k] || c == ' ')
            && (c == '"' || c == '/' ==> !Opener(s, i + k))
    decreases |s| - i
  {
    hide *;
    var t := Step(s, i, st);
    MaskUnfold(s, i, st);
    if k < |t.shown| {
      ShownChar(s, i, st, k);
    } else {
      MaskedChar(s, i + |t.shown|, t.next, k - |t.shown|);
    }
  }

  /** The mask keeps the length, changes characters only to blanks, and leaves neither a quote nor a
      comment opener. */
  lemma MaskHidesEverything(s: string, k: nat)
    requires k < |s|
    ensures Mask(s)[k] == s[k] || Mask(s)[k] == ' '
    ensures !Opener(Mask(s), k)
  {
    MaskedChar(s, 0, Normal, k);
    if k + 1 < |s| {
      MaskedChar(s, 0, Normal, k + 1);
    }
  }

  lemma {:induction false} NothingToMask(s: string, i: nat)
    requires i <= |s| && forall k :: i <= k < |s| ==> !Opener(s, k)
    ensures MaskFrom(s, i, Normal) == s[i..]
    decreases |s| - i
  {
    if i == |s| {
    } else {
      NothingToMask(s, i + 1);
      assert !Opener(s, i);
    }
  }

  /** So masking again changes nothing; and a text is its own mask exactly when nothing in it opens
      a comment or a string. */
  lemma MaskIsIdempotent(s: string)
    ensures Mask(Mask(s)) == Mask(s)
    ensures Mask(s) == s <==> forall k :: 0 <= k < |s| ==> !Opener(s, k)
  {
    forall k | 0 <= k < |s| ensures !Opener(Mask(s), k) {
      MaskHidesEverything(s, k);
    }
    NothingToMask(Mask(s), 0);
    if forall k :: 0 <= k < |s| ==> !Opener(s, k) {
      NothingToMask(s, 0);
    }
  }

  // ---- what the mask means -------------------------------------------------

  /** The inside of a block comment: runs of characters and nested block comments. */
  datatype BlockBody = End | Chars(text: string, more: BlockBody) | Nested(inner: BlockBody, more: BlockBody) {
    function Text(): string {
      match this
      case End => ""
      case Chars(text, more) => text + more.Text()
      case Nested(inner, more) => "/*" + (inner.Text() + ("*/" + more.Text()))
    }

    /** No run contains a comment delimiter or could form one with what follows it. */
    predicate Ok() {
      match this
      case End => true
      case Chars(text, more) => Undelimited(text) && more.Ok()
      case Nested(inner, more) => inner.Ok() && more.Ok()
    }
  }

  predicate Undelimited(s: string) {
    && (forall k :: 0 <= k < |s| ==> !Pair(s, k, '/', '*') && !Pair(s, k, '*', '/'))
    && (s != "" ==> s[|s| - 1] != '/' && s[|s| - 1] != '*')
  }

  /** A piece of a program text. */
  datatype Piece =
    | Code(text: string)
    | LineComment(text: string)
    | BlockComment(body: BlockBody)
    | Literal(inside: string)
  {
    function Text(): string {
      match this
      case Code(text) => text
      case LineComment(text) => "//" + (text + "\n")
      case BlockComment(body) => "/*" + (body.Text() + "*/")
      case Literal(inside) => "\"" + (inside + "\"")
    }

    /** Code is kept; comments are blanked up to their line ends; literals are blanked whole. */
    function Masked(): string {
      match this
      case Code(text) => text
      case LineComment(text) => "  " + (Blanks(|text|) + "\n")
      case BlockComment(body) => "  " + (Blanked(body.Text()) + "  ")
      case Literal(inside) => " " + (Blanks(|inside|) + " ")
    }

    predicate Ok() {
      match this
      case Code(text) => (forall k :: 0 <= k < |text| ==> !Opener(text, k)) && (text != "" ==> text[|text| - 1] != '/')
      case LineComment(text) => '\n' !in text
      case BlockComment(body) => body.Ok()
      case Literal(inside) => Escaped(inside)
    }
  }

  /** What a text may end in: nothing more, or a comment or literal that is still open. */
  datatype Ending = Done | OpenLine(text: string) | OpenBlock(body: BlockBody) | OpenLiteral(inside: string) {
    function Text(): string {
      match this
      case Done => ""
      case OpenLine(text) => "//" + text
      case OpenBlock(body) => "/*" + body.Text()
      case OpenLiteral(inside) => "\"" + inside
    }

    function Masked(): string {
      match this
      case Done => ""
      case OpenLine(text) => "  " + Blanks(|text|)
      case OpenBlock(body) => "  " + Blanked(body.Text())
      case OpenLiteral(inside) => " " + Blanks(|inside|)
    }

    predicate Ok() {
      match this
      case Done => true
      case OpenLine(text) => '\n' !in text
      case OpenBlock(body) => body.Ok()
      case OpenLiteral(inside) => NeverClosed(inside)
    }
  }

  /** No quote that is not escaped. */
  predicate NeverClosed(s: string) {
    s == "" || (if s[0] == '\\' then |s| == 1 || NeverClosed(s[2..]) else s[0] != '"' && NeverClosed(s[1..]))
  }

  /** Every quote in a literal's body is escaped, and so is every backslash. */
  predicate Escaped(s: string) {
    s == "" || (if s[0] == '\\' then |s| >= 2 && Escaped(s[2..]) else s[0] != '"' && Escaped(s[1..]))
  }

  function Blanks(n: nat): (r: string)
    ensures |r| == n && forall k :: 0 <= k < n ==> r[k] == ' '
  {
    if n == 0 then "" else " " + Blanks(n - 1)
  }

  function Blanked(s: string): (r: string)
    ensures |r| == |s|
  {
    if s == "" then "" else [if s[0] == '\n' then '\n' else ' '] + Blanked(s[1..])
  }

  function Texts(ps: seq<Piece>): string {
    if ps == [] then "" else ps[0].Text() + Texts(ps[1..])
  }

  function MaskedTexts(ps: seq<Piece>): string {
    if ps == [] then "" else ps[0].Masked() + MaskedTexts(ps[1..])
  }

  lemma {:induction false} MaskSuffix(s: string, i: nat, st: State)
    requires i <= |s|
    ensures MaskFrom(s, i, st) == MaskFrom(s[i..], 0, st)
    decreases |s| - i
  {
    hide MaskFrom, Step;
    if i == |s| {
    } else {
      var t := Step(s, i, st);
      SameStep(s, i, st);
      MaskUnfold(s, i, st);
      MaskUnfold(s[i..], 0, st);
      MaskSuffix(s, i + |t.shown|, t.next);
      MaskSuffix(s[i..], |t.shown|, t.next);
      assert s[i..][|t.shown|..] == s[i + |t.shown|..];
    }
  }

  lemma MaskUnfold(s: string, i: nat, st: State)
    requires i < |s|
    ensures MaskFrom(s, i, st) == Step(s, i, st).shown + MaskFrom(s, i + |Step(s, i, st).shown|, Step(s, i, st).next)
  {
  }

  lemma SameStep(s: string, i: nat, st: State)
    requires i < |s|
    ensures Step(s[i..], 0, st) == Step(s, i, st)
  {
    assert s[i..][0] == s[i];
    assert i + 1 < |s| ==> s[i..][1] == s[i + 1];
  }

  /** The mask from the start of a text: its first step, and then the mask of what is left. */
  lemma {:induction false} MaskHead(x: string, rest: string, st: State, shown: string, next: State)
    requires x != "" && Step(x + rest, 0, st) == Token(shown, next) && |shown| == |x|
    ensures MaskFrom(x + rest, 0, st) == shown + MaskFrom(rest, 0, next)
  {
    hide Step;
    MaskSuffix(x + rest, |x|, next);
    assert (x + rest)[|x|..] == rest;
  }

  lemma {:induction false} MaskCode(text: string, rest: string)
    requires Code(text).Ok()
    ensures MaskFrom(text + rest, 0, Normal) == text + MaskFrom(rest, 0, Normal)
  {
    hide MaskFrom;
    if text == "" {
      assert text + rest == rest;
    } else {
      var head, tail := text[..1], text[1..];
      assert text + rest == head + (tail + rest);
      forall k | 0 <= k < |tail| ensures !Opener(tail, k) {
        assert !Opener(text, k + 1);
      }
      MaskCode(tail, rest);
      assert !Opener(text, 0);
      assert (head + (tail + rest))[0] == text[0];
      assert |text| >= 2 ==> (head + (tail + rest))[1] == text[1];
      MaskHead(head, tail + rest, Normal, head, Normal);
      ConcatAssoc(head, tail, MaskFrom(rest, 0, Normal));
    }
  }

  lemma {:induction false} MaskLine(text: string, rest: string)
    requires '\n' !in text
    ensures MaskFrom(text + ("\n" + rest), 0, Line) == Blanks(|text|) + ("\n" + MaskFrom(rest, 0, Normal))
  {
    var after := "\n" + rest;
    if text == "" {
      assert text + after == after;
      MaskHead("\n", rest, Line, "\n", Normal);
    } else {
      var head, tail := text[..1], text[1..];
      assert text + after == head + (tail + after) && text == head + tail;
      assert (head + (tail + after))[0] == text[0] && text[0] in text;
      MaskLine(tail, rest);
      MaskHead(head, tail + after, Line, " ", Line);
      ConcatAssoc(" ", Blanks(|tail|), "\n" + MaskFrom(rest, 0, Normal));
    }
  }

  lemma {:induction false} MaskLiteral(body: string, rest: string)
    requires Escaped(body)
    ensures MaskFrom(body + ("\"" + rest), 0, Str) == Blanks(|body|) + (" " + MaskFrom(rest, 0, Normal))
    decreases |body|
  {
    var after := "\"" + rest;
    if body == "" {
      assert body + after == after && after[0] == '"';
      MaskHead("\"", rest, Str, " ", Normal);
    } else {
      var n := if body[0] == '\\' then 2 else 1;
      var head, tail := body[..n], body[n..];
      assert body + after == head + (tail + after);
      assert (head + (tail + after))[0] == body[0];
      MaskLiteral(tail, rest);
      MaskHead(head, tail + after, Str, Blanks(n), Str);
      assert Blanks(|body|) == Blanks(n) + Blanks(|tail|);
      ConcatAssoc(Blanks(n), Blanks(|tail|), " " + MaskFrom(rest, 0, Normal));
    }
  }

  lemma {:induction false} MaskRun(text: string, rest: string, depth: nat)
    requires Undelimited(text)
    ensures MaskFrom(text + rest, 0, Block(depth)) == Blanked(text) + MaskFrom(rest, 0, Block(depth))
  {
    if text == "" {
      assert text + rest == rest;
    } else {
      var head, tail := text[..1], text[1..];
      assert text + rest == head + (tail + rest);
      forall k | 0 <= k < |tail| ensures !Pair(tail, k, '/', '*') && !Pair(tail, k, '*', '/') {
        assert !Pair(text, k + 1, '/', '*') && !Pair(text, k + 1, '*', '/');
      }
      MaskRun(tail, rest, depth);
      assert !Pair(text, 0, '/', '*') && !Pair(text, 0, '*', '/');
      var all := head + (tail + rest);
      assert all[0] == text[0] && (|text| >= 2 ==> all[1] == text[1]);
      var shown := [if text[0] == '\n' then '\n' else ' '];
      MaskHead(head, tail + rest, Block(depth), shown, Block(depth));
      ConcatAssoc(shown, Blanked(tail), MaskFrom(rest, 0, Block(depth)));
    }
  }

  lemma {:induction false} BlankedHead(s: string)
    requires s != ""
    ensures Blanked(s) == [if s[0] == '\n' then '\n' else ' '] + Blanked(s[1..])
  {
  }

  lemma {:induction false} BlankedConcat(a: string, b: string)
    ensures Blanked(a + b) == Blanked(a) + Blanked(b)
  {
    if a == "" {
      assert a + b == b;
    } else {
      hide *;
      BlankedConcat(a[1..], b);
      assert (a + b)[1..] == a[1..] + b && (a + b)[0] == a[0];
      BlankedHead(a);
      BlankedHead(a + b);
      var head := [if a[0] == '\n' then '\n' else ' '];
      ConcatAssoc(head, Blanked(a[1..]), Blanked(b));
    }
  }

  lemma {:induction false} MaskPair(x: string, rest: string, st: State, next: State)
    requires |x| == 2 && Step(x + rest, 0, st) == Token("  ", next)
    ensures MaskFrom(x + rest, 0, st) == "  " + MaskFrom(rest, 0, next)
  {
    MaskHead(x, rest, st, "  ", next);
  }

  lemma Delimiters(rest: string, depth: nat)
    ensures Step("/*" + rest, 0, Normal) == Token("  ", Block(1))
    ensures Step("//" + rest, 0, Normal) == Token("  ", Line)
    ensures Step("\"" + rest, 0, Normal) == Token(" ", Str)
    ensures Step("/*" + rest, 0, Block(depth)) == Token("  ", Block(depth + 1))
    ensures Step("*/" + rest, 0, Block(depth)) == Token("  ", if depth <= 1 then Normal else Block(depth - 1))
  {
  }

  /** A block body, nested comments included, is blanked and comes back to its own depth. */
  lemma {:induction false} MaskBlock(body: BlockBody, rest: string, depth: nat)
    requires body.Ok() && depth >= 1
    ensures MaskFrom(body.Text() + rest, 0, Block(depth)) == Blanked(body.Text()) + MaskFrom(rest, 0, Block(depth))
  {
    hide MaskFrom, Step, Undelimited;
    match body
    case End =>
      assert body.Text() + rest == rest;
    case Chars(text, more) =>
      MaskBlock(more, rest, depth);
      MaskRun(text, more.Text() + rest, depth);
      BlankedConcat(text, more.Text());
      ConcatAssoc(text, more.Text(), rest);
      ConcatAssoc(Blanked(text), Blanked(more.Text()), MaskFrom(rest, 0, Block(depth)));
    case Nested(inner, more) =>
      var close := "*/" + (more.Text() + rest);
      var tail := MaskFrom(rest, 0, Block(depth));
      MaskBlock(more, rest, depth);
      Delimiters(more.Text() + rest, depth + 1);
      MaskPair("*/", more.Text() + rest, Block(depth + 1), Block(depth));
      MaskBlock(inner, close, depth + 1);
      Delimiters(inner.Text() + close, depth);
      MaskPair("/*", inner.Text() + close, Block(depth), Block(depth + 1));
      NestedText(inner.Text(), more.Text(), rest);
      NestedBlank(inner.Text(), more.Text(), tail);
  }

  lemma NestedText(inner: string, more: string, rest: string)
    ensures ("/*" + (inner + ("*/" + more))) + rest == "/*" + (inner + ("*/" + (more + rest)))
  {
    ConcatAssoc("*/", more, rest);
    ConcatAssoc(inner, "*/" + more, rest);
    ConcatAssoc("/*", inner + ("*/" + more), rest);
  }

  lemma {:induction false} NestedBlank(inner: string, more: string, tail: string)
    ensures Blanked("/*" + (inner + ("*/" + more))) + tail
            == "  " + (Blanked(inner) + ("  " + (Blanked(more) + tail)))
  {
    BlankedConcat("/*", inner + ("*/" + more));
    BlankedConcat(inner, "*/" + more);
    BlankedConcat("*/", more);
    assert Blanked("/*") == "  " && Blanked("*/") == "  ";
    ConcatAssoc("  ", Blanked(more), tail);
    ConcatAssoc(Blanked(inner), "  " + Blanked(more), tail);
    ConcatAssoc("  ", Blanked(inner) + ("  " + Blanked(more)), tail);
  }

  lemma {:induction false} MaskPiece(p: Piece, rest: string)
    requires p.Ok()
    ensures MaskFrom(p.Text() + rest, 0, Normal) == p.Masked() + MaskFrom(rest, 0, Normal)
  {
    var tail := MaskFrom(rest, 0, Normal);
    match p
    case Code(text) =>
      MaskCode(text, rest);
    case LineComment(text) =>
      MaskLine(text, rest);
      Delimiters(text + ("\n" + rest), 0);
      MaskPair("//", text + ("\n" + rest), Normal, Line);
      ThreeParts("//", text, "\n", rest);
      ThreeParts("  ", Blanks(|text|), "\n", tail);
    case BlockComment(body) =>
      Delimiters(rest, 1);
      MaskPair("*/", rest, Block(1), Normal);
      MaskBlock(body, "*/" + rest, 1);
      Delimiters(body.Text() + ("*/" + rest), 0);
      MaskPair("/*", body.Text() + ("*/" + rest), Normal, Block(1));
      ThreeParts("/*", body.Text(), "*/", rest);
      ThreeParts("  ", Blanked(body.Text()), "  ", tail);
    case Literal(body) =>
      MaskLiteral(body, rest);
      Delimiters(body + ("\"" + rest), 0);
      MaskHead("\"", body + ("\"" + rest), Normal, " ", Str);
      ThreeParts("\"", body, "\"", rest);
      ThreeParts(" ", Blanks(|body|), " ", tail);
  }

  lemma ThreeParts(a: string, b: string, c: string, rest: string)
    ensures (a + (b + c)) + rest == a + (b + (c + rest))
  {
    ConcatAssoc(b, c, rest);
    ConcatAssoc(a, b + c, rest);
  }

  lemma {:induction false} MaskOpenLine(text: string)
    requires '\n' !in text
    ensures MaskFrom(text, 0, Line) == Blanks(|text|)
  {
    if text == "" {
    } else {
      var head, tail := text[..1], text[1..];
      assert text == head + tail && text[0] in text;
      MaskOpenLine(tail);
      MaskHead(head, tail, Line, " ", Line);
    }
  }

  lemma {:induction false} MaskOpenLiteral(inside: string)
    requires NeverClosed(inside)
    ensures MaskFrom(inside, 0, Str) == Blanks(|inside|)
    decreases |inside|
  {
    if inside == "" {
    } else {
      var n := if inside[0] == '\\' && |inside| > 1 then 2 else 1;
      var head, tail := inside[..n], inside[n..];
      assert inside == head + tail;
      MaskOpenLiteral(tail);
      MaskHead(head, tail, Str, Blanks(n), Str);
      assert Blanks(|inside|) == Blanks(n) + Blanks(|tail|);
    }
  }

  lemma MaskEnding(end: Ending)
    requires end.Ok()
    ensures Mask(end.Text()) == end.Masked()
  {
    hide MaskFrom, Step, Blanks, Blanked;
    match end
    case Done => NothingMasked();
    case OpenLine(text) =>
      Delimiters(text, 0);
      MaskPair("//", text, Normal, Line);
      MaskOpenLine(text);
    case OpenBlock(body) =>
      Delimiters(body.Text(), 0);
      MaskPair("/*", body.Text(), Normal, Block(1));
      MaskBlock(body, "", 1);
      assert body.Text() + "" == body.Text();
      NothingLeft(Blanked(body.Text()), Block(1));
    case OpenLiteral(inside) =>
      Delimiters(inside, 0);
      MaskHead("\"", inside, Normal, " ", Str);
      MaskOpenLiteral(inside);
  }

  lemma NothingMasked()
    ensures Mask("") == ""
  {
  }

  lemma {:induction false} NothingLeft(shown: string, st: State)
    ensures shown + MaskFrom("", 0, st) == shown
  {
  }

  lemma {:induction false} TextsCons(ps: seq<Piece>)
    requires ps != []
    ensures Texts(ps) == ps[0].Text() + Texts(ps[1..]) && MaskedTexts(ps) == ps[0].Masked() + MaskedTexts(ps[1..])
  {
  }

  lemma {:induction false} MaskIs(s: string)
    ensures Mask(s) == MaskFrom(s, 0, Normal)
  {
  }

  /** A program text of code, line comments, nested block comments and string literals, the last comment or
      literal possibly still open, is shown with exactly its code, and everything else blanked. */
  lemma {:induction false} MaskShowsOnlyCode(ps: seq<Piece>, end: Ending)
    requires end.Ok() && forall i :: 0 <= i < |ps| ==> ps[i].Ok()
    ensures Mask(Texts(ps) + end.Text()) == MaskedTexts(ps) + end.Masked()
  {
    if ps == [] {
      MaskEnding(end);
      assert Texts(ps) + end.Text() == end.Text() && MaskedTexts(ps) + end.Masked() == end.Masked();
    } else {
      hide *;
      TextsCons(ps);
      MaskShowsOnlyCode(ps[1..], end);
      MaskPiece(ps[0], Texts(ps[1..]) + end.Text());
      MaskIs(Texts(ps[1..]) + end.Text());
      MaskIs(ps[0].Text() + (Texts(ps[1..]) + end.Text()));
      ConcatAssoc(ps[0].Text(), Texts(ps[1..]), end.Text());
      ConcatAssoc(ps[0].Masked(), MaskedTexts(ps[1..]), end.Masked());
    }
  }

  // ---- where the mask comes apart ------------------------------------------

  /** What follows the text is masked as if it stood alone, whatever it is. */
  ghost predicate Apart(x: string) {
    exists shown: string :: ShowsAs(x, shown)
  }

  ghost predicate ShowsAs(x: string, shown: string) {
    |shown| == |x| && forall rest :: Mask(x + rest) == shown + Mask(rest)
  }

  /** A continuation whose last character alone is shown, and behind `x` is not. */
  lemma NotApart(x: string, rest: string)
    requires rest != "" && Mask(x + rest)[|x + rest| - 1] != Mask(rest)[|rest| - 1]
    ensures !Apart(x)
  {
    hide Mask;
    if Apart(x) {
      var shown: string :| ShowsAs(x, shown);
      LastOf(shown, Mask(rest));
    }
  }

  lemma LastOf(a: string, b: string)
    requires b != ""
    ensures (a + b)[|a + b| - 1] == b[|b| - 1]
  {
  }

  /** The state in which the lexer leaves a text that it can read without looking at what follows. */
  function Leaves(x: string, i: nat, st: State): Option<State>
    requires i <= |x|
    decreases |x| - i
  {
    if i == |x| then Some(st)
    else if i + 1 == |x| && Waits(x[i], st) then None
    else
      var t := Step(x, i, st);
      Leaves(x, i + |t.shown|, t.next)
  }

  /** The last character of a text may be half of a pair. */
  predicate Waits(c: char, st: State) {
    match st
    case Normal => c == '/'
    case Line => false
    case Block(_) => c == '/' || c == '*'
    case Str => c == '\\'
  }

  lemma SameAhead(x: string, rest: string, i: nat, st: State)
    requires i < |x| && !(i + 1 == |x| && Waits(x[i], st))
    ensures Step(x + rest, i, st) == Step(x, i, st)
  {
    var s := x + rest;
    assert s[i] == x[i];
    assert i + 1 < |x| ==> s[i + 1] == x[i + 1];
  }

  /** Up to that state a continuation makes no difference. */
  lemma {:induction false} LeavesShows(x: string, rest: string, i: nat, st: State) returns (shown: string)
    requires i <= |x| && Leaves(x, i, st).Some?
    ensures shown == ShownBy(x, i, st)
    ensures MaskFrom(x + rest, i, st) == shown + MaskFrom(x + rest, |x|, Leaves(x, i, st).value)
    decreases |x| - i
  {
    hide Step, Waits;
    shown := ShownBy(x, i, st);
    if i == |x| {
    } else {
      var t := Step(x, i, st);
      SameAhead(x, rest, i, st);
      MaskUnfold(x + rest, i, st);
      var more := LeavesShows(x, rest, i + |t.shown|, t.next);
      ConcatAssoc(t.shown, more, MaskFrom(x + rest, |x|, Leaves(x, i, st).value));
    }
  }

  /** What is shown of such a text. */
  function ShownBy(x: string, i: nat, st: State): (r: string)
    requires i <= |x| && Leaves(x, i, st).Some?
    ensures |r| == |x| - i
    decreases |x| - i
  {
    if i == |x| then ""
    else
      var t := Step(x, i, st);
      t.shown + ShownBy(x, i + |t.shown|, t.next)
  }

  lemma {:induction false} MaskBehind(x: string, rest: string)
    requires Leaves(x, 0, Normal).Some?
    ensures Mask(x + rest) == ShownBy(x, 0, Normal) + MaskFrom(rest, 0, Leaves(x, 0, Normal).value)
  {
    hide MaskFrom, Leaves, ShownBy;
    var shown := LeavesShows(x, rest, 0, Normal);
    MaskSuffix(x + rest, |x|, Leaves(x, 0, Normal).value);
    assert (x + rest)[|x|..] == rest;
  }

  /** The state before the last character, where a text ends in what may be half a pair. */
  function BeforeLast(x: string, i: nat, st: State): (r: State)
    requires i <= |x| && Leaves(x, i, st).None?
    ensures i < |x| && Waits(x[|x| - 1], r)
    decreases |x| - i
  {
    if i + 1 == |x| && Waits(x[i], st) then st
    else
      var t := Step(x, i, st);
      BeforeLast(x, i + |t.shown|, t.next)
  }

  lemma {:induction false} HalfPair(x: string, rest: string, i: nat, st: State)
    requires i <= |x| && Leaves(x, i, st).None?
    ensures i < |x|
    ensures MaskFrom(x + rest, |x| - 1, BeforeLast(x, i, st)) == MaskFrom(x + rest, i, st)[|x| - 1 - i..]
    decreases |x| - i
  {
    hide Step, Waits;
    if i + 1 == |x| && Waits(x[i], st) {
    } else {
      var t := Step(x, i, st);
      var j := i + |t.shown|;
      SameAhead(x, rest, i, st);
      MaskUnfold(x + rest, i, st);
      HalfPair(x, rest, j, t.next);
      DropBoth(t.shown, MaskFrom(x + rest, j, t.next), |x| - 1 - i);
    }
  }

  lemma DropBoth(a: string, b: string, n: nat)
    requires |a| <= n <= |a| + |b|
    ensures (a + b)[n..] == b[n - |a|..]
  {
  }

  /** Outside code a letter is blanked. */
  lemma {:induction false} LetterBlanked(st: State)
    ensures st != Normal ==> MaskFrom("x", 0, st) == " "
    ensures Mask("x") == "x" && Mask("/") == "/"
  {
    assert MaskFrom("x", 0, st) == Step("x", 0, st).shown + "";
    assert MaskFrom("x", 0, Normal) == Step("x", 0, Normal).shown + "";
    assert MaskFrom("/", 0, Normal) == Step("/", 0, Normal).shown + "";
  }

  /** And behind half a pair so is a letter, or in code a second slash. */
  lemma {:induction false} BlankedBehind(x: string, st: State)
    requires x != "" && Waits(x[|x| - 1], st)
    ensures var rest := if st == Normal then "/" else "x"; MaskFrom(x + rest, |x| - 1, st)[1] == ' '
  {
    hide MaskFrom;
    var rest := if st == Normal then "/" else "x";
    var s, n := x + rest, |x| - 1;
    assert s[n] == x[n] && s[n + 1] == rest[0] && |s| == n + 2;
    MaskUnfold(s, n, st);
    var t := Step(s, n, st);
    if |t.shown| == 1 {
      MaskUnfold(s, n + 1, t.next);
    }
  }

  /** For every text: what follows it is masked on its own exactly when the lexer leaves it in code. */
  lemma {:induction false} ApartExactly(x: string)
    ensures Apart(x) <==> Leaves(x, 0, Normal) == Some(Normal)
  {
    hide MaskFrom, Leaves, ShownBy, Step, Waits, BeforeLast, Mask;
    var left := Leaves(x, 0, Normal);
    if left == Some(Normal) {
      forall rest ensures Mask(x + rest) == ShownBy(x, 0, Normal) + Mask(rest) {
        MaskBehind(x, rest);
        MaskIs(rest);
      }
      assert ShowsAs(x, ShownBy(x, 0, Normal));
    } else if left.Some? {
      LetterBlanked(left.value);
      MaskBehind(x, "x");
      LastOf(ShownBy(x, 0, Normal), MaskFrom("x", 0, left.value));
      NotApart(x, "x");
    } else {
      var was := BeforeLast(x, 0, Normal);
      var rest := if was == Normal then "/" else "x";
      HalfPair(x, rest, 0, Normal);
      MaskIs(x + rest);
      BlankedBehind(x, was);
      LetterBlanked(was);
      assert MaskFrom(x + rest, |x| - 1, was)[1] == Mask(x + rest)[|x|];
      NotApart(x, rest);
    }
  }

  // ---- literals the lexer does not know ------------------------------------

  /** The inside of a character literal: one character, or a backslash and what it escapes. */
  predicate CharInside(s: string) {
    || (|s| == 1 && s[0] != '\'' && s[0] != '\\')
    || (|s| >= 2 && s[0] == '\\' && forall i :: 2 <= i < |s| ==> s[i] !in "\"\\/*")
  }

  /** A character literal leaves the code behind it alone exactly when it is not a quote, escaped or not;
      and then it is itself shown. */
  lemma CharLiteral(s: string)
    requires CharInside(s)
    ensures Apart("'" + s + "'") <==> '"' !in s
    ensures '"' !in s ==> ShowsAs("'" + s + "'", "'" + s + "'")
  {
    var x := "'" + s + "'";
    if '"' !in s {
      PlainChar(s);
      hide Mask;
      forall rest ensures Mask(x + rest) == x + Mask(rest) {
        MaskIs(rest);
        MaskIs(x + rest);
        MaskCode(x, rest);
      }
      assert ShowsAs(x, x);
    } else {
      var k := if s[0] == '"' then 0 else 1;
      assert s[k] == '"';
      var before, after := "'" + s[..k], s[k + 1..] + "'";
      assert x == before + ("\"" + after);
      assert Code(before).Ok() by { assert before[0] == '\'' && |before| == k + 1; }
      NothingCloses(after + "x");
      hide *;
      HiddenBehind(before, after, x);
    }
  }

  lemma PlainChar(s: string)
    requires CharInside(s) && '"' !in s
    ensures Code("'" + s + "'").Ok()
  {
    var x := "'" + s + "'";
    forall k | 0 <= k < |x| ensures !Opener(x, k) {
      if 1 <= k <= |s| {
        assert x[k] == s[k - 1] && x[k] in s;
      }
    }
  }

  lemma {:induction false} NothingCloses(s: string)
    requires forall i :: 0 <= i < |s| ==> s[i] != '"' && s[i] != '\\'
    ensures NeverClosed(s)
  {
    if s == "" {
    } else {
      NothingCloses(s[1..]);
    }
  }

  /** A quote in code with no quote behind it hides everything up to the end. */
  lemma {:induction false} HiddenBehind(before: string, after: string, x: string)
    requires x == before + ("\"" + after) && Code(before).Ok() && NeverClosed(after + "x")
    ensures !Apart(x)
  {
    hide *;
    QuoteInCode(before, after + "x");
    ConcatAssoc("\"", after, "x");
    ConcatAssoc(before, "\"" + after, "x");
    LetterBlanked(Normal);
    BlankAtEnd(before, |after + "x"|);
    NotApart(x, "x");
  }

  lemma {:induction false} BlankAtEnd(before: string, n: nat)
    requires n > 0
    ensures var s := before + (" " + Blanks(n)); s[|s| - 1] == ' '
  {
  }

  /** A raw string without a quote inside, any code around it ("r", "br#", the closing "#"), leaves the code
      behind it alone exactly when its body would do as the body of an ordinary literal: where every
      backslash has something to escape. */
  lemma {:induction false} RawString(before: string, body: string, after: string)
    requires Code(before).Ok() && Code(after).Ok() && '"' !in body
    ensures var x := before + ("\"" + (body + ("\"" + after)));
            && (Apart(x) <==> Escaped(body))
            && (Escaped(body) ==> ShowsAs(x, before + (" " + (Blanks(|body|) + (" " + after)))))
  {
    hide *;
    var x := before + ("\"" + (body + ("\"" + after)));
    if Escaped(body) {
      RawShown(before, body, after);
      ShownApart(x, before + (" " + (Blanks(|body|) + (" " + after))));
    } else {
      CodeNeverCloses(after);
      StaysOpen(body, after + "x");
      ConcatAssoc("\"", after, "x");
      ConcatAssoc(body, "\"" + after, "x");
      HiddenBehind(before, body + ("\"" + after), x);
    }
  }

  lemma ShownApart(x: string, shown: string)
    requires ShowsAs(x, shown)
    ensures Apart(x)
  {
    hide ShowsAs;
  }

  lemma {:induction false} RawShown(before: string, body: string, after: string)
    requires Code(before).Ok() && Code(after).Ok() && Escaped(body)
    ensures ShowsAs(before + ("\"" + (body + ("\"" + after))), before + (" " + (Blanks(|body|) + (" " + after))))
  {
    hide MaskFrom, Mask, Escaped, Blanks, Opener;
    var x := before + ("\"" + (body + ("\"" + after)));
    var shown := before + (" " + (Blanks(|body|) + (" " + after)));
    forall rest ensures Mask(x + rest) == shown + Mask(rest) {
      var lit := "\"" + (body + "\"");
      FourTexts(before, "\"", body, "\"", after, rest);
      FourTexts(before, " ", Blanks(|body|), " ", after, Mask(rest));
      MaskIs(rest);
      MaskIs(x + rest);
      MaskCode(after, rest);
      assert Literal(body).Text() == lit && Literal(body).Masked() == " " + (Blanks(|body|) + " ");
      MaskPiece(Literal(body), after + rest);
      MaskCode(before, lit + (after + rest));
    }
  }

  lemma FourTexts(a: string, b: string, c: string, d: string, e: string, rest: string)
    ensures a + (b + (c + (d + e))) + rest == a + ((b + (c + d)) + (e + rest))
  {
    ThreeParts(b, c, d, e);
    ConcatAssoc(a, (b + (c + d)) + e, rest);
    ConcatAssoc(b + (c + d), e, rest);
    assert b + (c + (d + e)) == (b + (c + d)) + e;
  }

  lemma {:induction false} CodeNeverCloses(after: string)
    requires Code(after).Ok()
    ensures '"' !in after
  {
    forall k | 0 <= k < |after| ensures after[k] != '"' {
      assert !Opener(after, k);
    }
  }

  /** A body whose last backslash escapes the closing quote. */
  lemma {:induction false} StaysOpen(body: string, rest: string)
    requires '"' !in body && '"' !in rest && !Escaped(body)
    ensures NeverClosed(body + ("\"" + rest))
    decreases |body|
  {
    var s := body + ("\"" + rest);
    assert s[0] == body[0] && body[0] in body;
    if body[0] == '\\' && |body| == 1 {
      assert s[2..] == rest;
      NoQuoteNoClose(rest);
    } else {
      var n := if body[0] == '\\' then 2 else 1;
      assert s[n..] == body[n..] + ("\"" + rest);
      StaysOpen(body[n..], rest);
    }
  }

  lemma {:induction false} NoQuoteNoClose(s: string)
    requires '"' !in s
    ensures NeverClosed(s)
    decreases |s|
  {
    if s == "" {
    } else if s[0] == '\\' && |s| > 1 {
      NoQuoteNoClose(s[2..]);
    } else {
      assert s[0] in s;
      NoQuoteNoClose(s[1..]);
    }
  }

  /** The two shortest ways to go wrong: after the literal of a quote, and after the raw string of a
      backslash, code is hidden for as long as no further quote comes. */
  lemma {:induction false} OtherLiteralsHideCode(code: string)
    requires NeverClosed(code)
    ensures Mask("'\"'" + code) == "' " + Blanks(1 + |code|)
    ensures Mask("r\"\\\"" + code) == "r " + Blanks(2 + |code|)
  {
    hide *;
    StillOpen(code);
    OneChar("'");
    OneChar("r");
    QuoteInCode("'", "'" + code);
    SameText("'", "\"", "'", code);
    SameText("r", "\"", "\\\"", code);
    QuoteInCode("r", "\\\"" + code);
    ConcatAssoc("'", " ", Blanks(1 + |code|));
    ConcatAssoc("r", " ", Blanks(2 + |code|));
    Glued();
  }

  lemma OneChar(s: string)
    requires |s| == 1 && s[0] != '/' && s[0] != '"'
    ensures Code(s).Ok()
  {
  }

  lemma Glued()
    ensures "'" + "\"" + "'" == "'\"'" && "r" + "\"" + "\\\"" == "r\"\\\""
    ensures "'" + " " == "' " && "r" + " " == "r "
  {
  }

  lemma SameText(a: string, b: string, c: string, code: string)
    ensures a + b + c + code == a + (b + (c + code))
  {
  }

  lemma {:induction false} StillOpen(code: string)
    requires NeverClosed(code)
    ensures NeverClosed("'" + code) && NeverClosed("\\\"" + code)
  {
    assert ("'" + code)[1..] == code && ("\\\"" + code)[2..] == code;
  }

  lemma {:induction false} QuoteInCode(before: string, inside: string)
    requires Code(before).Ok() && NeverClosed(inside)
    ensures Mask(before + ("\"" + inside)) == before + (" " + Blanks(|inside|))
  {
    hide Blanks, NeverClosed, Mask, Opener;
    var ps := [Code(before)];
    MaskShowsOnlyCode(ps, OpenLiteral(inside));
    assert ps[1..] == [] && Texts(ps) == before + "" == before && MaskedTexts(ps) == before + "" == before;
  }

  // ---- the braced body -----------------------------------------------------

  datatype CoverageError = MissingItem | MissingBrace | Unclosed

  /** `str.find` from a position. */
  function Find(s: string, pat: string, from: nat): (r: Option<nat>)
    ensures r.Some? ==> from <= r.value && OccursAt(s, pat, r.value)
                        && forall j :: from <= j < r.value ==> !OccursAt(s, pat, j)
    ensures r.None? ==> forall j :: from <= j ==> !OccursAt(s, pat, j)
    decreases |s| + 1 - from
  {
    if from > |s| then None
    else if OccursAt(s, pat, from) then Some(from)
    else Find(s, pat, from + 1)
  }

  /** Opening minus closing braces. */
  function Net(s: string): int {
    if s == "" then 0
    else Net(s[..|s| - 1]) + (if s[|s| - 1] == '{' then 1 else if s[|s| - 1] == '}' then -1 else 0)
  }

  /** `masked[open..close]` is the inside of a brace pair: `close` is where the depth, one after the
      opening brace, first returns to zero. */
  ghost predicate IsBody(masked: string, open: nat, close: nat) {
    && open <= close < |masked| && masked[close] == '}'
    && Net(masked[open..close]) == 0
    && forall k :: open <= k <= close ==> Net(masked[open..k]) >= 0
  }

  ghost predicate HasBody(masked: string, open: nat) {
    exists close :: IsBody(masked, open, close)
  }

  lemma NetPush(s: string, from: nat, to: nat)
    requires from <= to < |s|
    ensures Net(s[from..to + 1])
            == Net(s[from..to]) + (if s[to] == '{' then 1 else if s[to] == '}' then -1 else 0)
  {
    assert s[from..to + 1][..to - from] == s[from..to];
  }

  /** There is at most one body after an opening brace. */
  lemma BodyIsUnique(masked: string, open: nat, a: nat, b: nat)
    requires IsBody(masked, open, a) && IsBody(masked, open, b)
    ensures a == b
  {
    NetPush(masked, open, a);
    NetPush(masked, open, b);
  }

  /** The body of the first brace pair after the marker in the masked text: found exactly when the
      marker, a brace after it and a matching close exist. */
  method BracedBody(source: string, marker: string) returns (r: Result<string, CoverageError>)
    ensures
      var masked := Mask(source);
      var at := Find(masked, marker, 0);
      if at.None? then r == Err(MissingItem) else
      var open := Find(masked, "{", at.value + |marker|);
      if open.None? then r == Err(MissingBrace) else
      if HasBody(masked, open.value + 1)
      then r.Ok? && IsBody(masked, open.value + 1, open.value + 1 + |r.value|)
           && r.value == masked[open.value + 1..open.value + 1 + |r.value|]
      else r == Err(Unclosed)
  {
    hide Mask, Net;
    var masked := MaskSource(source);
    var at := Find(masked, marker, 0);
    if at.None? {
      return Err(MissingItem);
    }
    var opening := Find(masked, "{", at.value + |marker|);
    if opening.None? {
      return Err(MissingBrace);
    }
    var open := opening.value + 1;
    var close := CloseOf(masked, open);
    if close.None? {
      return Err(Unclosed);
    }
    r := Ok(masked[open..close.value]);
  }

  /** The depth count from just behind the opening brace. */
  method CloseOf(masked: string, open: nat) returns (close: Option<nat>)
    requires open <= |masked|
    ensures close.Some? ==> IsBody(masked, open, close.value)
    ensures close.None? ==> !HasBody(masked, open)
  {
    var depth := 1;
    var i: nat := open;
    while i < |masked| && depth != 0
      invariant open <= i <= |masked| && depth == 1 + Net(masked[open..i])
      invariant depth != 0 ==> forall k :: open <= k <= i ==> Net(masked[open..k]) >= 0
      invariant depth == 0 ==> i > open && IsBody(masked, open, i - 1)
    {
      NetPush(masked, open, i);
      if masked[i] == '{' {
        depth := depth + 1;
      } else if masked[i] == '}' {
        depth := depth - 1;
      }
      i := i + 1;
    }
    if depth != 0 {
      forall c | IsBody(masked, open, c) ensures false {
        NetPush(masked, open, c);
      }
      return None;
    }
    close := Some(i - 1);
  }

  // ---- what a body is made of ----------------------------------------------

  function Brace(c: char): int {
    if c == '{' then 1 else if c == '}' then -1 else 0
  }

  /** The depth behind a text entered at a depth, none once more is closed than was open. */
  function DepthAfter(s: string, depth: nat): Option<nat> {
    if s == "" then Some(depth)
    else
      match DepthAfter(s[..|s| - 1], depth)
      case None => None
      case Some(d) => if d + Brace(s[|s| - 1]) < 0 then None else Some(d + Brace(s[|s| - 1]))
  }

  predicate Balanced(s: string) {
    DepthAfter(s, 0) == Some(0)
  }

  lemma {:induction false} DepthConcat(a: string, b: string, depth: nat)
    ensures DepthAfter(a + b, depth)
            == match DepthAfter(a, depth) case None => None case Some(d) => DepthAfter(b, d)
  {
    if b == "" {
      assert a + b == a;
    } else {
      DepthConcat(a, b[..|b| - 1], depth);
      assert (a + b)[..|a + b| - 1] == a + b[..|b| - 1];
    }
  }

  lemma {:induction false} NoBraces(s: string, depth: nat)
    requires '{' !in s && '}' !in s
    ensures DepthAfter(s, depth) == Some(depth)
  {
    if s == "" {
    } else {
      assert s[|s| - 1] in s;
      NoBraces(s[..|s| - 1], depth);
    }
  }

  lemma {:induction false} DepthIsNet(s: string)
    ensures DepthAfter(s, 0).Some? <==> forall j :: 0 <= j <= |s| ==> Net(s[..j]) >= 0
    ensures DepthAfter(s, 0).Some? ==> DepthAfter(s, 0).value == Net(s)
  {
    if s == "" {
    } else {
      var n := |s| - 1;
      DepthIsNet(s[..n]);
      assert s[..|s|] == s;
      forall j | 0 <= j <= n ensures s[..n][..j] == s[..j] {
      }
      if forall j :: 0 <= j <= |s| ==> Net(s[..j]) >= 0 {
        assert Net(s[..|s|]) >= 0;
        forall j | 0 <= j <= n ensures Net(s[..n][..j]) >= 0 {
          assert Net(s[..j]) >= 0;
        }
      }
      if DepthAfter(s, 0).Some? {
        forall j | 0 <= j <= |s| ensures Net(s[..j]) >= 0 {
          if j <= n {
            assert Net(s[..n][..j]) >= 0;
          }
        }
      }
    }
  }

  /** The code of a text, without its comments and literals. */
  function CodeOf(ps: seq<Piece>): string {
    if ps == [] then "" else (if ps[0].Code? then ps[0].text else "") + CodeOf(ps[1..])
  }

  lemma {:induction false} BlankedPlain(s: string)
    ensures '{' !in Blanked(s) && '}' !in Blanked(s)
  {
    if s == "" {
    } else {
      BlankedPlain(s[1..]);
    }
  }

  lemma HiddenPlain(p: Piece)
    requires !p.Code?
    ensures '{' !in p.Masked() && '}' !in p.Masked()
  {
    if p.BlockComment? {
      BlankedPlain(p.body.Text());
    }
  }

  /** Braces in comments and string literals do not count. */
  lemma {:induction false} OnlyCodeCounts(ps: seq<Piece>, depth: nat)
    ensures DepthAfter(MaskedTexts(ps), depth) == DepthAfter(CodeOf(ps), depth)
    decreases |ps|
  {
    if ps == [] {
    } else {
      hide DepthAfter;
      var code := if ps[0].Code? then ps[0].text else "";
      DepthConcat(ps[0].Masked(), MaskedTexts(ps[1..]), depth);
      DepthConcat(code, CodeOf(ps[1..]), depth);
      if !ps[0].Code? {
        HiddenPlain(ps[0]);
        NoBraces(ps[0].Masked(), depth);
        NoBraces("", depth);
      }
      var d := DepthAfter(code, depth);
      if d.Some? {
        OnlyCodeCounts(ps[1..], d.value);
      }
    }
  }

  lemma {:induction false} PiecesMasked(ps: seq<Piece>, rest: string)
    requires forall i :: 0 <= i < |ps| ==> ps[i].Ok()
    ensures Mask(Texts(ps) + rest) == MaskedTexts(ps) + Mask(rest)
    decreases |ps|
  {
    if ps == [] {
      assert Texts(ps) + rest == rest && MaskedTexts(ps) + Mask(rest) == Mask(rest);
    } else {
      hide *;
      TextsCons(ps);
      PiecesMasked(ps[1..], rest);
      MaskPiece(ps[0], Texts(ps[1..]) + rest);
      MaskIs(Texts(ps[1..]) + rest);
      MaskIs(ps[0].Text() + (Texts(ps[1..]) + rest));
      ConcatAssoc(ps[0].Text(), Texts(ps[1..]), rest);
      ConcatAssoc(ps[0].Masked(), MaskedTexts(ps[1..]), Mask(rest));
    }
  }

  lemma {:induction false} BraceMasked(c: char, rest: string)
    requires c == '{' || c == '}'
    ensures Mask([c] + rest) == [c] + Mask(rest)
  {
    MaskIs(rest);
    MaskIs([c] + rest);
    assert Code([c]).Ok();
    MaskCode([c], rest);
  }

  /** Code, comments and string literals between two braces: they are the body of the opening brace exactly
      when the code alone is balanced; and the body then shows that code, with everything else blanked. */
  lemma {:induction false} BodyOfPieces(before: string, shown: string, ps: seq<Piece>, after: string)
    requires ShowsAs(before, shown) && forall i :: 0 <= i < |ps| ==> ps[i].Ok()
    ensures var masked := Mask(before + ("{" + (Texts(ps) + ("}" + after))));
            var open, size := |before| + 1, |MaskedTexts(ps)|;
            && open + size < |masked| && masked[open..open + size] == MaskedTexts(ps)
            && (IsBody(masked, open, open + size) <==> Balanced(CodeOf(ps)))
  {
    hide *;
    var inner := "{" + (Texts(ps) + ("}" + after));
    var body := MaskedTexts(ps);
    ShownThen(before, shown, inner);
    BraceMasked('{', Texts(ps) + ("}" + after));
    PiecesMasked(ps, "}" + after);
    BraceMasked('}', after);
    OnlyCodeCounts(ps, 0);
    BalancedIs(body, CodeOf(ps));
    BodyBetween(shown, body, Mask(after));
  }

  lemma {:induction false} BalancedIs(a: string, b: string)
    requires DepthAfter(a, 0) == DepthAfter(b, 0)
    ensures Balanced(a) <==> Balanced(b)
  {
  }

  lemma ShownThen(x: string, shown: string, rest: string)
    requires ShowsAs(x, shown)
    ensures Mask(x + rest) == shown + Mask(rest) && |x| == |shown|
  {
    hide Mask;
  }

  lemma {:induction false} BodyBetween(head: string, body: string, tail: string)
    ensures var masked := head + ("{" + (body + ("}" + tail)));
            var open := |head| + 1;
            && open + |body| < |masked| && masked[open..open + |body|] == body
            && (IsBody(masked, open, open + |body|) <==> Balanced(body))
  {
    hide Net, DepthAfter;
    var masked := head + ("{" + (body + ("}" + tail)));
    var open := |head| + 1;
    var close := open + |body|;
    assert masked[open..close] == body && masked[close] == '}';
    assert body[..|body|] == body;
    DepthIsNet(body);
    forall k | open <= k <= close ensures masked[open..k] == body[..k - open] {
    }
    if IsBody(masked, open, close) {
      forall j | 0 <= j <= |body| ensures Net(body[..j]) >= 0 {
        assert Net(masked[open..open + j]) >= 0;
      }
    } else if Balanced(body) {
      forall k | open <= k <= close ensures Net(masked[open..k]) >= 0 {
        assert Net(body[..k - open]) >= 0;
      }
    }
  }
}
