/** Loot narration text: the line grammar and the money phrase
    (`seq-backend-eql/src/loot_track.rs`, the pure text functions). */
module LootText {
  import opened Prelude

  // ---- string primitives ---------------------------------------------------

  /** Unicode `White_Space`, which is what `str::trim` strips. */
  predicate IsWhite(c: char) {
    var n := c as int;
    9 <= n <= 13 || n == 0x20 || n == 0x85 || n == 0xA0 || n == 0x1680 || 0x2000 <= n <= 0x200A
    || n == 0x2028 || n == 0x2029 || n == 0x202F || n == 0x205F || n == 0x3000
  }

  function TrimStart(s: string): string {
    if s != "" && IsWhite(s[0]) then TrimStart(s[1..]) else s
  }

  function TrimEnd(s: string): (r: string)
    ensures r <= s
  {
    if s != "" && IsWhite(s[|s| - 1]) then TrimEnd(s[..|s| - 1]) else s
  }

  function Trim(s: string): string {
    TrimEnd(TrimStart(s))
  }

  function TrimDots(s: string): (r: string)
    ensures r <= s
  {
    if s != "" && s[|s| - 1] == '.' then TrimDots(s[..|s| - 1]) else s
  }

  function StripPrefix(s: string, p: string): (r: Option<string>)
    ensures r.Some? ==> s == p + r.value
  {
    if p <= s then Some(s[|p|..]) else None
  }

  function StripSuffix(s: string, p: string): (r: Option<string>)
    ensures r.Some? ==> s == r.value + p
  {
    if |p| <= |s| && s[|s| - |p|..] == p then Some(s[..|s| - |p|]) else None
  }

  ghost predicate Contains(s: string, pat: string) {
    exists i: nat :: OccursAt(s, pat, i)
  }

  /** The last occurrence of `pat` that starts at or before `n`. */
  function RFindUpTo(s: string, pat: string, n: nat): (r: Option<nat>)
    ensures r.Some? ==> r.value <= n && OccursAt(s, pat, r.value)
                        && forall j :: r.value < j <= n ==> !OccursAt(s, pat, j)
    ensures r.None? ==> forall j :: 0 <= j <= n ==> !OccursAt(s, pat, j)
  {
    if OccursAt(s, pat, n) then Some(n)
    else if n == 0 then None
    else RFindUpTo(s, pat, n - 1)
  }

  /** `str::rfind`. */
  function RFind(s: string, pat: string): (r: Option<nat>)
    ensures r.Some? ==> OccursAt(s, pat, r.value) && forall j :: r.value < j ==> !OccursAt(s, pat, j)
    ensures r.None? ==> forall j: nat :: !OccursAt(s, pat, j)
  {
    RFindUpTo(s, pat, |s|)
  }

  // ---- numbers -------------------------------------------------------------

  predicate IsDigit(c: char) {
    '0' <= c <= '9'
  }

  predicate AllDigits(s: string) {
    forall i :: 0 <= i < |s| ==> IsDigit(s[i])
  }

  function DigitValue(c: char): nat
    requires IsDigit(c)
  {
    c as int - '0' as int
  }

  function DecimalValue(s: string): nat
    requires AllDigits(s)
  {
    if s == "" then 0 else 10 * DecimalValue(s[..|s| - 1]) + DigitValue(s[|s| - 1])
  }

  /** `str::parse::<u32>`: an optional plus sign, at least one digit, no overflow. */
  function ParseU32(s: string): Option<u32> {
    var d := if s != "" && s[0] == '+' then s[1..] else s;
    if d != "" && AllDigits(d) && DecimalValue(d) <= U32_MAX
    then Some(DecimalValue(d))
    else None
  }

  function Decimal(n: nat): (r: string)
    ensures r != ""
    ensures AllDigits(r)
  {
    var last := ['0' + (n % 10) as char];
    if n < 10 then last else Decimal(n / 10) + last
  }

  lemma {:induction false} DecimalRoundTrip(n: nat)
    ensures DecimalValue(Decimal(n)) == n
  {
    if n >= 10 {
      DecimalRoundTrip(n / 10);
      assert Decimal(n)[..|Decimal(n)| - 1] == Decimal(n / 10);
    } else {
      assert Decimal(n)[..0] == "";
    }
  }

  /** A number in decimal parses to itself, with a plus sign or without, unless it is too large. */
  lemma {:induction false} DecimalParses(n: nat)
    ensures ParseU32(Decimal(n)) == ParseU32("+" + Decimal(n)) == if n <= 0xFFFF_FFFF then Some(n) else None
  {
    DecimalRoundTrip(n);
    assert ("+" + Decimal(n))[1..] == Decimal(n);
    hide Decimal, DecimalValue;
  }

  // ---- the loot line -------------------------------------------------------

  datatype ParsedLootLine = ParsedLootLine(
    item: string, qty: u32, mob: string, sold: bool, disposition: string, moneyCopper: u32)

  datatype Outcome = Outcome(sold: bool, disposition: string, moneyCopper: u32)

  const CORPSE_MARK := "'s corpse"
  const FROM := " from "

  function ParseLootLine(text: string): (r: Option<ParsedLootLine>)
    ensures r.Some? ==> r.value.item != "" && r.value.mob != ""
  {
    match LineBody(text)
    case None => None
    case Some(b) => ParseBody(b.text, b.kept)
  }

  datatype Body = Body(text: string, kept: bool)

  /** The two families of lines, without their lead-in; `kept` marks the "--...--" form. */
  function LineBody(text: string): Option<Body> {
    var t := Trim(text);
    match StripPrefix(t, "--You have looted ")
    case Some(rest) =>
      (match StripSuffix(rest, "--")
       case Some(body) => Some(Body(TrimEnd(body), true))
       case None => None)
    case None =>
      match StripPrefix(t, "You looted ")
      case Some(body) => Some(Body(body, false))
      case None => None
  }

  /** The part between the lead-in and the end of the line; a kept line skips its tail. */
  function ParseBody(body: string, kept: bool): (r: Option<ParsedLootLine>)
    ensures r.Some? ==> r.value.item != "" && r.value.mob != ""
  {
    var mark := RFind(body, CORPSE_MARK);
    if mark.None? then None else
    var head, tail := body[..mark.value], body[mark.value + |CORPSE_MARK|..];
    var from := RFind(head, FROM);
    if from.None? then None else
    var mob := head[from.value + |FROM|..];
    var (qty, item) := SplitLeadingCount(head[..from.value]);
    if mob == "" || item == "" then None else
    var outcome := if kept then Some(Outcome(false, "inventory", 0)) else ClassifyTail(tail);
    match outcome
    case None => None
    case Some(o) => Some(ParsedLootLine(item, qty, mob, o.sold, o.disposition, o.moneyCopper))
  }

  function ClassifyTail(tail: string): Option<Outcome> {
    var t := TrimDots(tail);
    if " and sold it for " <= t then
      Some(Outcome(true, "sold", MoneyCopper(t[|" and sold it for "|..])))
    else if " and stored it in " <= t then
      var dest := t[|" and stored it in "|..];
      var named := if "your " <= dest then dest[|"your "|..] else dest;
      Some(Outcome(false, Trim(named), 0))
    else if " to create " <= t then Some(Outcome(false, "created", 0))
    else if t == " and destroyed it" then Some(Outcome(false, "destroyed", 0))
    else if t == " and dropped it" || t == " and dropped it on the ground" then
      Some(Outcome(false, "dropped", 0))
    else if t == "" then Some(Outcome(false, "inventory", 0))
    else None
  }

  function SplitLeadingCount(s: string): (u32, string) {
    var t := Trim(s);
    match IndexOf(t, ' ')
    case None => (1, t)
    case Some(i) =>
      var first, rest := t[..i], t[i + 1..];
      match ParseU32(first)
      case Some(n) => (n, Trim(rest))
      case None => if first == "a" || first == "an" then (1, Trim(rest)) else (1, t)
  }

  // ---- the loot line, read back --------------------------------------------

  /** How the line introduces the item: a number, an article, or nothing. */
  datatype CountPhrase = Number(n: u32) | A | An | Bare {
    function Text(): string {
      match this
      case Number(n) => Decimal(n)
      case A => "a"
      case An => "an"
      case Bare => ""
    }

    function Intro(): string {
      if Bare? then "" else Text() + " "
    }

    function Quantity(): u32 {
      if Number? then n else 1
    }
  }

  /** Non-empty, with no white space at either end. */
  predicate Trimmed(s: string) {
    s != "" && !IsWhite(s[0]) && !IsWhite(s[|s| - 1])
  }

  /** The first word, if another follows, is neither a number nor an article. */
  predicate Uncounted(item: string) {
    match IndexOf(item, ' ')
    case None => true
    case Some(i) => ParseU32(item[..i]).None? && item[..i] != "a" && item[..i] != "an"
  }

  /** The two ways a line can mislead: the mob brings a " from " of its own, or nothing stands before an
      item whose first word looks like a count. */
  ghost predicate Unambiguous(count: CountPhrase, item: string, mob: string) {
    !Contains(" " + mob, FROM) && (count.Bare? ==> Uncounted(item))
  }

  function Head(count: CountPhrase, item: string, mob: string): string {
    count.Intro() + item + FROM + mob
  }

  function AutoLine(count: CountPhrase, item: string, mob: string, tail: string): string {
    "You looted " + Head(count, item, mob) + CORPSE_MARK + tail
  }

  function KeptLine(count: CountPhrase, item: string, mob: string, tail: string): string {
    "--You have looted " + Head(count, item, mob) + CORPSE_MARK + tail + "--"
  }

  lemma {:induction false} TrimEndSplit(a: string, b: string)
    requires a != "" && !IsWhite(a[|a| - 1])
    ensures TrimEnd(a + b) == a + TrimEnd(b)
  {
    if b == "" {
      assert a + b == a;
    } else {
      var n := |a + b| - 1;
      assert (a + b)[..n] == a + b[..|b| - 1] && (a + b)[n] == b[|b| - 1];
      if IsWhite(b[|b| - 1]) {
        TrimEndSplit(a, b[..|b| - 1]);
      }
    }
  }

  lemma TrimmedStays(s: string)
    requires Trimmed(s)
    ensures Trim(s) == s
  {
  }

  lemma CountTextPlain(count: CountPhrase)
    requires !count.Bare?
    ensures var c := count.Text();
            c != "" && !IsWhite(c[0]) && (forall i :: 0 <= i < |c| ==> c[i] != ' ')
    ensures match count
            case Number(n) => ParseU32(count.Text()) == Some(n)
            case _ => ParseU32(count.Text()) == None
  {
    if count.Number? {
      DecimalParses(count.n);
    }
  }

  lemma CountedReadsBack(count: CountPhrase, item: string)
    requires Trimmed(item) && !count.Bare?
    ensures SplitLeadingCount(count.Text() + " " + item) == (count.Quantity(), item)
  {
    hide IsWhite, ParseU32, Decimal;
    var c := count.Text();
    var t := c + " " + item;
    CountTextPlain(count);
    assert t[0] == c[0];
    assert t[|t| - 1] == item[|item| - 1];
    TrimmedStays(t);
    assert forall j :: 0 <= j < |c| ==> t[j] == c[j];
    IndexOfIs(t, ' ', |c|);
    assert t[..|c|] == c && t[|c| + 1..] == item;
    TrimmedStays(item);
  }

  lemma TrimShortens(s: string)
    ensures |Trim(s)| <= |s|
  {
    TrimStartShortens(s);
  }

  lemma {:induction false} TrimStartShortens(s: string)
    ensures |TrimStart(s)| <= |s|
  {
    if s == "" || !IsWhite(s[0]) {
    } else {
      TrimStartShortens(s[1..]);
    }
  }

  /** With nothing before it an item is left whole exactly when its first word is no count and no article. */
  lemma BareReadsBack(item: string)
    requires Trimmed(item)
    ensures SplitLeadingCount(item) == (1, item) <==> Uncounted(item)
  {
    hide IsWhite, ParseU32, Trim;
    TrimmedStays(item);
    var i := IndexOf(item, ' ');
    if i.Some? {
      TrimShortens(item[i.value + 1..]);
    }
  }

  /** A leading number or article is split off; what a bare item loses is lost exactly when it is not
      `Uncounted`. */
  lemma CountReadsBack(count: CountPhrase, item: string)
    requires Trimmed(item)
    ensures SplitLeadingCount(count.Intro() + item) == (count.Quantity(), item)
            <==> (count.Bare? ==> Uncounted(item))
  {
    hide *;
    IntroIs(count);
    if count.Bare? {
      assert "" + item == item;
      BareReadsBack(item);
    } else {
      CountedReadsBack(count, item);
    }
  }

  lemma IntroIs(count: CountPhrase)
    ensures count.Intro() == if count.Bare? then "" else count.Text() + " "
    ensures count.Bare? ==> count.Quantity() == 1
  {
  }

  /** In `pre + pat + post` the occurrence after `pre` is the last one exactly when the pattern
      does not come again later. */
  lemma LastOccurrence(pre: string, pat: string, post: string)
    requires pat != ""
    requires forall k :: 0 < k <= |post| ==> !OccursAt(pat + post, pat, k)
    ensures RFind(pre + pat + post, pat) == Some(|pre|)
  {
    var s := pre + pat + post;
    assert s[|pre|..|pre| + |pat|] == pat;
    assert OccursAt(s, pat, |pre|);
    var r := RFind(s, pat).value;
    if r > |pre| {
      assert s[r..r + |pat|] == (pat + post)[r - |pre|..r - |pre| + |pat|];
      assert OccursAt(pat + post, pat, r - |pre|);
    }
  }

  lemma MarkIsLast(head: string, tail: string)
    requires !Contains(tail, CORPSE_MARK)
    ensures RFind(head + CORPSE_MARK + tail, CORPSE_MARK) == Some(|head|)
  {
    forall k | 0 < k <= |tail| ensures !OccursAt(CORPSE_MARK + tail, CORPSE_MARK, k) {
      if OccursAt(CORPSE_MARK + tail, CORPSE_MARK, k) {
        assert (CORPSE_MARK + tail)[k] == CORPSE_MARK[0];
        if k >= |CORPSE_MARK| {
          var i := k - |CORPSE_MARK|;
          assert tail[i..i + |CORPSE_MARK|] == (CORPSE_MARK + tail)[k..k + |CORPSE_MARK|];
          assert OccursAt(tail, CORPSE_MARK, i);
        }
      }
    }
    LastOccurrence(head, CORPSE_MARK, tail);
  }

  /** The mob reads back exactly when " " + mob does not itself contain " from ". */
  lemma FromIsLast(item: string, mob: string)
    ensures RFind(item + FROM + mob, FROM) == Some(|item|) <==> !Contains(" " + mob, FROM)
    ensures RFind(item + FROM + mob, FROM).Some? && RFind(item + FROM + mob, FROM).value >= |item|
  {
    var s := item + FROM + mob;
    assert s[|item|..|item| + |FROM|] == FROM;
    assert OccursAt(s, FROM, |item|);
    if Contains(" " + mob, FROM) {
      var i: nat :| OccursAt(" " + mob, FROM, i);
      var at := |item| + |FROM| - 1 + i;
      assert s[at..at + |FROM|] == (" " + mob)[i..i + |FROM|];
      assert OccursAt(s, FROM, at);
    } else {
      forall k | 0 < k <= |mob| ensures !OccursAt(FROM + mob, FROM, k) {
        if OccursAt(FROM + mob, FROM, k) {
          assert (FROM + mob)[k] == FROM[0];
          if k >= |FROM| - 1 {
            var i := k - (|FROM| - 1);
            assert (" " + mob)[i..i + |FROM|] == (FROM + mob)[k..k + |FROM|];
            assert OccursAt(" " + mob, FROM, i);
          }
        }
      }
      LastOccurrence(item, FROM, mob);
    }
  }

  /** What a body parses to, for any count phrase, item and tail. */
  lemma BodyReadsBack(count: CountPhrase, item: string, mob: string, tail: string, kept: bool)
    requires Trimmed(item) && mob != "" && !Contains(tail, CORPSE_MARK)
    requires kept || ClassifyTail(tail).Some?
    ensures
      var o := if kept then Outcome(false, "inventory", 0) else ClassifyTail(tail).value;
      var r := ParseBody(Head(count, item, mob) + CORPSE_MARK + tail, kept);
      r == Some(ParsedLootLine(item, count.Quantity(), mob, o.sold, o.disposition, o.moneyCopper))
      <==> Unambiguous(count, item, mob)
  {
    hide *;
    var ci := count.Intro() + item;
    var head := ci + FROM + mob;
    HeadIs(count, item, mob);
    MarkIsLast(head, tail);
    FromIsLast(ci, mob);
    CountReadsBack(count, item);
    BodyUnfolds(ci, mob, tail, kept);
    UnambiguousIs(count, item, mob);
    ItemNotEmpty(item);
  }

  lemma HeadIs(count: CountPhrase, item: string, mob: string)
    ensures Head(count, item, mob) == count.Intro() + item + FROM + mob
  {
  }

  lemma UnambiguousIs(count: CountPhrase, item: string, mob: string)
    ensures Unambiguous(count, item, mob) <==> !Contains(" " + mob, FROM) && (count.Bare? ==> Uncounted(item))
  {
  }

  lemma ItemNotEmpty(item: string)
    requires Trimmed(item)
    ensures item != ""
  {
  }

  /** A body split at its mark and at its last " from ": with the right " from " the parser sees the item
      text and the mob, with a later one the mob it sees is too short. */
  lemma BodyUnfolds(ci: string, mob: string, tail: string, kept: bool)
    requires mob != "" && (kept || ClassifyTail(tail).Some?)
    requires var head := ci + FROM + mob;
             && RFind(head + CORPSE_MARK + tail, CORPSE_MARK) == Some(|head|)
             && RFind(head, FROM).Some? && RFind(head, FROM).value >= |ci|
    ensures var o := if kept then Outcome(false, "inventory", 0) else ClassifyTail(tail).value;
            var head := ci + FROM + mob;
            var r := ParseBody(head + CORPSE_MARK + tail, kept);
            var (qty, item) := SplitLeadingCount(ci);
            if RFind(head, FROM).value == |ci|
            then r == if item == "" then None
                      else Some(ParsedLootLine(item, qty, mob, o.sold, o.disposition, o.moneyCopper))
            else r.Some? ==> r.value.mob != mob
  {
    hide RFind, SplitLeadingCount, ClassifyTail;
    var head := ci + FROM + mob;
    var body := head + CORPSE_MARK + tail;
    assert body[..|head|] == head && body[|head| + |CORPSE_MARK|..] == tail;
    var from := RFind(head, FROM).value;
    if from == |ci| {
      assert head[..from] == ci && head[from + |FROM|..] == mob;
    } else {
      RFindInside(head, FROM);
      assert |head[from + |FROM|..]| < |mob|;
    }
  }

  lemma RFindInside(s: string, pat: string)
    requires RFind(s, pat).Some?
    ensures RFind(s, pat).value + |pat| <= |s|
  {
  }

  lemma {:induction false} TrimTail(a: string, tail: string)
    requires Trimmed(a)
    ensures Trim(a + tail) == a + TrimEnd(tail)
  {
    assert (a + tail)[0] == a[0];
    TrimEndSplit(a, tail);
  }

  lemma PrefixKeepsOut(s: string, r: string, pat: string)
    requires r <= s && !Contains(s, pat)
    ensures !Contains(r, pat)
  {
    forall i: nat | OccursAt(r, pat, i) ensures false {
      assert s[i..i + |pat|] == r[i..i + |pat|];
      assert OccursAt(s, pat, i);
    }
  }

  lemma UnknownTail(head: string, tail: string)
    requires !Contains(tail, CORPSE_MARK) && ClassifyTail(tail).None?
    ensures ParseBody(head + CORPSE_MARK + tail, false) == None
  {
    MarkIsLast(head, tail);
    var body := head + CORPSE_MARK + tail;
    assert body[|head| + |CORPSE_MARK|..] == tail;
  }

  lemma LeadStripped(lead: string, rest: string)
    ensures StripPrefix(lead + rest, lead) == Some(rest)
  {
  }

  lemma OtherLead(s: string, p: string)
    requires s != "" && p != "" && s[0] != p[0]
    ensures StripPrefix(s, p) == None
  {
  }

  lemma EndStripped(s: string, end: string)
    ensures StripSuffix(s + end, end) == Some(s)
  {
    assert (s + end)[|s|..] == end && (s + end)[..|s|] == s;
  }

  lemma {:induction false} TrimAuto(lead: string, head: string, mark: string, tail: string)
    requires lead != "" && !IsWhite(lead[0]) && mark != "" && !IsWhite(mark[|mark| - 1])
    ensures Trim(lead + head + mark + tail) == lead + (head + mark + TrimEnd(tail))
  {
    TrimTail(lead + head + mark, tail);
    ConcatAssoc(lead, head, mark);
    ConcatAssoc(lead, head + mark, TrimEnd(tail));
  }

  lemma {:induction false} TrimKept(lead: string, head: string, mark: string, tail: string, end: string)
    requires lead != "" && !IsWhite(lead[0]) && mark != "" && !IsWhite(mark[|mark| - 1])
    requires end != "" && !IsWhite(end[|end| - 1])
    ensures Trim(lead + head + mark + tail + end) == lead + (head + mark + tail + end)
    ensures TrimEnd(head + mark + tail) == head + mark + TrimEnd(tail)
  {
    var t := lead + head + mark + tail + end;
    assert t[0] == lead[0] && t[|t| - 1] == end[|end| - 1];
    TrimmedStays(t);
    assert t == lead + (head + mark + tail + end);
    assert (head + mark)[|head + mark| - 1] == mark[|mark| - 1];
    TrimEndSplit(head + mark, tail);
  }

  lemma {:induction false} AutoLineBody(head: string, tail: string)
    ensures LineBody("You looted " + head + CORPSE_MARK + tail)
            == Some(Body(head + CORPSE_MARK + TrimEnd(tail), false))
  {
    var lead, kept := "You looted ", "--You have looted ";
    TrimAuto(lead, head, CORPSE_MARK, tail);
    var body := head + CORPSE_MARK + TrimEnd(tail);
    OtherLead(lead + body, kept);
    LeadStripped(lead, body);
  }

  lemma {:induction false} KeptLineBody(head: string, tail: string)
    ensures LineBody("--You have looted " + head + CORPSE_MARK + tail + "--")
            == Some(Body(head + CORPSE_MARK + TrimEnd(tail), true))
  {
    var lead, end := "--You have looted ", "--";
    TrimKept(lead, head, CORPSE_MARK, tail, end);
    var body := head + CORPSE_MARK + tail;
    LeadStripped(lead, body + end);
    EndStripped(body, end);
  }

  /** The auto-loot line gives back its count, item, mob and outcome, whatever else the item contains,
      exactly when it is unambiguous. A tail the classifier does not know makes the whole line
      unrecognised. */
  lemma {:induction false} AutoLineRoundTrip(count: CountPhrase, item: string, mob: string, tail: string)
    requires Trimmed(item) && mob != "" && !Contains(tail, CORPSE_MARK)
    ensures ClassifyTail(TrimEnd(tail)).None? ==> ParseLootLine(AutoLine(count, item, mob, tail)) == None
    ensures
      ClassifyTail(TrimEnd(tail)).Some? ==>
        var o := ClassifyTail(TrimEnd(tail)).value;
        ParseLootLine(AutoLine(count, item, mob, tail))
          == Some(ParsedLootLine(item, count.Quantity(), mob, o.sold, o.disposition, o.moneyCopper))
        <==> Unambiguous(count, item, mob)
  {
    AutoLineBody(Head(count, item, mob), tail);
    PrefixKeepsOut(tail, TrimEnd(tail), CORPSE_MARK);
    if ClassifyTail(TrimEnd(tail)).Some? {
      BodyReadsBack(count, item, mob, TrimEnd(tail), false);
    } else {
      UnknownTail(Head(count, item, mob), TrimEnd(tail));
    }
  }

  /** The kept line ("--You have looted ...--") always lands in the inventory; its tail is skipped. */
  lemma KeptLineRoundTrip(count: CountPhrase, item: string, mob: string, tail: string)
    requires Trimmed(item) && mob != "" && !Contains(tail, CORPSE_MARK)
    ensures ParseLootLine(KeptLine(count, item, mob, tail))
            == Some(ParsedLootLine(item, count.Quantity(), mob, false, "inventory", 0))
            <==> Unambiguous(count, item, mob)
  {
    KeptLineBody(Head(count, item, mob), tail);
    PrefixKeepsOut(tail, TrimEnd(tail), CORPSE_MARK);
    BodyReadsBack(count, item, mob, TrimEnd(tail), true);
  }

  /** What a bare item loses: one that starts with a number is read as that many of the rest. An item named
      "10 Dose X" is ten of "Dose X", whatever the line meant. */
  lemma {:induction false} NumberTaken(n: u32, rest: string, mob: string, tail: string)
    requires Trimmed(rest) && mob != "" && !Contains(tail, CORPSE_MARK) && !Contains(" " + mob, FROM)
    ensures
      ClassifyTail(TrimEnd(tail)).Some? ==>
        var o := ClassifyTail(TrimEnd(tail)).value;
        ParseLootLine(AutoLine(Bare, Decimal(n) + " " + rest, mob, tail))
        == Some(ParsedLootLine(rest, n, mob, o.sold, o.disposition, o.moneyCopper))
  {
    hide *;
    SameLine(n, rest, mob, tail);
    UnambiguousIs(Number(n), rest, mob);
    AutoLineRoundTrip(Number(n), rest, mob, tail);
    QuantityIs(n);
  }

  lemma QuantityIs(n: u32)
    ensures Number(n).Quantity() == n && !Number(n).Bare?
  {
  }

  lemma {:induction false} SameLine(n: u32, rest: string, mob: string, tail: string)
    ensures AutoLine(Bare, Decimal(n) + " " + rest, mob, tail) == AutoLine(Number(n), rest, mob, tail)
  {
    hide Decimal;
    assert "" + (Decimal(n) + " " + rest) == Decimal(n) + " " + rest;
  }

  // ---- money ---------------------------------------------------------------

  predicate IsSeparator(c: char) {
    IsWhite(c) || c == ','
  }

  /** `str::split` on white space and commas, empty pieces included. */
  function Split(s: string): (r: seq<string>)
    ensures |r| >= 1
  {
    if s == "" then [""]
    else if IsSeparator(s[0]) then [""] + Split(s[1..])
    else
      var r := Split(s[1..]);
      [[s[0]] + r[0]] + r[1..]
  }

  function NonEmpty(ws: seq<string>): seq<string> {
    if ws == [] then []
    else NonEmpty(ws[..|ws| - 1]) + if ws[|ws| - 1] == "" then [] else [ws[|ws| - 1]]
  }

  function Words(s: string): seq<string> {
    NonEmpty(Split(s))
  }

  datatype Coin = Platinum | Gold | Silver | Copper {
    function Name(): string {
      match this
      case Platinum => "platinum"
      case Gold => "gold"
      case Silver => "silver"
      case Copper => "copper"
    }

    function Worth(): u32 {
      match this
      case Platinum => 1000
      case Gold => 100
      case Silver => 10
      case Copper => 1
    }

    /** `n` of this coin, in copper. */
    function Times(n: nat): (r: nat)
      ensures r == n * Worth()
    {
      match this
      case Platinum => n * 1000
      case Gold => n * 100
      case Silver => n * 10
      case Copper => n
    }
  }

  function CoinOf(w: string): Option<Coin> {
    if w == "platinum" then Some(Platinum)
    else if w == "gold" then Some(Gold)
    else if w == "silver" then Some(Silver)
    else if w == "copper" then Some(Copper)
    else None
  }

  /** Two neighbouring words are worth something only as a number and then a coin. */
  function PairWorth(a: string, b: string): nat {
    if ParseU32(a).Some? && CoinOf(b).Some? then CoinOf(b).value.Times(ParseU32(a).value) else 0
  }

  /** The true copper total of a word list: the sum over all neighbouring pairs, unbounded. */
  function CopperTotal(ws: seq<string>): nat {
    PairSum(ws, PairWorth)
  }

  function PairSum<T>(ws: seq<T>, worth: (T, T) -> nat): nat {
    if |ws| < 2 then 0
    else PairSum(ws[..|ws| - 1], worth) + worth(ws[|ws| - 2], ws[|ws| - 1])
  }

  function MoneyCopper(text: string): u32 {
    Min(CopperTotal(Words(text)), U32_MAX)
  }

  function SaturatingAdd(a: u32, b: u32): u32 {
    Min(a + b, U32_MAX)
  }

  function SaturatingMul(a: u32, b: u32): u32 {
    Min(a * b, U32_MAX)
  }

  lemma {:induction false} PairSumStep<T>(before: seq<T>, w: T, worth: (T, T) -> nat)
    ensures PairSum(before + [w], worth)
            == PairSum(before, worth) + if before == [] then 0 else worth(before[|before| - 1], w)
  {
    assert (before + [w])[..|before|] == before;
  }

  /** The number that the last word leaves waiting for its coin. */
  function Waiting(ws: seq<string>): Option<u32> {
    if ws == [] then None else ParseU32(ws[|ws| - 1])
  }

  lemma CoinIsNoNumber(w: string)
    requires ParseU32(w).Some?
    ensures CoinOf(w).None?
  {
    assert w[0] in w;
  }

  lemma WordAdded(ws: seq<string>, w: string)
    ensures Waiting(ws + [w]) == ParseU32(w)
    ensures CopperTotal(ws + [w])
            == CopperTotal(ws)
               + if Waiting(ws).Some? && CoinOf(w).Some? then CoinOf(w).value.Times(Waiting(ws).value) else 0
    ensures ParseU32(w).Some? ==> CoinOf(w).None?
  {
    PairSumStep(ws, w, PairWorth);
    if ParseU32(w).Some? {
      CoinIsNoNumber(w);
    }
  }

  lemma SaturatingStep(t: nat, n: u32, worth: u32)
    ensures 0 <= n * worth
    ensures SaturatingAdd(Min(t, U32_MAX), SaturatingMul(n, worth)) == Min(t + n * worth, U32_MAX)
  {
  }

  /** The running loop with its pending number and saturating total. */
  method ParseMoneyToCopper(text: string) returns (total: u32)
    ensures total == Min(CopperTotal(Words(text)), U32_MAX)
  {
    total := 0;
    var pending: Option<u32> := None;
    var pieces := Split(text);
    for i := 0 to |pieces|
      invariant total == Min(CopperTotal(NonEmpty(pieces[..i])), U32_MAX)
      invariant pending == Waiting(NonEmpty(pieces[..i]))
    {
      var w := pieces[i];
      assert pieces[..i + 1][..i] == pieces[..i];
      if w != "" {
        WordAdded(NonEmpty(pieces[..i]), w);
        var n := ParseU32(w);
        if n.Some? {
          pending := n;
        } else if pending.Some? {
          var found := CoinOf(w);
          if found.Some? {
            SaturatingStep(CopperTotal(NonEmpty(pieces[..i])), pending.value, found.value.Worth());
            total := SaturatingAdd(total, SaturatingMul(pending.value, found.value.Worth()));
          }
          pending := None;
        }
        assert NonEmpty(pieces[..i + 1]) == NonEmpty(pieces[..i]) + [w];
      } else {
        assert NonEmpty(pieces[..i + 1]) == NonEmpty(pieces[..i]);
      }
    }
    assert pieces[..|pieces|] == pieces;
  }

  // ---- money, read back ----------------------------------------------------

  datatype Pile = Pile(amount: u32, coin: Coin)

  /** A filler between two piles: starts and ends on a separator, and none of its words is a number
      or a coin (", ", " and ", ", and "). */
  ghost predicate IsFiller(s: string) {
    |s| >= 2 && IsSeparator(s[0]) && IsSeparator(s[|s| - 1])
    && forall w :: w in Words(s[1..|s| - 1]) ==> ParseU32(w).None? && CoinOf(w).None?
  }

  function MoneyText(piles: seq<Pile>, fillers: seq<string>): string
    requires |piles| > 0 && |fillers| == |piles| - 1
  {
    var p := piles[|piles| - 1];
    var last := Decimal(p.amount) + " " + p.coin.Name();
    if |piles| == 1 then last
    else MoneyText(piles[..|piles| - 1], fillers[..|fillers| - 1]) + fillers[|fillers| - 1] + last
  }

  function TrueTotal(piles: seq<Pile>): nat {
    if piles == [] then 0
    else TrueTotal(piles[..|piles| - 1]) + piles[|piles| - 1].coin.Times(piles[|piles| - 1].amount)
  }

  lemma {:induction false} SplitCons(c: char, s: string)
    ensures Split([c] + s)
            == if IsSeparator(c) then [""] + Split(s) else [[c] + Split(s)[0]] + Split(s)[1..]
  {
    assert ([c] + s)[1..] == s;
  }

  lemma HeadAndTail<T>(x: seq<T>, y: seq<T>)
    requires x != []
    ensures (x + y)[0] == x[0] && (x + y)[1..] == x[1..] + y
  {
  }

  lemma {:induction false} SplitAt(a: string, c: char, b: string)
    requires IsSeparator(c)
    ensures Split(a + [c] + b) == Split(a) + Split(b)
  {
    if a == "" {
      assert a + [c] + b == [c] + b;
      SplitCons(c, b);
    } else {
      var h, t := a[0], a[1..];
      assert a == [h] + t;
      ConcatAssoc([h], t, [c]);
      ConcatAssoc([h], t + [c], b);
      SplitCons(h, t + [c] + b);
      SplitCons(h, t);
      SplitAt(t, c, b);
      HeadAndTail(Split(t), Split(b));
      ConcatAssoc([""], Split(t), Split(b));
      ConcatAssoc([[h] + Split(t)[0]], Split(t)[1..], Split(b));
    }
  }

  lemma {:induction false} NonEmptyConcat(a: seq<string>, b: seq<string>)
    ensures NonEmpty(a + b) == NonEmpty(a) + NonEmpty(b)
  {
    if b == [] {
      assert a + b == a;
    } else {
      NonEmptyConcat(a, b[..|b| - 1]);
      assert (a + b)[..|a + b| - 1] == a + b[..|b| - 1];
    }
  }

  lemma WordsAt(a: string, c: char, b: string)
    requires IsSeparator(c)
    ensures Words(a + [c] + b) == Words(a) + Words(b)
  {
    SplitAt(a, c, b);
    NonEmptyConcat(Split(a), Split(b));
  }

  lemma {:induction false} OneWord(w: string)
    requires w != "" && forall c :: c in w ==> !IsSeparator(c)
    ensures Words(w) == [w]
  {
    SplitWord(w);
    assert NonEmpty([w]) == NonEmpty([]) + [w];
  }

  lemma {:induction false} SplitWord(w: string)
    requires forall c :: c in w ==> !IsSeparator(c)
    ensures Split(w) == [w]
  {
    if w == "" {
    } else {
      SplitWord(w[1..]);
      assert w[0] in w;
      assert [w[0]] + w[1..] == w;
    }
  }

  lemma {:induction false} NumberIsWord(n: nat)
    ensures Words(Decimal(n)) == [Decimal(n)]
  {
    OneWord(Decimal(n));
  }

  lemma CoinIsWord(c: Coin)
    ensures Words(c.Name()) == [c.Name()]
    ensures CoinOf(c.Name()) == Some(c) && ParseU32(c.Name()).None?
  {
    OneWord(c.Name());
    assert c.Name()[0] != '+' && !IsDigit(c.Name()[0]);
  }

  lemma PileWords(p: Pile)
    ensures Words(Decimal(p.amount) + " " + p.coin.Name()) == [Decimal(p.amount), p.coin.Name()]
    ensures PairWorth(Decimal(p.amount), p.coin.Name()) == p.coin.Times(p.amount)
    ensures ParseU32(p.coin.Name()).None?
    ensures CoinOf(Decimal(p.amount)).None?
  {
    DecimalParses(p.amount);
    NumberIsWord(p.amount);
    CoinIsWord(p.coin);
    WordsAt(Decimal(p.amount), ' ', p.coin.Name());
    CoinIsNoNumber(Decimal(p.amount));
  }

  lemma {:induction false} PairSumConcat<T>(a: seq<T>, b: seq<T>, worth: (T, T) -> nat)
    requires a != [] && b != []
    ensures PairSum(a + b, worth) == PairSum(a, worth) + worth(a[|a| - 1], b[0]) + PairSum(b, worth)
  {
    var s := a + b;
    if |b| == 1 {
      assert s[..|s| - 1] == a;
    } else {
      PairSumConcat(a, b[..|b| - 1], worth);
      assert s[..|s| - 1] == a + b[..|b| - 1];
    }
  }

  lemma {:induction false} PairSumFiller<T(!new)>(a: seq<T>, f: seq<T>, worth: (T, T) -> nat)
    requires a != [] && forall x, w :: w in f ==> worth(x, w) == 0
    ensures PairSum(a + f, worth) == PairSum(a, worth)
  {
    if f == [] {
      assert a + f == a;
    } else {
      PairSumFiller(a, f[..|f| - 1], worth);
      assert (a + f)[..|a + f| - 1] == a + f[..|f| - 1];
    }
  }

  /** A word list worth `total` copper that leaves no number waiting. */
  ghost predicate Reads(ws: seq<string>, total: nat) {
    ws != [] && CopperTotal(ws) == total && ParseU32(ws[|ws| - 1]).None?
  }

  /** Appending one more pile after a filler adds just that pile. */
  lemma PileAdded(a: seq<string>, total: nat, f: seq<string>, p: Pile)
    requires Reads(a, total)
    requires forall w :: w in f ==> ParseU32(w).None? && CoinOf(w).None?
    ensures Reads(a + f + [Decimal(p.amount), p.coin.Name()], total + p.coin.Times(p.amount))
  {
    PileWords(p);
    PairSumFiller(a, f, PairWorth);
    var lw := [Decimal(p.amount), p.coin.Name()];
    PairSumConcat(a + f, lw, PairWorth);
    assert ParseU32((a + f)[|a + f| - 1]).None?;
    PileTotal(p);
  }

  lemma PileTotal(p: Pile)
    ensures CopperTotal([Decimal(p.amount), p.coin.Name()]) == p.coin.Times(p.amount)
    ensures Reads([Decimal(p.amount), p.coin.Name()], p.coin.Times(p.amount))
  {
    PileWords(p);
    PairSumStep([Decimal(p.amount)], p.coin.Name(), PairWorth);
    assert [Decimal(p.amount), p.coin.Name()] == [Decimal(p.amount)] + [p.coin.Name()];
  }

  /** Any list of piles, in any denomination order, repeats included, reads back as its true total,
      cut off at the largest u32. */
  lemma {:induction false} MoneyReadsBack(piles: seq<Pile>, fillers: seq<string>)
    requires |piles| > 0 && |fillers| == |piles| - 1
    requires forall f :: f in fillers ==> IsFiller(f)
    ensures MoneyCopper(MoneyText(piles, fillers)) == Min(TrueTotal(piles), U32_MAX)
  {
    MoneyWords(piles, fillers);
  }

  lemma {:induction false} MoneyWords(piles: seq<Pile>, fillers: seq<string>)
    requires |piles| > 0 && |fillers| == |piles| - 1
    requires forall f :: f in fillers ==> IsFiller(f)
    ensures Reads(Words(MoneyText(piles, fillers)), TrueTotal(piles))
  {
    hide ParseU32, CoinOf, IsSeparator, Split, CopperTotal;
    var n := |piles| - 1;
    var p := piles[n];
    PileWords(p);
    var last := Decimal(p.amount) + " " + p.coin.Name();
    if n > 0 {
      var front, f := MoneyText(piles[..n], fillers[..n - 1]), fillers[n - 1];
      MoneyWords(piles[..n], fillers[..n - 1]);
      assert f in fillers;
      FillerWords(front, f, last);
      PileAdded(Words(front), TrueTotal(piles[..n]), Words(f[1..|f| - 1]), p);
    } else {
      PileTotal(p);
    }
  }

  /** What each coin is worth. */
  lemma {:induction false} CoinsInCopper(n: u32)
    ensures MoneyCopper(Decimal(n) + " platinum") == Min(1000 * n, 0xFFFF_FFFF)
    ensures MoneyCopper(Decimal(n) + " gold") == Min(100 * n, 0xFFFF_FFFF)
    ensures MoneyCopper(Decimal(n) + " silver") == Min(10 * n, 0xFFFF_FFFF)
    ensures MoneyCopper(Decimal(n) + " copper") == n
  {
    hide Decimal, MoneyCopper;
    OnePile(Pile(n, Platinum));
    OnePile(Pile(n, Gold));
    OnePile(Pile(n, Silver));
    OnePile(Pile(n, Copper));
  }

  lemma {:induction false} OnePile(p: Pile)
    ensures MoneyCopper(Decimal(p.amount) + " " + p.coin.Name()) == Min(p.coin.Times(p.amount), U32_MAX)
    ensures match p.coin
            case Platinum => " " + p.coin.Name() == " platinum"
            case Gold => " " + p.coin.Name() == " gold"
            case Silver => " " + p.coin.Name() == " silver"
            case Copper => " " + p.coin.Name() == " copper"
    ensures Decimal(p.amount) + " " + p.coin.Name() == Decimal(p.amount) + (" " + p.coin.Name())
  {
    MoneyReadsBack([p], []);
    assert [p][..0] == [];
    hide MoneyCopper, Decimal;
  }

  lemma FillerWords(front: string, f: string, last: string)
    requires |f| >= 2 && IsSeparator(f[0]) && IsSeparator(f[|f| - 1])
    ensures Words(front + f + last) == Words(front) + Words(f[1..|f| - 1]) + Words(last)
  {
    var k := |f| - 1;
    var mid := f[1..k];
    assert front + f + last == (front + [f[0]] + mid) + [f[k]] + last;
    WordsAt(front + [f[0]] + mid, f[k], last);
    WordsAt(front, f[0], mid);
  }

  // ---- whole sale and storage lines ----------------------------------------

  lemma {:induction false} DotsTrimmed(s: string, n: nat)
    requires s != "" && s[|s| - 1] != '.'
    ensures TrimDots(s + Dots(n)) == s
  {
    if n == 0 {
      assert s + Dots(0) == s;
    } else {
      DotsTrimmed(s, n - 1);
      assert (s + Dots(n))[..|s + Dots(n)| - 1] == s + Dots(n - 1);
    }
  }

  function Dots(n: nat): (r: string)
    ensures |r| == n && forall i :: 0 <= i < n ==> r[i] == '.'
  {
    if n == 0 then "" else Dots(n - 1) + "."
  }

  const SOLD := " and sold it for "
  const STORED := " and stored it in "

  lemma {:induction false} TrimEndSolid(s: string)
    requires s != "" && !IsWhite(s[|s| - 1])
    ensures TrimEnd(s) == s
  {
  }

  lemma {:induction false} MoneyEnds(piles: seq<Pile>, fillers: seq<string>)
    requires |piles| > 0 && |fillers| == |piles| - 1
    ensures var m := MoneyText(piles, fillers); m != "" && 'a' <= m[|m| - 1] <= 'z'
  {
    var p := piles[|piles| - 1];
    var last := Decimal(p.amount) + " " + p.coin.Name();
    assert last[|last| - 1] == p.coin.Name()[|p.coin.Name()| - 1];
  }

  /** A tail whose last character is followed by any number of full stops: trimming white space
      changes nothing, trimming the stops leaves the tail. */
  lemma {:induction false} DottedTail(t: string, n: nat)
    requires t != "" && !IsWhite(t[|t| - 1]) && t[|t| - 1] != '.'
    ensures TrimDots(TrimEnd(t + Dots(n))) == t
  {
    TrimEndSolid(t + Dots(n));
    DotsTrimmed(t, n);
  }

  /** A sale line gives back everything it says, exactly when it is unambiguous: the item, the count, the
      mob, and the copper total of its piles in whatever order they are written. */
  lemma {:induction false} SaleRoundTrip(count: CountPhrase, item: string, mob: string,
                                         piles: seq<Pile>, fillers: seq<string>, dots: nat)
    requires Trimmed(item) && mob != ""
    requires |piles| > 0 && |fillers| == |piles| - 1
    requires forall f :: f in fillers ==> IsFiller(f)
    requires !Contains(SOLD + MoneyText(piles, fillers) + Dots(dots), CORPSE_MARK)
    ensures ParseLootLine(AutoLine(count, item, mob, SOLD + MoneyText(piles, fillers) + Dots(dots)))
            == Some(ParsedLootLine(item, count.Quantity(), mob, true, "sold", Min(TrueTotal(piles), U32_MAX)))
            <==> Unambiguous(count, item, mob)
  {
    var money := MoneyText(piles, fillers);
    var tail := SOLD + money + Dots(dots);
    MoneyEnds(piles, fillers);
    DottedTail(SOLD + money, dots);
    SoldTail(TrimEnd(tail), money);
    MoneyReadsBack(piles, fillers);
    AutoLineRoundTrip(count, item, mob, tail);
  }

  lemma {:induction false} SoldTail(tail: string, money: string)
    requires TrimDots(tail) == SOLD + money
    ensures ClassifyTail(tail) == Some(Outcome(true, "sold", MoneyCopper(money)))
  {
    assert (SOLD + money)[|SOLD|..] == money;
  }

  /** A storage line gives back the place it names, and the rest of the line, under the same condition. */
  lemma {:induction false} StorageRoundTrip(count: CountPhrase, item: string, mob: string, place: string, dots: nat)
    requires Trimmed(item) && mob != ""
    requires Trimmed(place) && place[|place| - 1] != '.'
    requires !Contains(STORED + "your " + place + Dots(dots), CORPSE_MARK)
    ensures ParseLootLine(AutoLine(count, item, mob, STORED + "your " + place + Dots(dots)))
            == Some(ParsedLootLine(item, count.Quantity(), mob, false, place, 0))
            <==> Unambiguous(count, item, mob)
  {
    var tail := STORED + "your " + place + Dots(dots);
    DottedTail(STORED + "your " + place, dots);
    StoredTail(TrimEnd(tail), place);
    AutoLineRoundTrip(count, item, mob, tail);
  }

  lemma {:induction false} StoredTail(tail: string, place: string)
    requires TrimDots(tail) == STORED + "your " + place && Trimmed(place)
    ensures ClassifyTail(tail) == Some(Outcome(false, place, 0))
  {
    hide *;
    SameStored("your ", place);
    StoredAt(tail, "your " + place);
    YourStripped(place);
    TrimmedStays(place);
  }

  lemma SameStored(your: string, place: string)
    ensures STORED + your + place == STORED + (your + place)
  {
  }

  lemma YourStripped(place: string)
    ensures "your " <= "your " + place && ("your " + place)[|"your "|..] == place
  {
  }

  lemma {:induction false} StoredAt(tail: string, dest: string)
    requires TrimDots(tail) == STORED + dest
    ensures ClassifyTail(tail)
            == Some(Outcome(false, Trim(if "your " <= dest then dest[|"your "|..] else dest), 0))
  {
    hide TrimDots, Trim, MoneyCopper;
    var t := TrimDots(tail);
    assert t[6] == STORED[6] == 't' && SOLD[6] == 'o';
    assert t[|STORED|..] == dest;
  }

  /** What else a line can say became of the item. */
  datatype Fate = Looted | Destroyed | Dropped | OnGround | Created(what: string) | Stored(place: string) {
    function Text(): string {
      match this
      case Looted => ""
      case Destroyed => " and destroyed it"
      case Dropped => " and dropped it"
      case OnGround => " and dropped it on the ground"
      case Created(what) => " to create " + what
      case Stored(place) => " and stored it in " + place
    }

    function Named(): string {
      match this
      case Looted => "inventory"
      case Destroyed => "destroyed"
      case Dropped => "dropped"
      case OnGround => "dropped"
      case Created(_) => "created"
      case Stored(place) => place
    }

    predicate Ok() {
      match this
      case Created(what) => Trimmed(what) && what[|what| - 1] != '.'
      case Stored(place) => Trimmed(place) && place[|place| - 1] != '.' && !("your " <= place)
      case _ => true
    }
  }

  /** Every other line gives back what became of the item, and the rest, under the same condition. */
  lemma {:induction false} FateRoundTrip(count: CountPhrase, item: string, mob: string, fate: Fate, dots: nat)
    requires Trimmed(item) && mob != "" && fate.Ok()
    requires !Contains(fate.Text() + Dots(dots), CORPSE_MARK)
    ensures ParseLootLine(AutoLine(count, item, mob, fate.Text() + Dots(dots)))
            == Some(ParsedLootLine(item, count.Quantity(), mob, false, fate.Named(), 0))
            <==> Unambiguous(count, item, mob)
  {
    hide *;
    var tail := fate.Text() + Dots(dots);
    FateTrimmed(fate, dots);
    FateClassified(TrimEnd(tail), fate);
    AutoLineRoundTrip(count, item, mob, tail);
  }

  lemma {:induction false} FateTrimmed(fate: Fate, n: nat)
    requires fate.Ok()
    ensures TrimDots(TrimEnd(fate.Text() + Dots(n))) == fate.Text()
  {
    if fate.Looted? {
      assert "" + Dots(n) == Dots(n);
      TrimEndSolidOrEmpty(n);
      OnlyDots(n);
    } else {
      FateEnds(fate);
      DottedTail(fate.Text(), n);
    }
  }

  lemma FateEnds(fate: Fate)
    requires fate.Ok() && !fate.Looted?
    ensures var t := fate.Text(); t != "" && !IsWhite(t[|t| - 1]) && t[|t| - 1] != '.'
  {
  }

  lemma {:induction false} TrimEndSolidOrEmpty(n: nat)
    ensures TrimEnd(Dots(n)) == Dots(n)
  {
  }

  lemma {:induction false} OnlyDots(n: nat)
    ensures TrimDots(Dots(n)) == ""
  {
    if n > 0 {
      OnlyDots(n - 1);
      assert Dots(n)[..n - 1] == Dots(n - 1);
    }
  }

  lemma {:induction false} FateClassified(tail: string, fate: Fate)
    requires TrimDots(tail) == fate.Text() && fate.Ok()
    ensures ClassifyTail(tail) == Some(Outcome(false, fate.Named(), 0))
  {
    hide TrimDots, TrimEnd, MoneyCopper, IsWhite;
    var t := TrimDots(tail);
    if fate.Stored? {
      TrimmedStays(fate.place);
      StoredAt(tail, fate.place);
    } else if fate.Created? {
      assert t[1] == 't' && SOLD[1] == STORED[1] == 'a';
    } else if !fate.Looted? {
      assert t[5] == 'd' && SOLD[5] == STORED[5] == 's';
    }
  }

  /** Anything else behind the corpse makes the line unrecognised. */
  lemma {:induction false} TailsKnown(tail: string)
    ensures ClassifyTail(tail).Some? <==>
              var t := TrimDots(tail);
              || " and sold it for " <= t || " and stored it in " <= t || " to create " <= t
              || t in {"", " and destroyed it", " and dropped it", " and dropped it on the ground"}
  {
    hide TrimDots, Trim, MoneyCopper;
  }

  // ---- names and zones -----------------------------------------------------

  /** ASCII lower-casing. */
  function ToLower(s: string): string {
    seq(|s|, i requires 0 <= i < |s| => if 'A' <= s[i] <= 'Z' then s[i] - 'A' + 'a' else s[i])
  }

  function WithoutCorpse(n: string): string {
    match StripSuffix(n, CORPSE_MARK)
    case Some(r) => r
    case None => (match StripSuffix(n, " corpse") case Some(r) => r case None => n)
  }

  function WithoutArticle(lower: string): string {
    if "a " <= lower then Trim(lower[2..])
    else if "an " <= lower then Trim(lower[3..])
    else if "the " <= lower then Trim(lower[4..])
    else lower
  }

  function NormalizeMob(name: string): string {
    WithoutArticle(ToLower(Trim(WithoutCorpse(Trim(name)))))
  }

  datatype ZoneName = ZoneName(base: string, instance: string)

  predicate EndsWith(s: string, end: string) {
    |end| <= |s| && s[|s| - |end|..] == end
  }

  /** Raid, multi and solo instances are named by a suffix of the zone. */
  function SplitZoneInstance(zone: string): (r: ZoneName)
    ensures zone == if r.instance == "" then r.base else r.base + "_" + r.instance
  {
    assert "_eqlraidgroup" == "_" + "eqlraidgroup";
    assert "_multi" == "_" + "multi";
    assert "_solo" == "_" + "solo";
    match StripSuffix(zone, "_eqlraidgroup")
    case Some(base) => ZoneName(base, "eqlraidgroup")
    case None =>
      match StripSuffix(zone, "_multi")
      case Some(base) => ZoneName(base, "multi")
      case None =>
        match StripSuffix(zone, "_solo")
        case Some(base) => ZoneName(base, "solo")
        case None => ZoneName(zone, "")
  }

  lemma SuffixEnds(s: string, end: string)
    ensures StripSuffix(s, end).Some? <==> EndsWith(s, end)
    ensures EndsWith(s, end) && end != "" ==> s != "" && s[|s| - 1] == end[|end| - 1]
  {
    if EndsWith(s, end) && end != "" {
      assert s[|s| - |end|..][|end| - 1] == s[|s| - 1];
    }
  }

  /** An instance is found exactly when its suffix ends the zone, and then just that suffix goes. */
  lemma InstanceIsKnownSuffix(zone: string)
    ensures var r := SplitZoneInstance(zone);
            && r.instance in {"", "eqlraidgroup", "multi", "solo"}
            && (r.instance == "eqlraidgroup" <==> EndsWith(zone, "_eqlraidgroup"))
            && (r.instance == "multi" <==> EndsWith(zone, "_multi"))
            && (r.instance == "solo" <==> EndsWith(zone, "_solo"))
            && zone == if r.instance == "" then r.base else r.base + "_" + r.instance
  {
    hide StripSuffix, EndsWith;
    SuffixEnds(zone, "_eqlraidgroup");
    SuffixEnds(zone, "_multi");
    SuffixEnds(zone, "_solo");
    Spelled();
  }

  lemma Spelled()
    ensures "_eqlraidgroup"[|"_eqlraidgroup"| - 1] == 'p' && "_multi"[|"_multi"| - 1] == 'i'
    ensures "_solo"[|"_solo"| - 1] == 'o' && |"eqlraidgroup"| == 12 && |"multi"| == 5 && |"solo"| == 4
  {
  }

  // ---- the grouping key ----------------------------------------------------

  lemma LowerLetters(s: string)
    ensures |ToLower(s)| == |s|
    ensures forall i :: 0 <= i < |s| ==>
              ToLower(s)[i] == if 'A' <= s[i] <= 'Z' then (s[i] as int + 32) as char else s[i]
  {
  }

  lemma LowerConcat(a: string, b: string)
    ensures ToLower(a + b) == ToLower(a) + ToLower(b)
  {
  }

  lemma LowerTrimmed(s: string)
    requires Trimmed(s)
    ensures Trimmed(ToLower(s))
  {
  }

  predicate Article(a: string) {
    ToLower(a) in {"", "a ", "an ", "the "}
  }

  predicate CorpseSuffix(c: string) {
    c in {"", "'s corpse", " corpse"}
  }

  /** The text brings no article and no corpse suffix where none is meant, and no "'s" that would join up
      with " corpse". */
  predicate PlainName(article: string, name: string, corpse: string) {
    && Trimmed(name)
    && (article == "" ==> !("a " <= ToLower(name)) && !("an " <= ToLower(name)) && !("the " <= ToLower(name)))
    && (corpse == "" ==> !EndsWith(article + name, "'s corpse") && !EndsWith(article + name, " corpse"))
    && (corpse == " corpse" ==> !EndsWith(article + name, "'s"))
  }

  /** Article, corpse suffix and case make no difference to the grouping key: it is the name alone in lower
      case. */
  lemma GroupingKey(article: string, name: string, corpse: string)
    requires Article(article) && CorpseSuffix(corpse) && PlainName(article, name, corpse)
    ensures var key := NormalizeMob(article + name + corpse);
            |key| == |name|
            && forall i :: 0 <= i < |name| ==>
                 key[i] == if 'A' <= name[i] <= 'Z' then (name[i] as int + 32) as char else name[i]
  {
    hide *;
    var whole := article + name;
    WholeTrimmed(article, name, corpse);
    TrimmedStays(whole + corpse);
    CorpseStripped(article, name, corpse);
    TrimmedStays(whole);
    LowerConcat(article, name);
    ArticleStripped(article, name, corpse);
    LowerLetters(name);
    NormalizeIs(whole + corpse);
  }

  lemma NormalizeIs(name: string)
    ensures NormalizeMob(name) == WithoutArticle(ToLower(Trim(WithoutCorpse(Trim(name)))))
  {
  }

  lemma WholeTrimmed(article: string, name: string, corpse: string)
    requires Article(article) && CorpseSuffix(corpse) && PlainName(article, name, corpse)
    ensures Trimmed(article + name + corpse) && Trimmed(article + name)
  {
    if article != "" {
      assert ToLower(article)[0] in "at";
    }
  }

  lemma CorpseStripped(article: string, name: string, corpse: string)
    requires CorpseSuffix(corpse) && PlainName(article, name, corpse)
    ensures WithoutCorpse(article + name + corpse) == article + name
  {
    hide Trimmed, ToLower;
    var whole := article + name;
    if corpse == "" {
      assert whole + "" == whole;
      SuffixEnds(whole, CORPSE_MARK);
      SuffixEnds(whole, " corpse");
    } else {
      EndStripped(whole, corpse);
      if corpse == " corpse" {
        SuffixSplits(whole);
      }
    }
  }

  lemma SuffixSplits(whole: string)
    ensures StripSuffix(whole + " corpse", CORPSE_MARK).Some? ==> EndsWith(whole, "'s")
  {
    var s := whole + " corpse";
    if |s| >= 9 && s[|s| - 9..] == CORPSE_MARK {
      assert s[|s| - 9..][..2] == CORPSE_MARK[..2] == "'s";
      assert s[|s| - 9..][..2] == whole[|whole| - 2..];
    }
  }

  lemma ArticleStripped(article: string, name: string, corpse: string)
    requires Article(article) && PlainName(article, name, corpse)
    ensures WithoutArticle(ToLower(article) + ToLower(name)) == ToLower(name)
  {
    LowerTrimmed(name);
    TrimmedStays(ToLower(name));
    var a, n := ToLower(article), ToLower(name);
    assert |a| == |article|;
    hide ToLower, Trim, Trimmed, EndsWith;
    assert (a + n)[|a|..] == n;
    if a == "" {
      assert a + n == n && article == "";
    } else if a == "an " {
      assert (a + n)[1] == 'n';
    } else if a == "the " {
      assert (a + n)[0] == 't';
    } else {
      assert (a + n)[..2] == "a ";
    }
  }
}
