/** Cross-zone chat records under the self-synchronizing XOR (`seq-backend-eql/src/ucs_chat.rs`).
    Text is kept as UTF-8 bytes. */
module UcsChat {
  import opened Prelude
  import Links

  datatype UcsRecord = UcsRecord(
    channelFirst: byte, channelRest: seq<byte>, channelRun: seq<byte>,
    sender: seq<byte>, message: seq<byte>, spam: bool)

  const SPAM: seq<byte> := [0x53, 0x50, 0x41, 0x4D, 0x3A]
  const DOT: byte := 0x2E
  const COLON: byte := 0x3A

  // ---- the XOR -------------------------------------------------------------

  /** Exclusive or of the low `n` bits. */
  function XorBits(a: nat, b: nat, n: nat): nat {
    if n == 0 then 0 else 2 * XorBits(a / 2, b / 2, n - 1) + (a % 2 + b % 2) % 2
  }

  function Xor(a: byte, b: byte): byte {
    XorBelow(a, b);
    XorBits(a, b, 8)
  }

  lemma {:induction false} XorBelow(a: byte, b: byte)
    ensures XorBits(a, b, 8) < 0x100
  {
    XorBound(a, b, 8);
    assert Pow2(8) == 256;
  }

  lemma {:induction false} XorBound(a: nat, b: nat, n: nat)
    ensures XorBits(a, b, n) < Pow2(n)
  {
    if n == 0 {
    } else {
      XorBound(a / 2, b / 2, n - 1);
    }
  }

  lemma HalfOf(q: nat, r: nat)
    requires r < 2
    ensures (2 * q + r) / 2 == q && (2 * q + r) % 2 == r
  {
  }

  lemma {:induction false} XorCancels(a: nat, b: nat, n: nat)
    requires a < Pow2(n)
    ensures XorBits(XorBits(a, b, n), b, n) == a
  {
    hide *;
    if n == 0 {
      NoBits(a);
    } else {
      HalfBelow(a, n);
      XorCancels(a / 2, b / 2, n - 1);
      XorStep(a, b, n);
      HalfOf(XorBits(a / 2, b / 2, n - 1), (a % 2 + b % 2) % 2);
      XorStep(XorBits(a, b, n), b, n);
    }
  }

  lemma NoBits(a: nat)
    requires a < Pow2(0)
    ensures a == 0 && forall x: nat, y: nat :: XorBits(x, y, 0) == 0
  {
  }

  lemma HalfBelow(a: nat, n: nat)
    requires n > 0 && a < Pow2(n)
    ensures a / 2 < Pow2(n - 1)
  {
  }

  lemma XorStep(a: nat, b: nat, n: nat)
    requires n > 0
    ensures XorBits(a, b, n) == 2 * XorBits(a / 2, b / 2, n - 1) + (a % 2 + b % 2) % 2
  {
  }

  /** Bit `k` of a number. */
  function Bit(v: nat, k: nat): (r: nat)
    ensures r < 2
  {
    if k == 0 then v % 2 else Bit(v / 2, k - 1)
  }

  /** Every bit of the result is set exactly when one of the two bits is and the other is not. */
  lemma {:induction false} XorIsBitwise(a: byte, b: byte, k: nat)
    requires k < 8
    ensures Bit(Xor(a, b), k) == 1 <==> Bit(a, k) != Bit(b, k)
  {
    hide XorBits;
    BitOf(a, b, 8, k);
  }

  lemma {:induction false} BitOf(a: nat, b: nat, n: nat, k: nat)
    requires k < n
    ensures Bit(XorBits(a, b, n), k) == 1 <==> Bit(a, k) != Bit(b, k)
  {
    XorStep(a, b, n);
    HalfOf(XorBits(a / 2, b / 2, n - 1), (a % 2 + b % 2) % 2);
    hide XorBits;
    if k > 0 {
      BitOf(a / 2, b / 2, n - 1, k - 1);
    }
  }

  lemma XorTwice(a: byte, b: byte)
    ensures Xor(Xor(a, b), b) == a
  {
    assert Pow2(8) == 256;
    XorCancels(a, b, 8);
  }

  /** The de-obfuscated payload: every byte from the fifth on against the cipher byte four before. */
  function Plain(cipher: seq<byte>): (r: seq<byte>)
    ensures |r| == |cipher|
    ensures forall i :: 0 <= i < |r| ==> r[i] == if i < 4 then cipher[i] else Xor(cipher[i], cipher[i - 4])
  {
    seq(|cipher|, i requires 0 <= i < |cipher| => if i < 4 then cipher[i] else Xor(cipher[i], cipher[i - 4]))
  }

  /** What the server sends: every byte from the fifth on against the cipher byte four before. */
  function Cipher(plain: seq<byte>): (r: seq<byte>)
    ensures |r| == |plain|
  {
    if plain == [] then []
    else
      var n := |plain| - 1;
      var front := Cipher(plain[..n]);
      front + [if n < 4 then plain[n] else Xor(plain[n], front[n - 4])]
  }

  lemma {:induction false} PlainInvertsCipher(plain: seq<byte>)
    ensures Plain(Cipher(plain)) == plain
  {
    if plain == [] {
    } else {
      var n := |plain| - 1;
      PlainInvertsCipher(plain[..n]);
      var front, all := Cipher(plain[..n]), Cipher(plain);
      assert forall i :: 0 <= i < n ==> all[i] == front[i];
      assert forall i :: 0 <= i < n ==> Plain(all)[i] == Plain(front)[i] == plain[i];
      if n >= 4 {
        XorTwice(plain[n], front[n - 4]);
      }
    }
  }

  // ---- text ----------------------------------------------------------------

  predicate Printable(c: byte) {
    0x20 <= c < 0x7F || c >= 0xA0
  }

  /** A Latin-1 string, as the UTF-8 bytes Rust keeps it in. */
  function Latin1(b: seq<byte>): seq<byte> {
    if b == [] then [] else Latin1(b[..|b| - 1]) + Latin1Char(b[|b| - 1])
  }

  function Latin1Char(c: byte): seq<byte> {
    if c < 0x80 then [c] else [0xC0 + c / 0x40, 0x80 + c % 0x40]
  }

  function PrintableCount(s: seq<byte>): nat {
    if s == [] then 0 else PrintableCount(s[..|s| - 1]) + if Printable(s[|s| - 1]) then 1 else 0
  }

  predicate MostlyPrintable(s: seq<byte>) {
    s != [] && PrintableCount(s) * 100 >= |s| * 85
  }

  /** The part after the last dot, or all of it. */
  function AfterLastDot(s: seq<byte>): seq<byte> {
    match Links.LastIndexOf(s, DOT)
    case Some(d) => s[d + 1..]
    case None => s
  }

  function LeadingPrintable(s: seq<byte>): (r: seq<byte>)
    ensures r <= s && forall c :: c in r ==> Printable(c)
    ensures |r| < |s| ==> !Printable(s[|r|])
  {
    if s == [] || !Printable(s[0]) then [] else [s[0]] + LeadingPrintable(s[1..])
  }

  /** The printable bytes that end the text are the ones from `k` on. */
  ghost predicate EndRun(s: seq<byte>, k: nat) {
    k <= |s| && (forall i :: k <= i < |s| ==> Printable(s[i])) && (k == 0 || !Printable(s[k - 1]))
  }

  /** Where the printable run that ends the field begins. */
  function TrailingStart(s: seq<byte>, end: nat): (r: nat)
    requires end <= |s|
    ensures r <= end
  {
    if end > 0 && Printable(s[end - 1]) then TrailingStart(s, end - 1) else end
  }

  lemma {:induction false} TrailingIsRun(s: seq<byte>, end: nat)
    requires end <= |s|
    ensures var r := TrailingStart(s, end);
            (forall i :: r <= i < end ==> Printable(s[i])) && (r == 0 || !Printable(s[r - 1]))
  {
    if end > 0 && Printable(s[end - 1]) {
      TrailingIsRun(s, end - 1);
    }
  }

  predicate IsDigit(c: byte) {
    0x30 <= c <= 0x39
  }

  function Digit(c: byte): nat
    requires IsDigit(c)
  {
    c - 0x30
  }

  const U64_MAX: u64 := 0xFFFF_FFFF_FFFF_FFFF

  /** One more decimal digit: a saturating product and then a wrapping sum. */
  function ScoreStep(score: u64, digit: byte): u64
    requires IsDigit(digit)
  {
    (Min(score * 10, U64_MAX) + Digit(digit)) % 0x1_0000_0000_0000_0000
  }

  datatype Score = Score(have: bool, value: u64)

  function ScoreOf(tail: seq<byte>, acc: Score): Score {
    if tail == [] || !IsDigit(tail[0]) then acc
    else ScoreOf(tail[1..], Score(true, ScoreStep(acc.value, tail[0])))
  }

  // ---- one record ----------------------------------------------------------

  /** Start of the NUL-delimited field that ends at `end`. */
  function FieldStart(buf: seq<byte>, end: nat): (s: nat)
    requires end <= |buf|
    ensures s <= end && (s == 0 || buf[s - 1] == 0) && 0 !in buf[s..end]
  {
    if end == 0 || buf[end - 1] == 0 then end
    else
      var s := FieldStart(buf, end - 1);
      SliceLast(buf, s, end);
      s
  }

  predicate Occurs(buf: seq<byte>, p: nat) {
    p + 5 <= |buf| && buf[p..p + 5] == SPAM
  }

  /** The record made of its four fields, if they pass for chat. */
  function Build(field: seq<byte>, serverSender: seq<byte>, text: seq<byte>, tail: seq<byte>): Option<UcsRecord>
    requires |field| >= 5
  {
    var message := Links.Clean(Latin1(text));
    var sender := AfterLastDot(Latin1(serverSender));
    if !MostlyPrintable(sender) || !MostlyPrintable(message) || |sender| > 32 then None else
    var score := ScoreOf(tail, Score(false, 0));
    Some(UcsRecord(field[4], Latin1(LeadingPrintable(field[5..])), Latin1(field[TrailingStart(field, |field|)..]),
                   sender, message, score.have && score.value > 0))
  }

  /** The record whose trailer starts at `p`: its fields are walked backwards from there. */
  function RecordAt(buf: seq<byte>, p: nat): Option<UcsRecord>
    requires Occurs(buf, p)
  {
    if p < 2 || buf[p - 1] != 0 then None else
    var msgStart := FieldStart(buf, p - 1);
    if msgStart >= p - 1 || msgStart < 2 then None else
    var ssStart := FieldStart(buf, msgStart - 1);
    if ssStart >= msgStart - 1 || ssStart < 2 then None else
    var ceStart := FieldStart(buf, ssStart - 1);
    if ssStart - 1 - ceStart < 5 then None else
    Build(buf[ceStart..ssStart - 1], buf[ssStart..msgStart - 1], buf[msgStart..p - 1], buf[p + 5..])
  }

  function Found(buf: seq<byte>, p: nat): seq<UcsRecord> {
    if !Occurs(buf, p) then []
    else match RecordAt(buf, p) case Some(r) => [r] case None => []
  }

  /** Every record whose trailer starts at `from` or later. */
  function Collect(buf: seq<byte>, from: nat): seq<UcsRecord>
    requires from <= |buf|
    decreases |buf| - from
  {
    if from == |buf| then [] else Found(buf, from) + Collect(buf, from + 1)
  }

  function Parse(payload: seq<byte>): seq<UcsRecord> {
    if |payload| < 12 then [] else Collect(Plain(payload), 0)
  }

  // ---- the scan ------------------------------------------------------------

  function FindFrom(buf: seq<byte>, from: nat): (r: Option<nat>)
    requires from <= |buf|
    ensures r.Some? ==> from <= r.value && Occurs(buf, r.value) && forall i :: from <= i < r.value ==> !Occurs(buf, i)
    ensures r.None? ==> forall i :: from <= i ==> !Occurs(buf, i)
    decreases |buf| - from
  {
    if from == |buf| then None
    else if Occurs(buf, from) then Some(from)
    else FindFrom(buf, from + 1)
  }

  lemma {:induction false} CollectSkip(buf: seq<byte>, a: nat, b: nat)
    requires a <= b <= |buf| && forall i :: a <= i < b ==> Found(buf, i) == []
    ensures Collect(buf, a) == Collect(buf, b)
    decreases b - a
  {
    hide Found;
    if a == b {
    } else {
      CollectSkip(buf, a + 1, b);
    }
  }

  /** The marker does not overlap itself. */
  lemma NoOverlap(buf: seq<byte>, p: nat, i: nat)
    requires Occurs(buf, p) && p < i < p + 5
    ensures !Occurs(buf, i)
  {
    assert buf[i] == buf[p..p + 5][i - p];
    assert i + 5 <= |buf| ==> buf[i..i + 5][0] == buf[i];
  }

  lemma CollectPast(buf: seq<byte>, scan: nat, p: nat)
    requires scan <= p && Occurs(buf, p) && forall i :: scan <= i < p ==> !Occurs(buf, i)
    ensures Collect(buf, scan) == Found(buf, p) + Collect(buf, p + 5)
  {
    hide *;
    OccursWithin(buf, p);
    forall i | scan <= i < p + 5 && i != p ensures Found(buf, i) == [] {
      if i > p {
        NoOverlap(buf, p, i);
      }
      NotFound(buf, i);
    }
    CollectSkip(buf, scan, p);
    CollectStep(buf, p);
    CollectSkip(buf, p + 1, p + 5);
  }

  lemma NotFound(buf: seq<byte>, i: nat)
    requires !Occurs(buf, i)
    ensures Found(buf, i) == []
  {
    hide Occurs, RecordAt;
  }

  method FieldStartAt(buf: seq<byte>, end: nat) returns (s: nat)
    requires end <= |buf|
    ensures s == FieldStart(buf, end)
  {
    s := end;
    while s > 0 && buf[s - 1] != 0
      invariant s <= end && FieldStart(buf, s) == FieldStart(buf, end)
    {
      s := s - 1;
    }
  }

  method ReadScore(buf: seq<byte>, start: nat) returns (spam: bool)
    requires start <= |buf|
    ensures var s := ScoreOf(buf[start..], Score(false, 0)); spam == (s.have && s.value > 0)
  {
    var q := start;
    var score: u64 := 0;
    var have := false;
    while q < |buf| && IsDigit(buf[q])
      invariant start <= q <= |buf|
      invariant ScoreOf(buf[q..], Score(have, score)) == ScoreOf(buf[start..], Score(false, 0))
    {
      assert buf[q..][1..] == buf[q + 1..];
      score := ScoreStep(score, buf[q]);
      have := true;
      q := q + 1;
    }
    spam := have && score > 0;
  }

  /** The longest printable end of the field. */
  method TrailingRun(field: seq<byte>) returns (run: seq<byte>)
    ensures run == field[TrailingStart(field, |field|)..] && EndRun(field, |field| - |run|)
  {
    var rs: nat := |field|;
    while rs > 0 && Printable(field[rs - 1])
      invariant rs <= |field| && TrailingStart(field, rs) == TrailingStart(field, |field|)
    {
      rs := rs - 1;
    }
    TrailingIsRun(field, |field|);
    run := field[rs..];
  }

  /** The backward walk from one trailer. */
  method DecodeRecord(buf: seq<byte>, p: nat) returns (r: Option<UcsRecord>)
    requires Occurs(buf, p)
    ensures r == RecordAt(buf, p)
  {
    hide Latin1, AfterLastDot, MostlyPrintable, ScoreOf, TrailingStart, LeadingPrintable;
    hide FieldStart, Occurs, Links.Clean;
    OccursWithin(buf, p);
    if p < 2 || buf[p - 1] != 0 {
      return None;
    }
    var msgEnd := p - 1;
    var msgStart := FieldStartAt(buf, msgEnd);
    if msgStart >= msgEnd || msgStart < 2 {
      return None;
    }
    var ssEnd := msgStart - 1;
    var ssStart := FieldStartAt(buf, ssEnd);
    if ssStart >= ssEnd || ssStart < 2 {
      return None;
    }
    var ceEnd := ssStart - 1;
    var ceStart := FieldStartAt(buf, ceEnd);
    var field := buf[ceStart..ceEnd];
    if |field| < 5 {
      return None;
    }
    assert RecordAt(buf, p) == Build(field, buf[ssStart..ssEnd], buf[msgStart..msgEnd], buf[p + 5..]);
    hide RecordAt;
    var message := Links.CleanLinks(Latin1(buf[msgStart..msgEnd]));
    var sender := AfterLastDot(Latin1(buf[ssStart..ssEnd]));
    if !MostlyPrintable(sender) || !MostlyPrintable(message) || |sender| > 32 {
      return None;
    }
    var spam := ReadScore(buf, p + 5);
    var run := TrailingRun(field);
    r := Some(UcsRecord(field[4], Latin1(LeadingPrintable(field[5..])), Latin1(run), sender, message, spam));
  }

  method ParseUcsChat(payload: seq<byte>) returns (out: seq<UcsRecord>)
    ensures out == Parse(payload)
  {
    out := [];
    if |payload| < 12 {
      return;
    }
    var buf := new byte[|payload|](i requires 0 <= i < |payload| => payload[i]);
    for i := 4 to |payload|
      invariant forall k :: 0 <= k < i ==> buf[k] == Plain(payload)[k]
      invariant forall k :: i <= k < |payload| ==> buf[k] == payload[k]
    {
      buf[i] := Xor(payload[i], payload[i - 4]);
    }
    var plain := buf[..];
    assert plain == Plain(payload);
    out := ScanRecords(plain);
  }

  method ScanRecords(buf: seq<byte>) returns (out: seq<UcsRecord>)
    ensures out == Collect(buf, 0)
  {
    hide Occurs, RecordAt;
    out := [];
    var n, scan := |buf|, 0;
    while scan + 5 <= n
      invariant scan <= n && out + Collect(buf, scan) == Collect(buf, 0)
    {
      var found := FindFrom(buf, scan);
      if found.None? {
        break;
      }
      var p := found.value;
      OccursWithin(buf, p);
      CollectPast(buf, scan, p);
      scan := p + 5;
      ghost var before := out;
      var r := DecodeRecord(buf, p);
      if r.Some? {
        out := out + [r.value];
      }
      ConcatAssoc(before, Found(buf, p), Collect(buf, scan));
      assert out == before + Found(buf, p);
    }
    NoMore(buf, scan);
    CollectSkip(buf, scan, n);
  }

  lemma OccursWithin(buf: seq<byte>, p: nat)
    requires Occurs(buf, p)
    ensures p + 5 <= |buf|
  {
  }

  lemma {:induction false} NoMore(buf: seq<byte>, scan: nat)
    requires scan <= |buf| && (scan + 5 > |buf| || FindFrom(buf, scan).None?)
    ensures forall i :: scan <= i < |buf| ==> Found(buf, i) == []
  {
    if scan + 5 <= |buf| {
      assert forall i :: scan <= i ==> !Occurs(buf, i);
    }
  }

  // ---- records written and read back ---------------------------------------

  /** Three fields and a tail, each field ended by a NUL, with the trailer's marker before the tail. */
  function Layout(field: seq<byte>, ss: seq<byte>, msg: seq<byte>, tail: seq<byte>): (r: seq<byte>)
    ensures |r| == |field| + |ss| + |msg| + 8 + |tail|
  {
    field + ([0] + (ss + ([0] + (msg + ([0] + ([0x53, 0x50, 0x41, 0x4D, 0x3A] + tail))))))
  }

  /** A chat record on the wire. `server` is empty or ends on a dot. */
  datatype Wire = Wire(header: seq<byte>, channel: seq<byte>, server: seq<byte>, sender: seq<byte>,
                       message: seq<byte>, score: seq<byte>, id: seq<byte>)
  {
    function Field(): seq<byte> {
      header + channel
    }

    function ServerSender(): seq<byte> {
      server + sender
    }

    function Tail(): seq<byte> {
      score + ([COLON] + (id + [0]))
    }

    function Bytes(): seq<byte> {
      Layout(Field(), ServerSender(), message, Tail())
    }
  }

  predicate PlainText(s: seq<byte>) {
    forall i :: 0 <= i < |s| ==> 0x20 <= s[i] < 0x7F
  }

  /** The number the digits spell. */
  function NumberSpelled(s: seq<byte>): nat
    requires forall i :: 0 <= i < |s| ==> IsDigit(s[i])
  {
    if s == [] then 0 else 10 * NumberSpelled(s[..|s| - 1]) + Digit(s[|s| - 1])
  }

  predicate WellFormed(w: Wire) {
    && |w.header| == 4 && 0 !in w.header
    && w.channel != [] && PlainText(w.channel)
    && PlainText(w.server) && (w.server == [] || w.server[|w.server| - 1] == DOT)
    && w.sender != [] && |w.sender| <= 32 && PlainText(w.sender) && DOT !in w.sender
    && w.message != [] && PlainText(w.message)
    && (forall i :: 0 <= i < |w.score| ==> IsDigit(w.score[i])) && NumberSpelled(w.score) <= U64_MAX
    && PlainText(w.id)
    && !(SPAM <= w.Field()) && !(SPAM <= w.ServerSender()) && !(SPAM <= w.message)
  }

  /** What the host should see: the channel split after its first letter, the sender without the
      server, the message, and whether the score is not zero. The run is the printable end of the masked
      header and the whole channel. */
  ghost predicate Shows(r: UcsRecord, w: Wire) {
    && w.channel != [] && r.channelFirst == w.channel[0] && r.channelRest == w.channel[1..]
    && (exists k: nat :: EndRun(w.header, k) && r.channelRun == Latin1(w.header[k..]) + w.channel)
    && r.sender == w.sender && r.message == w.message
    && (forall i :: 0 <= i < |w.score| ==> IsDigit(w.score[i])) && (r.spam <==> NumberSpelled(w.score) > 0)
  }

  lemma {:induction false} Latin1Plain(s: seq<byte>)
    requires PlainText(s)
    ensures Latin1(s) == s
  {
    if s == [] {
    } else {
      Latin1Plain(s[..|s| - 1]);
    }
  }

  lemma {:induction false} Latin1Concat(a: seq<byte>, b: seq<byte>)
    ensures Latin1(a + b) == Latin1(a) + Latin1(b)
  {
    if b == [] {
      assert a + b == a;
    } else {
      Latin1Concat(a, b[..|b| - 1]);
      assert (a + b)[..|a + b| - 1] == a + b[..|b| - 1];
      ConcatAssoc(Latin1(a), Latin1(b[..|b| - 1]), Latin1Char(b[|b| - 1]));
    }
  }

  lemma {:induction false} PlainIsPrintable(s: seq<byte>)
    requires PlainText(s)
    ensures PrintableCount(s) == |s|
  {
    if s == [] {
    } else {
      PlainIsPrintable(s[..|s| - 1]);
    }
  }

  lemma {:induction false} PlainLeads(s: seq<byte>)
    requires PlainText(s)
    ensures LeadingPrintable(s) == s
  {
    if s == [] {
    } else {
      PlainLeads(s[1..]);
    }
  }

  lemma {:induction false} PlainTrails(a: seq<byte>, b: seq<byte>)
    requires PlainText(b)
    ensures TrailingStart(a + b, |a + b|) == TrailingStart(a, |a|)
  {
    TrailingWithin(a, b, |b|);
  }

  lemma {:induction false} TrailingWithin(a: seq<byte>, b: seq<byte>, k: nat)
    requires PlainText(b) && k <= |b|
    ensures TrailingStart(a + b, |a| + k) == TrailingStart(a, |a|)
  {
    if k == 0 {
      TrailingPrefix(a, b, |a|);
    } else {
      assert (a + b)[|a| + k - 1] == b[k - 1];
      TrailingWithin(a, b, k - 1);
    }
  }

  lemma {:induction false} TrailingPrefix(a: seq<byte>, b: seq<byte>, end: nat)
    requires end <= |a|
    ensures TrailingStart(a + b, end) == TrailingStart(a, end)
  {
    if end == 0 {
    } else {
      TrailingPrefix(a, b, end - 1);
    }
  }

  lemma {:induction false} SpelledGrows(score: seq<byte>, k: nat)
    requires k <= |score| && forall i :: 0 <= i < |score| ==> IsDigit(score[i])
    ensures NumberSpelled(score[..k]) <= NumberSpelled(score)
    decreases |score|
  {
    if k == |score| {
      assert score[..k] == score;
    } else {
      SpelledGrows(score[..|score| - 1], k);
      assert score[..|score| - 1][..k] == score[..k];
    }
  }

  /** The digit loop after `k` digits of a number that fits. */
  lemma {:induction false} ScoreReads(score: seq<byte>, k: nat, rest: seq<byte>)
    requires k <= |score| && forall i :: 0 <= i < |score| ==> IsDigit(score[i])
    requires NumberSpelled(score) <= U64_MAX
    ensures NumberSpelled(score[..k]) <= U64_MAX
    ensures ScoreOf(score + rest, Score(false, 0))
            == ScoreOf(score[k..] + rest, Score(k > 0, NumberSpelled(score[..k])))
  {
    SpelledGrows(score, k);
    if k == 0 {
      assert score[0..] == score;
    } else {
      hide NumberSpelled;
      ScoreReads(score, k - 1, rest);
      var tail := score[k - 1..] + rest;
      assert tail[0] == score[k - 1] && tail[1..] == score[k..] + rest;
      SpelledPush(score, k - 1);
      DigitAdded(NumberSpelled(score[..k - 1]), score[k - 1]);
    }
  }

  lemma {:induction false} SpelledPush(score: seq<byte>, k: nat)
    requires k < |score| && forall i :: 0 <= i < |score| ==> IsDigit(score[i])
    ensures NumberSpelled(score[..k + 1]) == 10 * NumberSpelled(score[..k]) + Digit(score[k])
  {
    assert score[..k + 1][..k] == score[..k];
  }

  lemma DigitAdded(v: u64, digit: byte)
    requires IsDigit(digit) && 10 * v + Digit(digit) <= U64_MAX
    ensures ScoreStep(v, digit) == 10 * v + Digit(digit)
  {
    ModSmall(10 * v + Digit(digit), 0x1_0000_0000_0000_0000);
  }

  /** The loop's number is the one spelled exactly when that fits 64 bits, leading zeros and all. */
  lemma {:induction false} ScoreExactWhen(score: seq<byte>, rest: seq<byte>)
    requires (forall i :: 0 <= i < |score| ==> IsDigit(score[i])) && (rest == [] || !IsDigit(rest[0]))
    ensures NumberSpelled(score) <= U64_MAX ==>
              ScoreOf(score + rest, Score(false, 0)) == Score(score != [], NumberSpelled(score))
    ensures ScoreOf(score + rest, Score(false, 0)).value == NumberSpelled(score) <==> NumberSpelled(score) <= U64_MAX
  {
    if NumberSpelled(score) <= U64_MAX {
      ScoreReads(score, |score|, rest);
      hide NumberSpelled;
      assert score[..|score|] == score && score[|score|..] + rest == rest;
    }
  }

  /** Past 64 bits the flag can be lost. A score that is not zero becomes zero with the next digit exactly
      when it is 1844674407370955161 and the digit a six, or it is larger and the digit a one. */
  lemma FlagLostWhen(v: u64, digit: byte)
    requires v > 0 && IsDigit(digit)
    ensures ScoreStep(v, digit) == 0
            <==> (v == 1844674407370955161 && Digit(digit) == 6) || (v > 1844674407370955161 && Digit(digit) == 1)
  {
    if v <= 1844674407370955160 {
      DigitAdded(v, digit);
    }
  }

  lemma {:induction false} ScoreWhole(w: Wire, post: seq<byte>)
    requires WellFormed(w)
    ensures var s := ScoreOf(w.Tail() + post, Score(false, 0));
            (s.have && s.value > 0) == (NumberSpelled(w.score) > 0)
  {
    var rest := [COLON] + (w.id + [0]) + post;
    ConcatAssoc(w.score, [COLON] + (w.id + [0]), post);
    ScoreReads(w.score, |w.score|, rest);
    assert w.score[..|w.score|] == w.score && w.score[|w.score|..] + rest == rest;
  }

  lemma SenderReads(server: seq<byte>, sender: seq<byte>)
    requires DOT !in sender && (server == [] || server[|server| - 1] == DOT)
    ensures AfterLastDot(server + sender) == sender
  {
    if server == [] {
      assert server + sender == sender;
    } else {
      assert (server + sender)[|server|..] == sender;
      Links.LastIndexIs(server + sender, DOT, |server| - 1);
    }
  }

  lemma {:induction false} ChannelReads(header: seq<byte>, channel: seq<byte>)
    requires |header| == 4 && channel != [] && PlainText(channel)
    ensures var field := header + channel;
            && field[4] == channel[0]
            && Latin1(LeadingPrintable(field[5..])) == channel[1..]
            && Latin1(field[TrailingStart(field, |field|)..]) == Latin1(header[TrailingStart(header, 4)..]) + channel
  {
    var field := header + channel;
    var s := TrailingStart(header, 4);
    PlainTrails(header, channel);
    assert field[5..] == channel[1..] && field[s..] == header[s..] + channel;
    PlainLeads(channel[1..]);
    Latin1Plain(channel[1..]);
    Latin1Concat(header[s..], channel);
    Latin1Plain(channel);
    hide *;
  }

  lemma PlainPasses(s: seq<byte>)
    requires PlainText(s) && s != []
    ensures MostlyPrintable(s)
  {
    PlainIsPrintable(s);
  }

  lemma {:induction false} PlainMessage(s: seq<byte>)
    requires PlainText(s)
    ensures Links.Clean(Latin1(s)) == s
  {
    Latin1Plain(s);
    Links.CleanPlain(s);
  }

  lemma {:induction false} PlainSender(server: seq<byte>, sender: seq<byte>)
    requires PlainText(server) && PlainText(sender)
    requires DOT !in sender && (server == [] || server[|server| - 1] == DOT)
    ensures AfterLastDot(Latin1(server + sender)) == sender
  {
    Latin1Plain(server + sender);
    SenderReads(server, sender);
  }

  lemma {:induction false} ShowsIt(w: Wire, post: seq<byte>)
    requires WellFormed(w)
    requires var s := ScoreOf(w.Tail() + post, Score(false, 0));
             (s.have && s.value > 0) == (NumberSpelled(w.score) > 0)
    ensures var s := ScoreOf(w.Tail() + post, Score(false, 0));
            Shows(UcsRecord(w.channel[0], w.channel[1..],
                            Latin1(w.header[TrailingStart(w.header, 4)..]) + w.channel, w.sender, w.message,
                            s.have && s.value > 0), w)
  {
    var k := TrailingStart(w.header, 4);
    TrailingIsRun(w.header, 4);
    assert EndRun(w.header, k);
    hide EndRun, TrailingStart, Latin1, ScoreOf, NumberSpelled, PlainText;
  }

  lemma BuildReads(w: Wire, post: seq<byte>) returns (r: UcsRecord)
    requires WellFormed(w)
    ensures |w.Field()| >= 5 && Shows(r, w)
    ensures Build(w.Field(), w.ServerSender(), w.message, w.Tail() + post) == Some(r)
  {
    ChannelReads(w.header, w.channel);
    ScoreWhole(w, post);
    PlainSender(w.server, w.sender);
    PlainMessage(w.message);
    PlainPasses(w.sender);
    PlainPasses(w.message);
    assert |w.sender| <= 32 && |w.Field()| >= 5;
    ShowsIt(w, post);
    var s := ScoreOf(w.Tail() + post, Score(false, 0));
    r := UcsRecord(w.channel[0], w.channel[1..],
                   Latin1(w.header[TrailingStart(w.header, 4)..]) + w.channel, w.sender, w.message,
                   s.have && s.value > 0);
    hide *;
    BuildIs(w.Field(), w.ServerSender(), w.message, w.Tail() + post, w.sender, w.message);
  }

  lemma {:induction false} BuildIs(field: seq<byte>, ss: seq<byte>, text: seq<byte>, tail: seq<byte>,
                sender: seq<byte>, message: seq<byte>)
    requires |field| >= 5 && Links.Clean(Latin1(text)) == message && AfterLastDot(Latin1(ss)) == sender
    requires MostlyPrintable(sender) && MostlyPrintable(message) && |sender| <= 32
    ensures var s := ScoreOf(tail, Score(false, 0));
            Build(field, ss, text, tail)
            == Some(UcsRecord(field[4], Latin1(LeadingPrintable(field[5..])),
                              Latin1(field[TrailingStart(field, |field|)..]), sender, message, s.have && s.value > 0))
  {
    hide Latin1, LeadingPrintable, TrailingStart, ScoreOf, AfterLastDot, Links.Clean, MostlyPrintable;
  }

  // ---- where the fields lie ------------------------------------------------

  lemma {:induction false} FieldStartIs(buf: seq<byte>, s: nat, end: nat)
    requires s <= end <= |buf| && (s == 0 || buf[s - 1] == 0) && 0 !in buf[s..end]
    ensures FieldStart(buf, end) == s
  {
    if s == end {
    } else {
      assert buf[end - 1] == buf[s..end][end - 1 - s];
      assert buf[s..end][..end - 1 - s] == buf[s..end - 1];
      FieldStartIs(buf, s, end - 1);
    }
  }

  ghost predicate Placed(buf: seq<byte>, a: nat, field: seq<byte>, ss: seq<byte>, msg: seq<byte>, tail: seq<byte>) {
    var s1 := a + |field| + 1;
    var s2 := s1 + |ss| + 1;
    var t := s2 + |msg| + 1;
    && Lies(buf, a, field) && Lies(buf, s1 - 1, [0]) && Lies(buf, s1, ss) && Lies(buf, s2 - 1, [0])
    && Lies(buf, s2, msg) && Lies(buf, t - 1, [0]) && Lies(buf, t, SPAM) && Lies(buf, t + 5, tail)
  }

  lemma LayoutPlaced(buf: seq<byte>, a: nat, field: seq<byte>, ss: seq<byte>, msg: seq<byte>, tail: seq<byte>)
    requires Lies(buf, a, Layout(field, ss, msg, tail))
    ensures Placed(buf, a, field, ss, msg, tail)
    ensures a + |field| + |ss| + |msg| + 8 + |tail| <= |buf|
  {
    hide *;
    LayoutIs(field, ss, msg, tail);
    LiesInside(buf, a, Layout(field, ss, msg, tail));
    ThreeFields(buf, a, field, ss, msg, SPAM + tail);
    LiesSplit(buf, a + |field| + |ss| + |msg| + 3, SPAM, tail);
    PlacedFrom(buf, a, field, ss, msg, tail);
  }

  lemma ThreeFields(buf: seq<byte>, a: nat, x: seq<byte>, y: seq<byte>, z: seq<byte>, rest: seq<byte>)
    requires Lies(buf, a, x + ([0] + (y + ([0] + (z + ([0] + rest))))))
    ensures Lies(buf, a, x) && Lies(buf, a + |x|, [0])
    ensures Lies(buf, a + |x| + 1, y) && Lies(buf, a + |x| + 1 + |y|, [0])
    ensures Lies(buf, a + |x| + |y| + 2, z) && Lies(buf, a + |x| + |y| + 2 + |z|, [0])
    ensures Lies(buf, a + |x| + |y| + |z| + 3, rest)
  {
    hide *;
    FieldLies(buf, a, x, y + ([0] + (z + ([0] + rest))));
    FieldLies(buf, a + |x| + 1, y, z + ([0] + rest));
    FieldLies(buf, a + |x| + |y| + 2, z, rest);
  }

  lemma PlacedFrom(buf: seq<byte>, a: nat, field: seq<byte>, ss: seq<byte>, msg: seq<byte>, tail: seq<byte>)
    requires Lies(buf, a, field) && Lies(buf, a + |field|, [0])
    requires Lies(buf, a + |field| + 1, ss) && Lies(buf, a + |field| + 1 + |ss|, [0])
    requires Lies(buf, a + |field| + |ss| + 2, msg) && Lies(buf, a + |field| + |ss| + 2 + |msg|, [0])
    requires Lies(buf, a + |field| + |ss| + |msg| + 3, SPAM)
    requires Lies(buf, a + |field| + |ss| + |msg| + 3 + |SPAM|, tail)
    ensures Placed(buf, a, field, ss, msg, tail)
  {
    hide Lies;
  }

  lemma LayoutIs(field: seq<byte>, ss: seq<byte>, msg: seq<byte>, tail: seq<byte>)
    ensures Layout(field, ss, msg, tail) == field + ([0] + (ss + ([0] + (msg + ([0] + (SPAM + tail))))))
  {
  }

  lemma FieldLies(buf: seq<byte>, p: nat, x: seq<byte>, rest: seq<byte>)
    requires Lies(buf, p, x + ([0] + rest))
    ensures Lies(buf, p, x) && Lies(buf, p + |x|, [0]) && Lies(buf, p + |x| + 1, rest)
  {
    hide *;
    LiesSplit(buf, p, x, [0] + rest);
    LiesSplit(buf, p + |x|, [0], rest);
  }

  /** The byte at offset `i` of what lies at `p`. */
  lemma LiesByte(buf: seq<byte>, p: nat, x: seq<byte>, i: nat)
    requires Lies(buf, p, x) && i < |x|
    ensures p + i < |buf| && buf[p + i] == x[i]
  {
    assert buf[p..p + |x|][i] == buf[p + i];
  }

  /** A field between two NULs is found again from its end. */
  lemma {:induction false} FieldFound(buf: seq<byte>, s: nat, x: seq<byte>)
    requires s <= |buf| && Lies(buf, s, x) && 0 !in x && (s == 0 || buf[s - 1] == 0)
    ensures FieldStart(buf, s + |x|) == s && buf[s..s + |x|] == x
  {
    FieldStartIs(buf, s, s + |x|);
  }

  function Anchor(a: nat, field: seq<byte>, ss: seq<byte>, msg: seq<byte>): nat {
    a + |field| + |ss| + |msg| + 3
  }

  lemma PlacedParts(buf: seq<byte>, a: nat, field: seq<byte>, ss: seq<byte>, msg: seq<byte>, tail: seq<byte>)
    requires Placed(buf, a, field, ss, msg, tail)
    ensures var s1 := a + |field| + 1; var s2 := s1 + |ss| + 1; var t := s2 + |msg| + 1;
            && Lies(buf, a, field) && Lies(buf, s1 - 1, [0]) && Lies(buf, s1, ss) && Lies(buf, s2 - 1, [0])
            && Lies(buf, s2, msg) && Lies(buf, t - 1, [0]) && t == Anchor(a, field, ss, msg)
  {
    hide Lies;
  }

  lemma PlacedTail(buf: seq<byte>, a: nat, field: seq<byte>, ss: seq<byte>, msg: seq<byte>, tail: seq<byte>)
    requires Placed(buf, a, field, ss, msg, tail)
    ensures var t := Anchor(a, field, ss, msg);
            a <= t && Occurs(buf, t) && Lies(buf, t + 5, tail) && t + 5 + |tail| <= |buf|
  {
    LiesInside(buf, Anchor(a, field, ss, msg), SPAM);
    LiesInside(buf, Anchor(a, field, ss, msg) + 5, tail);
  }

  /** From its trailer a record's three fields are found again. */
  lemma FieldsFound(buf: seq<byte>, a: nat, field: seq<byte>, ss: seq<byte>, msg: seq<byte>, tail: seq<byte>)
    requires Placed(buf, a, field, ss, msg, tail) && a <= |buf| && (a == 0 || buf[a - 1] == 0)
    requires 0 !in field && 0 !in ss && 0 !in msg && |field| >= 5 && ss != [] && msg != []
    ensures var t := Anchor(a, field, ss, msg);
            Occurs(buf, t) && RecordAt(buf, t) == Build(field, ss, msg, buf[t + 5..])
  {
    var s1 := a + |field| + 1;
    var s2 := s1 + |ss| + 1;
    var t := s2 + |msg| + 1;
    hide *;
    PlacedParts(buf, a, field, ss, msg, tail);
    PlacedTail(buf, a, field, ss, msg, tail);
    LiesByte(buf, s1 - 1, [0], 0);
    LiesByte(buf, s2 - 1, [0], 0);
    LiesByte(buf, t - 1, [0], 0);
    FieldFound(buf, a, field);
    FieldFound(buf, s1, ss);
    FieldFound(buf, s2, msg);
    RecordAtIs(buf, t, s2, s1, a);
  }

  lemma RecordAtIs(buf: seq<byte>, t: nat, msgStart: nat, ssStart: nat, ceStart: nat)
    requires Occurs(buf, t) && 2 <= t <= |buf| && buf[t - 1] == 0
    requires FieldStart(buf, t - 1) == msgStart && 2 <= msgStart < t - 1
    requires FieldStart(buf, msgStart - 1) == ssStart && 2 <= ssStart < msgStart - 1
    requires FieldStart(buf, ssStart - 1) == ceStart && ceStart + 5 <= ssStart - 1
    ensures RecordAt(buf, t)
            == Build(buf[ceStart..ssStart - 1], buf[ssStart..msgStart - 1], buf[msgStart..t - 1], buf[t + 5..])
  {
    hide FieldStart, Build;
  }

  /** A field that does not start with the marker, and ends on a NUL, is no trailer. */
  lemma FieldIsNoTrailer(buf: seq<byte>, p: nat, x: seq<byte>)
    requires Lies(buf, p, x) && Lies(buf, p + |x|, [0]) && !(SPAM <= x)
    ensures !Occurs(buf, p)
  {
    LiesByte(buf, p + |x|, [0], 0);
    if |x| >= 5 {
      assert buf[p..p + 5] == x[..5];
    } else if p + 5 <= |buf| {
      assert buf[p..p + 5][|x|] == 0;
    }
  }

  lemma AfterByte(buf: seq<byte>, p: nat, x: seq<byte>, k: nat)
    requires Lies(buf, p, x) && p < k <= p + |x| && x[k - 1 - p] != 0
    ensures Found(buf, k) == []
  {
    LiesByte(buf, p, x, k - 1 - p);
  }

  /** No NUL but the last byte, and no field that looks like a trailer. */
  ghost predicate Quiet(field: seq<byte>, ss: seq<byte>, msg: seq<byte>, tail: seq<byte>) {
    && 0 !in field && 0 !in ss && 0 !in msg
    && !(SPAM <= field) && !(SPAM <= ss) && !(SPAM <= msg)
    && forall i :: 0 <= i < |tail| - 1 ==> tail[i] != 0
  }

  /** Between the start of a record and its end, only its own trailer yields anything. */
  lemma NothingElse(buf: seq<byte>, a: nat, field: seq<byte>, ss: seq<byte>, msg: seq<byte>, tail: seq<byte>, k: nat)
    requires Placed(buf, a, field, ss, msg, tail) && Quiet(field, ss, msg, tail)
    requires var t := Anchor(a, field, ss, msg); a <= k < t + 5 + |tail| && k != t
    ensures Found(buf, k) == []
  {
    hide RecordAt, Lies;
    var s1 := a + |field| + 1;
    var s2 := s1 + |ss| + 1;
    var t := s2 + |msg| + 1;
    if k == a {
      FieldIsNoTrailer(buf, a, field);
    } else if k < s1 {
      AfterByte(buf, a, field, k);
    } else if k == s1 {
      FieldIsNoTrailer(buf, s1, ss);
    } else if k < s2 {
      AfterByte(buf, s1, ss, k);
    } else if k == s2 {
      FieldIsNoTrailer(buf, s2, msg);
    } else if k < t {
      AfterByte(buf, s2, msg, k);
    } else if k <= t + 5 {
      AfterByte(buf, t, SPAM, k);
    } else {
      AfterByte(buf, t + 5, tail, k);
    }
  }

  lemma RecordAlone(buf: seq<byte>, a: nat, field: seq<byte>, ss: seq<byte>, msg: seq<byte>, tail: seq<byte>)
    requires Placed(buf, a, field, ss, msg, tail) && a <= |buf| && Quiet(field, ss, msg, tail)
    ensures var t := Anchor(a, field, ss, msg); var end := t + 5 + |tail|;
            a <= t < end <= |buf| && Collect(buf, a) == Found(buf, t) + Collect(buf, end)
  {
    hide *;
    PlacedTail(buf, a, field, ss, msg, tail);
    var t := Anchor(a, field, ss, msg);
    var end := t + 5 + |tail|;
    forall k | a <= k < end && k != t ensures Found(buf, k) == [] {
      NothingElse(buf, a, field, ss, msg, tail, k);
    }
    CollectStep(buf, t);
    CollectSkip(buf, a, t);
    CollectSkip(buf, t + 1, end);
  }

  lemma CollectStep(buf: seq<byte>, t: nat)
    requires t < |buf|
    ensures Collect(buf, t) == Found(buf, t) + Collect(buf, t + 1)
  {
  }

  lemma PlainHasNoNul(s: seq<byte>)
    requires PlainText(s)
    ensures 0 !in s
  {
  }

  lemma NoNuls(w: Wire)
    requires WellFormed(w)
    ensures Quiet(w.Field(), w.ServerSender(), w.message, w.Tail())
    ensures 0 !in w.Field() && 0 !in w.ServerSender() && 0 !in w.message
    ensures |w.Field()| >= 5 && w.ServerSender() != [] && w.message != []
    ensures w.Tail() != [] && w.Tail()[|w.Tail()| - 1] == 0
  {
    PlainHasNoNul(w.channel);
    PlainHasNoNul(w.server);
    PlainHasNoNul(w.sender);
    PlainHasNoNul(w.message);
  }

  /** A record as the walk sees it: three fields and a tail, whatever they hold. */
  datatype Frame = Frame(field: seq<byte>, serverSender: seq<byte>, message: seq<byte>, tail: seq<byte>) {
    function Bytes(): seq<byte> {
      Layout(field, serverSender, message, tail)
    }
  }

  /** No NUL in the fields, none but the last byte in the tail, no field that starts with the marker, and no
      field missing. */
  ghost predicate Framed(f: Frame) {
    && Quiet(f.field, f.serverSender, f.message, f.tail)
    && |f.field| >= 5 && f.serverSender != [] && f.message != []
    && f.tail != [] && f.tail[|f.tail| - 1] == 0
  }

  /** What is made of a record: one that does not pass for chat is dropped. */
  ghost function Kept(f: Frame): seq<UcsRecord>
    requires Framed(f)
  {
    match Build(f.field, f.serverSender, f.message, f.tail)
    case Some(r) => [r]
    case None => []
  }

  lemma {:induction false} ScoreStops(tail: seq<byte>, post: seq<byte>, acc: Score)
    requires tail != [] && tail[|tail| - 1] == 0
    ensures ScoreOf(tail + post, acc) == ScoreOf(tail, acc)
  {
    assert (tail + post)[0] == tail[0];
    if !IsDigit(tail[0]) {
    } else {
      assert (tail + post)[1..] == tail[1..] + post;
      ScoreStops(tail[1..], post, Score(true, ScoreStep(acc.value, tail[0])));
    }
  }

  /** The score is read up to the tail's end at the latest. */
  lemma BuildStops(f: Frame, post: seq<byte>)
    requires Framed(f)
    ensures Build(f.field, f.serverSender, f.message, f.tail + post)
            == Build(f.field, f.serverSender, f.message, f.tail)
  {
    ScoreStops(f.tail, post, Score(false, 0));
    hide Latin1, LeadingPrintable, TrailingStart, ScoreOf, AfterLastDot, Links.Clean, MostlyPrintable;
  }

  lemma FramedMeans(f: Frame, a: nat)
    requires Framed(f)
    ensures 0 !in f.field && 0 !in f.serverSender && 0 !in f.message && |f.field| >= 5
    ensures f.serverSender != [] && f.message != [] && f.tail != [] && f.tail[|f.tail| - 1] == 0
    ensures Quiet(f.field, f.serverSender, f.message, f.tail)
    ensures f.Bytes() == Layout(f.field, f.serverSender, f.message, f.tail)
    ensures a + |f.Bytes()| == Anchor(a, f.field, f.serverSender, f.message) + 5 + |f.tail| && |f.Bytes()| >= 13
  {
  }

  lemma KeptIs(f: Frame, buf: seq<byte>, t: nat)
    requires Framed(f) && Occurs(buf, t) && RecordAt(buf, t) == Build(f.field, f.serverSender, f.message, f.tail)
    ensures Found(buf, t) == Kept(f)
  {
    hide Occurs, RecordAt, Build;
  }

  /** From where it lies a framed record is collected, and nothing else before its end. */
  lemma FrameCollected(buf: seq<byte>, a: nat, f: Frame)
    requires Framed(f) && Lies(buf, a, f.Bytes()) && a <= |buf| && (a == 0 || buf[a - 1] == 0)
    ensures a + |f.Bytes()| <= |buf| && Collect(buf, a) == Kept(f) + Collect(buf, a + |f.Bytes()|)
    ensures |f.Bytes()| >= 12 && buf[a + |f.Bytes()| - 1] == 0
  {
    hide *;
    FramedMeans(f, a);
    var t := Anchor(a, f.field, f.serverSender, f.message);
    LayoutPlaced(buf, a, f.field, f.serverSender, f.message, f.tail);
    RecordAlone(buf, a, f.field, f.serverSender, f.message, f.tail);
    FieldsFound(buf, a, f.field, f.serverSender, f.message, f.tail);
    PlacedTail(buf, a, f.field, f.serverSender, f.message, f.tail);
    TailLast(buf, t + 5, f.tail);
    RestAfter(buf, t + 5, f.tail);
    BuildStops(f, buf[t + 5 + |f.tail|..]);
    KeptIs(f, buf, t);
  }

  lemma TailLast(buf: seq<byte>, p: nat, tail: seq<byte>)
    requires Lies(buf, p, tail) && tail != [] && tail[|tail| - 1] == 0
    ensures p + |tail| <= |buf| && buf[p + |tail| - 1] == 0
  {
    LiesByte(buf, p, tail, |tail| - 1);
  }

  lemma RestAfter(buf: seq<byte>, p: nat, tail: seq<byte>)
    requires Lies(buf, p, tail)
    ensures p + |tail| <= |buf| && buf[p..] == tail + buf[p + |tail|..]
  {
  }

  // ---- the round trip ------------------------------------------------------

  function AllBytes(fs: seq<Frame>): seq<byte> {
    if fs == [] then [] else fs[0].Bytes() + AllBytes(fs[1..])
  }

  ghost predicate AllFramed(fs: seq<Frame>) {
    forall i :: 0 <= i < |fs| ==> Framed(fs[i])
  }

  ghost function AllKept(fs: seq<Frame>): seq<UcsRecord>
    requires AllFramed(fs)
  {
    if fs == [] then [] else Kept(fs[0]) + AllKept(fs[1..])
  }

  lemma {:induction false} FramesCons(fs: seq<Frame>)
    requires AllFramed(fs) && fs != []
    ensures Framed(fs[0]) && AllFramed(fs[1..])
    ensures AllBytes(fs) == fs[0].Bytes() + AllBytes(fs[1..]) && AllKept(fs) == Kept(fs[0]) + AllKept(fs[1..])
  {
    hide Framed, Kept;
  }

  lemma {:induction false} NoFrames(buf: seq<byte>)
    ensures AllBytes([]) == [] && AllKept([]) == [] && Collect(buf, |buf|) == []
  {
  }

  lemma {:induction false} AllCollected(buf: seq<byte>, a: nat, fs: seq<Frame>)
    requires AllFramed(fs) && a + |AllBytes(fs)| == |buf| && Lies(buf, a, AllBytes(fs))
    requires a <= |buf| && (a == 0 || buf[a - 1] == 0)
    ensures Collect(buf, a) == AllKept(fs)
    decreases |fs|
  {
    hide *;
    if fs == [] {
      NoFrames(buf);
    } else {
      FramesCons(fs);
      LiesSplit(buf, a, fs[0].Bytes(), AllBytes(fs[1..]));
      FrameCollected(buf, a, fs[0]);
      AllCollected(buf, a + |fs[0].Bytes()|, fs[1..]);
    }
  }

  /** Any list of framed records, put one after the other and enciphered, decodes to exactly what is made of
      each: no record hides, splits or alters another, whether it passes for chat or not. */
  lemma {:induction false} FramesDecode(fs: seq<Frame>)
    requires AllFramed(fs)
    ensures Parse(Cipher(AllBytes(fs))) == AllKept(fs)
  {
    var buf := AllBytes(fs);
    if fs != [] {
      assert buf == fs[0].Bytes() + AllBytes(fs[1..]) && Framed(fs[0]);
      LiesWhole(buf, buf);
      hide *;
      PlainInvertsCipher(buf);
      AllCollected(buf, 0, fs);
      LiesSplit(buf, 0, fs[0].Bytes(), AllBytes(fs[1..]));
      FrameCollected(buf, 0, fs[0]);
      ParseIs(Cipher(buf));
    }
  }

  lemma ParseIs(payload: seq<byte>)
    requires |payload| >= 12
    ensures Parse(payload) == Collect(Plain(payload), 0)
  {
  }

  // ---- well-formed records -------------------------------------------------

  ghost predicate AllWellFormed(ws: seq<Wire>) {
    forall i :: 0 <= i < |ws| ==> WellFormed(ws[i])
  }

  ghost predicate ShowsAll(rs: seq<UcsRecord>, ws: seq<Wire>) {
    |rs| == |ws| && forall i :: 0 <= i < |ws| ==> Shows(rs[i], ws[i])
  }

  function FrameOf(w: Wire): Frame {
    Frame(w.Field(), w.ServerSender(), w.message, w.Tail())
  }

  function Frames(ws: seq<Wire>): (fs: seq<Frame>)
    ensures |fs| == |ws| && forall i :: 0 <= i < |ws| ==> fs[i] == FrameOf(ws[i])
  {
    seq(|ws|, i requires 0 <= i < |ws| => FrameOf(ws[i]))
  }

  lemma WellFormedKept(w: Wire) returns (r: UcsRecord)
    requires WellFormed(w)
    ensures Framed(FrameOf(w)) && Kept(FrameOf(w)) == [r] && Shows(r, w)
  {
    hide Build, Shows, WellFormed, Quiet;
    NoNuls(w);
    r := BuildReads(w, []);
    assert w.Tail() + [] == w.Tail();
  }

  lemma {:induction false} AllWellFormedKept(ws: seq<Wire>)
    requires AllWellFormed(ws)
    ensures AllFramed(Frames(ws)) && ShowsAll(AllKept(Frames(ws)), ws)
  {
    hide Framed, Kept, WellFormed, Shows;
    forall i | 0 <= i < |ws| ensures Framed(Frames(ws)[i]) {
      var _ := WellFormedKept(ws[i]);
    }
    if ws == [] {
    } else {
      assert Frames(ws)[1..] == Frames(ws[1..]);
      AllWellFormedKept(ws[1..]);
      var r := WellFormedKept(ws[0]);
      var rest := AllKept(Frames(ws[1..]));
      assert AllKept(Frames(ws)) == [r] + rest;
    }
  }

  /** Any list of well-formed records, put one after the other and enciphered, decodes to exactly
      that list. */
  lemma {:induction false} RoundTrip(ws: seq<Wire>)
    requires AllWellFormed(ws)
    ensures ShowsAll(Parse(Cipher(AllBytes(Frames(ws)))), ws)
  {
    hide *;
    AllWellFormedKept(ws);
    FramesDecode(Frames(ws));
  }

  /** Where the masked header ends on an unprintable byte the run is exactly the channel. */
  lemma RunIsChannel(r: UcsRecord, w: Wire)
    requires Shows(r, w) && w.header != [] && !Printable(w.header[|w.header| - 1])
    ensures r.channelRun == w.channel
  {
    var k: nat :| EndRun(w.header, k) && r.channelRun == Latin1(w.header[k..]) + w.channel;
    assert k == |w.header| && Latin1([]) + w.channel == w.channel;
  }

  /** A framed record of plain text is kept exactly when something stands behind the last dot of its second
      field, and at most 32 bytes of it. */
  lemma KeptWhen(f: Frame, server: seq<byte>, sender: seq<byte>)
    requires Framed(f) && PlainText(f.message) && PlainText(server) && PlainText(sender)
    requires f.serverSender == server + sender && DOT !in sender && (server == [] || server[|server| - 1] == DOT)
    ensures Kept(f) != [] <==> 0 < |sender| <= 32
  {
    PlainSender(server, sender);
    PlainMessage(f.message);
    PlainPasses(f.message);
    if sender != [] {
      PlainPasses(sender);
    }
    hide Latin1, AfterLastDot, Links.Clean, PlainText, PrintableCount;
  }

  // ---- Latin-1 text --------------------------------------------------------

  function Count(s: seq<byte>, from: byte, to: int): nat {
    if s == [] then 0 else Count(s[..|s| - 1], from, to) + if from <= s[|s| - 1] < to then 1 else 0
  }

  lemma {:induction false} PrintableConcat(a: seq<byte>, b: seq<byte>)
    ensures PrintableCount(a + b) == PrintableCount(a) + PrintableCount(b)
  {
    if b == [] {
      assert a + b == a;
    } else {
      PrintableConcat(a, b[..|b| - 1]);
      assert (a + b)[..|a + b| - 1] == a + b[..|b| - 1];
    }
  }

  lemma {:induction false} CharWeight(c: byte)
    requires Printable(c)
    ensures |Latin1Char(c)| == if c < 0x80 then 1 else 2
    ensures PrintableCount(Latin1Char(c)) == if c < 0xC0 || c >= 0xE0 then |Latin1Char(c)| else 1
  {
    var u := Latin1Char(c);
    if c < 0x80 {
      assert u[..0] == [];
    } else {
      assert u[..1] == [u[0]] && u[..1][..0] == [];
      assert PrintableCount(u[..1]) == 1;
    }
  }

  lemma {:induction false} Latin1Weighs(s: seq<byte>)
    requires forall i :: 0 <= i < |s| ==> Printable(s[i])
    ensures |Latin1(s)| == |s| + Count(s, 0x80, 0x100)
    ensures PrintableCount(Latin1(s)) == |Latin1(s)| - Count(s, 0xC0, 0xE0)
  {
    if s == [] {
    } else {
      hide PrintableCount;
      var front, c := s[..|s| - 1], s[|s| - 1];
      Latin1Weighs(front);
      CharWeight(c);
      PrintableConcat(Latin1(front), Latin1Char(c));
    }
  }

  /** The text kept of a byte is the UTF-8 form of the Latin-1 character with that number. */
  lemma Latin1IsUtf8(c: byte)
    ensures var u := Latin1Char(c);
            if c < 0x80 then u == [c]
            else |u| == 2 && 0xC2 <= u[0] < 0xE0 && 0x80 <= u[1] < 0xC0 && u[0] % 0x20 * 0x40 + u[1] % 0x40 == c
  {
  }

  /** The share of printable bytes is taken on the UTF-8 form. So printable Latin-1 text passes exactly when
      its capitals with an accent, which keep one of their two bytes below the printable range, are at most
      fifteen in a hundred bytes. */
  lemma {:induction false} AccentedPasses(s: seq<byte>)
    requires forall i :: 0 <= i < |s| ==> 0x20 <= s[i] < 0x7F || s[i] >= 0xA0
    ensures MostlyPrintable(Latin1(s))
            <==> s != [] && 100 * Count(s, 0xC0, 0xE0) <= 15 * (|s| + Count(s, 0x80, 0x100))
  {
    Latin1Weighs(s);
    hide PrintableCount, Count, Latin1;
  }
}
