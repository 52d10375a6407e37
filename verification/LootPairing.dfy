/** What the matcher computes, told without queues: when every item id is known, the k-th narration
    of an item joins the k-th confirmation of that item; and, known or not, how the narration side and
    the confirmation side interleave matters exactly where two halves of one item meet while an unknown
    half waits and no half of that item does. */
module LootPairing {
  import opened Prelude
  import opened LootTracker
  import opened LootTrackerLaws
  import LootText

  // ---- known ids -----------------------------------------------------------

  ghost predicate AllKnown(t: Tracker) {
    && (forall i :: 0 <= i < |t.messages| ==> t.messages[i].itemId != 0)
    && (forall i :: 0 <= i < |t.confirmations| ==> t.confirmations[i].itemId != 0)
  }

  /** If the event is accepted, the id it pairs by is not zero. */
  predicate Known(t: Tracker, e: Event) {
    && (AcceptsNarration(t, e) ==> NarrationRow(t, e).itemId != 0)
    && (AcceptsTransaction(t, e) && !e.fromCorpse ==> e.itemId != 0)
  }

  predicate NarrationSide(e: Event) {
    e.Narration? || e.DropItem?
  }

  /** No zone change, flush or reset. */
  predicate Plain(e: Event) {
    NarrationSide(e) || e.Transaction? || e.SetLooter?
  }

  ghost predicate KnownRun(t: Tracker, es: seq<Event>) {
    es == [] ||
    var front, e := es[..|es| - 1], es[|es| - 1];
    KnownRun(t, front) && Plain(e) && Known(Run(t, front).tracker, e)
  }

  lemma StepKnown(t: Tracker, e: Event)
    requires AllKnown(t) && Plain(e) && Known(t, e)
    ensures AllKnown(Step(t, e).tracker)
  {
    hide LootText.ParseLootLine, LootText.NormalizeMob;
  }

  lemma {:induction false} KnownStays(t: Tracker, es: seq<Event>)
    requires AllKnown(t) && KnownRun(t, es)
    ensures AllKnown(Run(t, es).tracker)
  {
    if es == [] {
    } else {
      KnownStays(t, es[..|es| - 1]);
      StepKnown(Run(t, es[..|es| - 1]).tracker, es[|es| - 1]);
    }
  }

  // ---- first in, first out, per item ---------------------------------------

  function ItemOfRow(row: LootRow): u32 {
    row.itemId
  }

  function ItemOfConfirmation(c: Confirmation): u32 {
    c.itemId
  }

  function JoinedItem(row: LootRow): Option<u32> {
    if KindOf(row) == Joined then Some(row.itemId) else None
  }

  /** The k-th narration joined with the k-th confirmation, as far as both go. */
  function Zip(ms: seq<LootRow>, cs: seq<Confirmation>): (r: seq<LootRow>)
    ensures |r| == Min(|ms|, |cs|)
    ensures forall k :: 0 <= k < |r| ==> r[k] == ApplyConfirmation(ms[k], cs[k])
  {
    seq(Min(|ms|, |cs|), k requires 0 <= k < Min(|ms|, |cs|) => ApplyConfirmation(ms[k], cs[k]))
  }

  lemma {:induction false} SelectConcat<T, K>(a: seq<T>, b: seq<T>, key: T -> K, k: K)
    ensures Select(a + b, key, k) == Select(a, key, k) + Select(b, key, k)
  {
    if b == [] {
      assert a + b == a;
    } else {
      SelectConcat(a, b[..|b| - 1], key, k);
      assert (a + b)[..|a + b| - 1] == a + b[..|b| - 1];
      ConcatAssoc(Select(a, key, k), Select(b[..|b| - 1], key, k), Chosen(b[|b| - 1], key, k));
    }
  }

  lemma {:induction false} SelectNone<T, K>(s: seq<T>, key: T -> K, k: K)
    requires forall i :: 0 <= i < |s| ==> key(s[i]) != k
    ensures Select(s, key, k) == []
  {
    if s == [] {
    } else {
      SelectNone(s[..|s| - 1], key, k);
    }
  }

  /** Removing an element drops it from its own key's list and from no other; the first of its key
      is the head of that list. */
  lemma {:induction false} SelectRemove<T, K>(s: seq<T>, i: nat, key: T -> K, k: K)
    requires i < |s| && forall j :: 0 <= j < i ==> key(s[j]) != key(s[i])
    ensures Select(s, key, k) == Chosen(s[i], key, k) + Select(RemoveAt(s, i), key, k)
  {
    var a, x, b := s[..i], s[i], s[i + 1..];
    assert s == a + [x] + b;
    SelectConcat(a + [x], b, key, k);
    SelectPush(a, x, key, k);
    SelectConcat(a, b, key, k);
    if key(x) == k {
      SelectNone(a, key, k);
    }
    OneEmpty(Select(a, key, k), Chosen(x, key, k), Select(b, key, k));
  }

  lemma OneEmpty<T>(a: seq<T>, x: seq<T>, b: seq<T>)
    requires a == [] || x == []
    ensures a + x + b == x + (a + b)
  {
    assert a + x == x + a;
  }

  /** What the run of an item looks like after any prefix of events. */
  ghost predicate Paired(t: Tracker, rows: seq<LootRow>, ms: seq<LootRow>, cs: seq<Confirmation>, item: u32) {
    QueuesPaired(t.messages, t.confirmations, rows, ms, cs, item)
  }

  ghost predicate QueuesPaired(messages: seq<LootRow>, confirmations: seq<Confirmation>,
                               rows: seq<LootRow>, ms: seq<LootRow>, cs: seq<Confirmation>, item: u32) {
    var done := Min(|ms|, |cs|);
    && Select(rows, JoinedItem, Some(item)) == Zip(ms, cs)
    && Select(messages, ItemOfRow, item) == ms[done..]
    && Select(confirmations, ItemOfConfirmation, item) == cs[done..]
  }

  /** The three lists of one item, when the next narration meets a waiting confirmation ... */
  lemma NarrationMeets(ms: seq<LootRow>, cs: seq<Confirmation>, m: LootRow, c: Confirmation, rest: seq<Confirmation>)
    requires cs[Min(|ms|, |cs|)..] == [c] + rest
    ensures var done := Min(|ms| + 1, |cs|);
            && Zip(ms + [m], cs) == Zip(ms, cs) + [ApplyConfirmation(m, c)]
            && (ms + [m])[done..] == ms[Min(|ms|, |cs|)..] && cs[done..] == rest
  {
    assert cs[|ms|..][0] == c && cs[|ms|..][1..] == rest;
    assert cs[|ms| + 1..] == cs[|ms|..][1..];
  }

  /** ... and when it has to wait. */
  lemma NarrationWaitsOn(ms: seq<LootRow>, cs: seq<Confirmation>, m: LootRow)
    requires cs[Min(|ms|, |cs|)..] == []
    ensures var done := Min(|ms| + 1, |cs|);
            && Zip(ms + [m], cs) == Zip(ms, cs)
            && (ms + [m])[done..] == ms[Min(|ms|, |cs|)..] + [m] && cs[done..] == []
  {
    assert |cs[Min(|ms|, |cs|)..]| == 0;
  }

  lemma ConfirmationMeets(ms: seq<LootRow>, cs: seq<Confirmation>, c: Confirmation, m: LootRow, rest: seq<LootRow>)
    requires ms[Min(|ms|, |cs|)..] == [m] + rest
    ensures var done := Min(|ms|, |cs| + 1);
            && Zip(ms, cs + [c]) == Zip(ms, cs) + [ApplyConfirmation(m, c)]
            && (cs + [c])[done..] == cs[Min(|ms|, |cs|)..] && ms[done..] == rest
  {
    assert ms[|cs|..][0] == m && ms[|cs|..][1..] == rest;
    assert ms[|cs| + 1..] == ms[|cs|..][1..];
  }

  lemma ConfirmationWaitsOn(ms: seq<LootRow>, cs: seq<Confirmation>, c: Confirmation)
    requires ms[Min(|ms|, |cs|)..] == []
    ensures var done := Min(|ms|, |cs| + 1);
            && Zip(ms, cs + [c]) == Zip(ms, cs)
            && (cs + [c])[done..] == cs[Min(|ms|, |cs|)..] + [c] && ms[done..] == []
  {
    assert |ms[Min(|ms|, |cs|)..]| == 0;
  }

  /** One more narration of the item. */
  lemma NarrationPaired(t: Tracker, rows: seq<LootRow>, ms: seq<LootRow>, cs: seq<Confirmation>, m: LootRow)
    requires AllKnown(t) && m.itemId != 0 && !m.complete && m.source == Message
    requires Paired(t, rows, ms, cs, m.itemId)
    ensures var o := JoinNarration(t, m); Paired(o.tracker, rows + o.rows, ms + [m], cs, m.itemId)
  {
    var item, q := m.itemId, t.confirmations;
    match Match(ConfirmationIds(q), item)
    case Some(i) =>
      assert forall j :: 0 <= j < i ==> ConfirmationIds(q)[j] != item;
      assert ConfirmationIds(q)[i] == item;
      NarrationTakes(t.messages, q, i, rows, ms, cs, m);
    case None =>
      assert forall j :: 0 <= j < |q| ==> ConfirmationIds(q)[j] != item;
      NarrationQueues(t.messages, q, rows, ms, cs, m);
      assert rows + [] == rows;
  }

  lemma NarrationTakes(messages: seq<LootRow>, q: seq<Confirmation>, i: nat, rows: seq<LootRow>,
                       ms: seq<LootRow>, cs: seq<Confirmation>, m: LootRow)
    requires m.source == Message && QueuesPaired(messages, q, rows, ms, cs, m.itemId)
    requires i < |q| && q[i].itemId == m.itemId && forall j :: 0 <= j < i ==> q[j].itemId != m.itemId
    ensures QueuesPaired(messages, RemoveAt(q, i), rows + [ApplyConfirmation(m, q[i])], ms + [m], cs, m.itemId)
  {
    SelectRemove(q, i, ItemOfConfirmation, m.itemId);
    NarrationMeets(ms, cs, m, q[i], Select(RemoveAt(q, i), ItemOfConfirmation, m.itemId));
    SelectPush(rows, ApplyConfirmation(m, q[i]), JoinedItem, Some(m.itemId));
  }

  lemma NarrationQueues(messages: seq<LootRow>, q: seq<Confirmation>, rows: seq<LootRow>,
                        ms: seq<LootRow>, cs: seq<Confirmation>, m: LootRow)
    requires QueuesPaired(messages, q, rows, ms, cs, m.itemId)
    requires forall j :: 0 <= j < |q| ==> q[j].itemId != m.itemId
    ensures QueuesPaired(messages + [m], q, rows, ms + [m], cs, m.itemId)
  {
    SelectNone(q, ItemOfConfirmation, m.itemId);
    SelectPush(messages, m, ItemOfRow, m.itemId);
    NarrationWaitsOn(ms, cs, m);
  }

  /** One more confirmation of the item. */
  lemma ConfirmationPaired(t: Tracker, rows: seq<LootRow>, ms: seq<LootRow>, cs: seq<Confirmation>, c: Confirmation)
    requires Settled(t) && AllKnown(t) && c.itemId != 0
    requires Paired(t, rows, ms, cs, c.itemId)
    ensures var o := JoinConfirmation(t, c); Paired(o.tracker, rows + o.rows, ms, cs + [c], c.itemId)
  {
    var item, q := c.itemId, t.messages;
    match Match(MessageIds(q), item)
    case Some(i) =>
      assert forall j :: 0 <= j < i ==> MessageIds(q)[j] != item;
      assert MessageIds(q)[i] == item;
      ConfirmationTakes(q, t.confirmations, i, rows, ms, cs, c);
    case None =>
      assert forall j :: 0 <= j < |q| ==> MessageIds(q)[j] != item;
      ConfirmationQueues(q, t.confirmations, rows, ms, cs, c);
      assert rows + [] == rows;
  }

  lemma ConfirmationTakes(q: seq<LootRow>, confirmations: seq<Confirmation>, i: nat, rows: seq<LootRow>,
                          ms: seq<LootRow>, cs: seq<Confirmation>, c: Confirmation)
    requires QueuesPaired(q, confirmations, rows, ms, cs, c.itemId) && c.itemId != 0
    requires i < |q| && q[i].source == Message && q[i].itemId == c.itemId
    requires forall j :: 0 <= j < i ==> q[j].itemId != c.itemId
    ensures QueuesPaired(RemoveAt(q, i), confirmations, rows + [ApplyConfirmation(q[i], c)], ms, cs + [c], c.itemId)
  {
    SelectRemove(q, i, ItemOfRow, c.itemId);
    ConfirmationMeets(ms, cs, c, q[i], Select(RemoveAt(q, i), ItemOfRow, c.itemId));
    SelectPush(rows, ApplyConfirmation(q[i], c), JoinedItem, Some(c.itemId));
  }

  lemma ConfirmationQueues(q: seq<LootRow>, confirmations: seq<Confirmation>, rows: seq<LootRow>,
                           ms: seq<LootRow>, cs: seq<Confirmation>, c: Confirmation)
    requires QueuesPaired(q, confirmations, rows, ms, cs, c.itemId)
    requires forall j :: 0 <= j < |q| ==> q[j].itemId != c.itemId
    ensures QueuesPaired(q, confirmations + [c], rows, ms, cs + [c], c.itemId)
  {
    SelectNone(q, ItemOfRow, c.itemId);
    SelectPush(confirmations, c, ItemOfConfirmation, c.itemId);
    ConfirmationWaitsOn(ms, cs, c);
  }

  /** A row that joins another item adds nothing to this one. */
  lemma {:induction false} OtherRow(rows: seq<LootRow>, row: LootRow, item: u32)
    requires row.itemId != item
    ensures Select(rows + [row], JoinedItem, Some(item)) == Select(rows, JoinedItem, Some(item))
  {
    SelectPush(rows, row, JoinedItem, Some(item));
  }

  lemma {:induction false} OtherConfirmationGone(q: seq<Confirmation>, i: nat, item: u32)
    requires i < |q| && q[i].itemId != item && forall j :: 0 <= j < i ==> q[j].itemId != q[i].itemId
    ensures Select(RemoveAt(q, i), ItemOfConfirmation, item) == Select(q, ItemOfConfirmation, item)
  {
    SelectRemove(q, i, ItemOfConfirmation, item);
    hide Select, RemoveAt;
  }

  lemma {:induction false} OtherMessageGone(q: seq<LootRow>, i: nat, item: u32)
    requires i < |q| && q[i].itemId != item && forall j :: 0 <= j < i ==> q[j].itemId != q[i].itemId
    ensures Select(RemoveAt(q, i), ItemOfRow, item) == Select(q, ItemOfRow, item)
  {
    SelectRemove(q, i, ItemOfRow, item);
    hide Select, RemoveAt;
  }

  /** Another item's narration changes nothing for this one. */
  lemma OtherNarration(t: Tracker, rows: seq<LootRow>, ms: seq<LootRow>, cs: seq<Confirmation>, m: LootRow, item: u32)
    requires AllKnown(t) && m.itemId != 0 && m.itemId != item
    requires Paired(t, rows, ms, cs, item)
    ensures var o := JoinNarration(t, m); Paired(o.tracker, rows + o.rows, ms, cs, item)
  {
    var q := t.confirmations;
    match Match(ConfirmationIds(q), m.itemId)
    case Some(i) =>
      assert forall j :: 0 <= j < i ==> ConfirmationIds(q)[j] != m.itemId;
      assert ConfirmationIds(q)[i] == m.itemId;
      OtherConfirmationGone(q, i, item);
      OtherRow(rows, ApplyConfirmation(m, q[i]), item);
      hide Select, Zip, RemoveAt;
    case None =>
      SelectPush(t.messages, m, ItemOfRow, item);
      assert rows + [] == rows;
      hide Select, Zip, RemoveAt;
  }

  lemma OtherConfirmation(t: Tracker, rows: seq<LootRow>, ms: seq<LootRow>, cs: seq<Confirmation>, c: Confirmation,
                          item: u32)
    requires AllKnown(t) && c.itemId != 0 && c.itemId != item
    requires Paired(t, rows, ms, cs, item)
    ensures var o := JoinConfirmation(t, c); Paired(o.tracker, rows + o.rows, ms, cs, item)
  {
    var q := t.messages;
    match Match(MessageIds(q), c.itemId)
    case Some(i) =>
      assert forall j :: 0 <= j < i ==> MessageIds(q)[j] != c.itemId;
      assert MessageIds(q)[i] == c.itemId;
      OtherMessageGone(q, i, item);
      OtherRow(rows, ApplyConfirmation(q[i], c), item);
      hide Select, Zip, RemoveAt;
    case None =>
      SelectPush(t.confirmations, c, ItemOfConfirmation, item);
      assert rows + [] == rows;
      hide Select, Zip, RemoveAt;
  }

  lemma NarrationStepPaired(t: Tracker, rows: seq<LootRow>, ms: seq<LootRow>, cs: seq<Confirmation>, e: Event,
                            item: u32)
    requires AllKnown(t) && AcceptsNarration(t, e) && Known(t, e) && Paired(t, rows, ms, cs, item)
    ensures var o := StepNarration(t, e);
            Paired(o.tracker, rows + o.rows, ms + Chosen(NarrationRow(t, e), ItemOfRow, item), cs, item)
  {
    hide LootText.ParseLootLine, LootText.NormalizeMob, Zip;
    var s, m := t.(seenMessages := t.seenMessages + {KeyOfNarration(e)}), NarrationRow(t, e);
    if m.itemId == item {
      NarrationPaired(s, rows, ms, cs, m);
    } else {
      OtherNarration(s, rows, ms, cs, m, item);
      assert ms + [] == ms;
    }
  }

  lemma ItemStepPaired(t: Tracker, rows: seq<LootRow>, ms: seq<LootRow>, cs: seq<Confirmation>, e: Event, item: u32)
    requires Settled(t) && AllKnown(t) && Known(t, e) && Paired(t, rows, ms, cs, item)
    requires AcceptsTransaction(t, e) && !e.fromCorpse
    ensures var o := StepTransaction(t, e);
            Paired(o.tracker, rows + o.rows, ms, cs + Chosen(ConfirmationOf(e), ItemOfConfirmation, item), item)
  {
    hide Zip;
    var s, c := t.(seenConfirmations := t.seenConfirmations + {KeyOfTransaction(e)}), ConfirmationOf(e);
    if c.itemId == item {
      ConfirmationPaired(s, rows, ms, cs, c);
    } else {
      OtherConfirmation(s, rows, ms, cs, c, item);
      assert cs + [] == cs;
    }
  }

  lemma SelectOne<T, K>(x: T, key: T -> K, k: K)
    ensures Select([x], key, k) == Chosen(x, key, k)
  {
    SelectPush([], x, key, k);
  }

  /** Events that join nothing: ignored ones, coin piles and window rows. */
  lemma OtherStepPaired(t: Tracker, rows: seq<LootRow>, ms: seq<LootRow>, cs: seq<Confirmation>, e: Event, item: u32)
    requires Plain(e) && Paired(t, rows, ms, cs, item)
    requires NarratedBy(t, e) == [] && ConfirmedBy(t, e) == []
    ensures var o := Step(t, e); Paired(o.tracker, rows + o.rows, ms, cs, item)
  {
    hide LootText.ParseLootLine, LootText.NormalizeMob, Zip, JoinNarration, JoinConfirmation, QueuesPaired;
    var o := Step(t, e);
    assert o.tracker.messages == t.messages && o.tracker.confirmations == t.confirmations;
    if o.rows == [] {
      assert rows + [] == rows;
    } else {
      assert |o.rows| == 1 && KindOf(o.rows[0]) != Joined && o.rows == [o.rows[0]];
      UnjoinedRow(t, rows, o.rows[0], ms, cs, item);
    }
  }

  lemma UnjoinedRow(t: Tracker, rows: seq<LootRow>, row: LootRow, ms: seq<LootRow>, cs: seq<Confirmation>, item: u32)
    requires Paired(t, rows, ms, cs, item) && KindOf(row) != Joined
    ensures Paired(t, rows + [row], ms, cs, item)
  {
    hide Zip;
    SelectPush(rows, row, JoinedItem, Some(item));
  }

  lemma {:induction false} StepPaired(t: Tracker, rows: seq<LootRow>, ms: seq<LootRow>, cs: seq<Confirmation>,
                                      e: Event, item: u32)
    requires Settled(t) && AllKnown(t) && Plain(e) && Known(t, e) && Paired(t, rows, ms, cs, item)
    ensures var o := Step(t, e);
            Paired(o.tracker, rows + o.rows, ms + Select(NarratedBy(t, e), ItemOfRow, item),
                   cs + Select(ConfirmedBy(t, e), ItemOfConfirmation, item), item)
  {
    assert ms + [] == ms && cs + [] == cs;
    if AcceptsNarration(t, e) {
      SelectOne(NarrationRow(t, e), ItemOfRow, item);
      NarrationStepPaired(t, rows, ms, cs, e, item);
      hide StepNarration, Paired, Known, NarrationRow;
    } else if AcceptsTransaction(t, e) && !e.fromCorpse {
      SelectOne(ConfirmationOf(e), ItemOfConfirmation, item);
      ItemStepPaired(t, rows, ms, cs, e, item);
      hide StepTransaction, Paired, Known;
    } else {
      OtherStepPaired(t, rows, ms, cs, e, item);
      hide Step, Paired, Known;
    }
  }

  lemma SelectSome<T, K>(s: seq<T>, key: T -> K, k: K) returns (i: nat)
    requires Select(s, key, k) != []
    ensures i < |s| && key(s[i]) == k
  {
    if forall j :: 0 <= j < |s| ==> key(s[j]) != k {
      SelectNone(s, key, k);
    }
    i :| i < |s| && key(s[i]) == k;
  }

  lemma WaitsOnOneSide(t: Tracker, i: nat, j: nat)
    requires Settled(t) && i < |t.messages| && j < |t.confirmations|
    ensures ItemOfRow(t.messages[i]) != ItemOfConfirmation(t.confirmations[j])
  {
    assert !Compatible(t.messages[i].itemId, t.confirmations[j].itemId);
  }

  /** Before anything happens: one item never waits on both sides. */
  lemma {:induction false} NothingPairedYet(t: Tracker, item: u32)
    requires Settled(t)
    ensures Paired(t, [], Select(t.messages, ItemOfRow, item), Select(t.confirmations, ItemOfConfirmation, item), item)
  {
    var ms, cs := Select(t.messages, ItemOfRow, item), Select(t.confirmations, ItemOfConfirmation, item);
    if ms != [] && cs != [] {
      var i := SelectSome(t.messages, ItemOfRow, item);
      var j := SelectSome(t.confirmations, ItemOfConfirmation, item);
      WaitsOnOneSide(t, i, j);
    }
  }

  /** From any state that a run can be in, with known ids: for every item, the joined rows of the run are
      that item's narrations zipped with its confirmations, the ones already waiting first and then the
      run's own, in order; and what is left over on either side still waits, in order. */
  lemma {:induction false} FirstInFirstOut(t: Tracker, es: seq<Event>, item: u32)
    requires Settled(t) && AllKnown(t) && KnownRun(t, es)
    ensures var o := Run(t, es);
            var ms, cs := Select(t.messages, ItemOfRow, item), Select(t.confirmations, ItemOfConfirmation, item);
            Paired(o.tracker, o.rows, ms + Select(Narrated(t, es), ItemOfRow, item),
                   cs + Select(Confirmed(t, es), ItemOfConfirmation, item), item)
  {
    var ms, cs := Select(t.messages, ItemOfRow, item), Select(t.confirmations, ItemOfConfirmation, item);
    if es == [] {
      NothingPairedYet(t, item);
      assert ms + [] == ms && cs + [] == cs;
    } else {
      hide Step, Paired, AllKnown, Settled, Known, Select;
      var front, e := es[..|es| - 1], es[|es| - 1];
      FirstInFirstOut(t, front, item);
      RunSettled(t, front);
      KnownStays(t, front);
      var p := Run(t, front);
      var ns, ks := Select(Narrated(t, front), ItemOfRow, item), Select(Confirmed(t, front), ItemOfConfirmation, item);
      StepPaired(p.tracker, p.rows, ms + ns, cs + ks, e, item);
      SelectConcat(Narrated(t, front), NarratedBy(p.tracker, e), ItemOfRow, item);
      SelectConcat(Confirmed(t, front), ConfirmedBy(p.tracker, e), ItemOfConfirmation, item);
      ConcatAssoc(ms, ns, Select(NarratedBy(p.tracker, e), ItemOfRow, item));
      ConcatAssoc(cs, ks, Select(ConfirmedBy(p.tracker, e), ItemOfConfirmation, item));
    }
  }

  // ---- when the order of the two sides matters -----------------------------

  /** `es` merges `ns` and `cs`, keeping the order of each. */
  ghost predicate Interleaves(es: seq<Event>, ns: seq<Event>, cs: seq<Event>)
    decreases |es|
  {
    if es == [] then ns == [] && cs == []
    else
      var front, e := es[..|es| - 1], es[|es| - 1];
      || (ns != [] && ns[|ns| - 1] == e && Interleaves(front, ns[..|ns| - 1], cs))
      || (cs != [] && cs[|cs| - 1] == e && Interleaves(front, ns, cs[..|cs| - 1]))
  }

  /** Same final state, and the same rows up to their order of emission. */
  ghost predicate Same(a: Output, b: Output) {
    a.tracker == b.tracker && multiset(a.rows) == multiset(b.rows)
  }

  ghost function Then(o: Output, e: Event): Output {
    var s := Step(o.tracker, e);
    Output(s.tracker, o.rows + s.rows)
  }

  lemma {:induction false} RunThen(t: Tracker, es: seq<Event>, e: Event)
    ensures Run(t, es + [e]) == Then(Run(t, es), e)
  {
    assert (es + [e])[..|es|] == es;
  }

  lemma SameThen(a: Output, b: Output, e: Event)
    requires Same(a, b)
    ensures Same(Then(a, e), Then(b, e))
  {
  }

  /** Two halves of one known item meet while an unknown half waits and no half of that item waits with
      it: whoever comes first is spent on the unknown half. */
  predicate Clash(t: Tracker, narrated: u32, confirmed: u32) {
    && narrated == confirmed != 0
    && (Spends(MessageIds(t.messages), confirmed) || Spends(ConfirmationIds(t.confirmations), narrated))
  }

  predicate Spends(ids: seq<u32>, id: u32) {
    0 in ids && id !in ids
  }

  ghost predicate Agree(a: Output, ab: Output, b: Output, ba: Output) {
    ab.tracker == ba.tracker && multiset(a.rows + ab.rows) == multiset(b.rows + ba.rows)
  }

  ghost predicate JoinsAgree(t: Tracker, m: LootRow, c: Confirmation) {
    var a, b := JoinNarration(t, m), JoinConfirmation(t, c);
    Agree(a, JoinConfirmation(a.tracker, c), b, JoinNarration(b.tracker, m))
  }

  /** In every settled state a narration and a confirmation can be joined in either order exactly when
      they do not clash. */
  lemma JoinsCommute(t: Tracker, m: LootRow, c: Confirmation)
    requires Settled(t)
    ensures JoinsAgree(t, m, c) <==> !Clash(t, m.itemId, c.itemId)
  {
    hide Match, Compatible, Waits;
    var x := Match(ConfirmationIds(t.confirmations), m.itemId);
    var y := Match(MessageIds(t.messages), c.itemId);
    ClashMeans(t, m.itemId, c.itemId);
    PushedIds(t, m, c);
    MatchAfterPush(MessageIds(t.messages), m.itemId, c.itemId);
    MatchAfterPush(ConfirmationIds(t.confirmations), c.itemId, m.itemId);
    hide Clash, Spends, Settled, MessageIds, ConfirmationIds;
    if x.Some? && y.Some? {
      BothMeet(t, m, c);
    } else if x.Some? {
      NarrationMeetsFirst(t, m, c);
    } else if y.Some? {
      ConfirmationMeetsFirst(t, m, c);
    } else {
      NeitherMeets(t, m, c);
    }
  }

  /** `id` arrives just behind an unknown that it would otherwise be matched with. */
  predicate Overtakes(ids: seq<u32>, pushed: u32, id: u32) {
    pushed == id != 0 && id !in ids
  }

  /** Where an id matches after another one has joined the end of the queue. */
  lemma MatchAfterPush(ids: seq<u32>, pushed: u32, id: u32)
    ensures Match(ids + [pushed], id)
            == if Overtakes(ids, pushed, id) then Some(|ids|)
               else if Match(ids, id).Some? then Match(ids, id)
               else if Compatible(pushed, id) then Some(|ids|)
               else None
  {
    var all := ids + [pushed];
    if id == 0 {
    } else if id in ids {
      IndexOfIs(all, id, IndexOf(ids, id).value);
    } else if pushed == id {
      IndexOfIs(all, id, |ids|);
    } else {
      assert id !in all;
      if 0 in ids {
        IndexOfIs(all, 0, IndexOf(ids, 0).value);
      } else if pushed == 0 {
        IndexOfIs(all, 0, |ids|);
      }
    }
  }

  lemma PushedIds(t: Tracker, m: LootRow, c: Confirmation)
    ensures MessageIds(t.messages + [m]) == MessageIds(t.messages) + [m.itemId]
    ensures ConfirmationIds(t.confirmations + [c]) == ConfirmationIds(t.confirmations) + [c.itemId]
  {
  }

  /** What a clash comes to in a settled state: one of the two meets something that it would not wait for
      if the other came first. */
  lemma ClashMeans(t: Tracker, narrated: u32, confirmed: u32)
    requires Settled(t)
    ensures var qc, qm := ConfirmationIds(t.confirmations), MessageIds(t.messages);
            var x, y := Match(qc, narrated), Match(qm, confirmed);
            Clash(t, narrated, confirmed)
            <==> || (x.Some? && y.None? && Overtakes(qc, confirmed, narrated))
                 || (x.None? && y.Some? && Overtakes(qm, narrated, confirmed))
  {
    var qc, qm := ConfirmationIds(t.confirmations), MessageIds(t.messages);
    assert forall i, j :: 0 <= i < |qm| && 0 <= j < |qc| ==> !Compatible(qm[i], qc[j]) by {
      forall i, j | 0 <= i < |qm| && 0 <= j < |qc| ensures !Compatible(qm[i], qc[j]) {
        assert !Compatible(t.messages[i].itemId, t.confirmations[j].itemId);
      }
    }
    hide Settled, MessageIds, ConfirmationIds;
    ClashOfIds(qm, qc, narrated, confirmed);
  }

  lemma ClashOfIds(qm: seq<u32>, qc: seq<u32>, narrated: u32, confirmed: u32)
    requires forall i, j :: 0 <= i < |qm| && 0 <= j < |qc| ==> !Compatible(qm[i], qc[j])
    ensures narrated == confirmed != 0 && (Spends(qm, confirmed) || Spends(qc, narrated))
            <==> || (Match(qc, narrated).Some? && Match(qm, confirmed).None? && Overtakes(qc, confirmed, narrated))
                 || (Match(qc, narrated).None? && Match(qm, confirmed).Some? && Overtakes(qm, narrated, confirmed))
  {
    if 0 in qm && qc != [] {
      var i :| 0 <= i < |qm| && qm[i] == 0;
      assert Compatible(qm[i], qc[0]);
    }
    if 0 in qc && qm != [] {
      var j :| 0 <= j < |qc| && qc[j] == 0;
      assert Compatible(qm[0], qc[j]);
    }
  }

  lemma RowsSwapped(a: LootRow, b: LootRow)
    ensures multiset([a] + [b]) == multiset([b] + [a])
  {
    assert multiset([a] + [b]) == multiset([a]) + multiset([b]) == multiset([b] + [a]);
  }

  lemma BothMeet(t: Tracker, m: LootRow, c: Confirmation)
    requires Match(ConfirmationIds(t.confirmations), m.itemId).Some? && Match(MessageIds(t.messages), c.itemId).Some?
    ensures JoinsAgree(t, m, c)
  {
    hide Match, Compatible, MessageIds, ConfirmationIds, ApplyConfirmation;
    var i := Match(ConfirmationIds(t.confirmations), m.itemId).value;
    var j := Match(MessageIds(t.messages), c.itemId).value;
    RowsSwapped(ApplyConfirmation(m, t.confirmations[i]), ApplyConfirmation(t.messages[j], c));
  }

  /** The narration meets a confirmation, the confirmation meets nothing. */
  lemma NarrationMeetsFirst(t: Tracker, m: LootRow, c: Confirmation)
    requires Match(ConfirmationIds(t.confirmations), m.itemId).Some? && Match(MessageIds(t.messages), c.itemId).None?
    requires var i := Match(ConfirmationIds(t.confirmations), m.itemId);
             Match(ConfirmationIds(t.confirmations + [c]), m.itemId)
             == if Overtakes(ConfirmationIds(t.confirmations), c.itemId, m.itemId) then Some(|t.confirmations|) else i
    ensures JoinsAgree(t, m, c) <==> !Overtakes(ConfirmationIds(t.confirmations), c.itemId, m.itemId)
  {
    var q := t.confirmations;
    var i := Match(ConfirmationIds(q), m.itemId).value;
    if Overtakes(ConfirmationIds(q), c.itemId, m.itemId) {
      assert ConfirmationIds(q)[|q| - 1] in ConfirmationIds(q);
      assert q[|q| - 1].itemId != c.itemId;
      RemoveLast(q, c);
      assert (RemoveAt(q, i) + [c])[|q| - 1] == c;
    } else {
      RemoveThenPush(q, i, c);
      assert [] + [ApplyConfirmation(m, q[i])] == [ApplyConfirmation(m, q[i])] + [];
    }
  }

  lemma ConfirmationMeetsFirst(t: Tracker, m: LootRow, c: Confirmation)
    requires Match(ConfirmationIds(t.confirmations), m.itemId).None? && Match(MessageIds(t.messages), c.itemId).Some?
    requires var j := Match(MessageIds(t.messages), c.itemId);
             Match(MessageIds(t.messages + [m]), c.itemId)
             == if Overtakes(MessageIds(t.messages), m.itemId, c.itemId) then Some(|t.messages|) else j
    ensures JoinsAgree(t, m, c) <==> !Overtakes(MessageIds(t.messages), m.itemId, c.itemId)
  {
    var q := t.messages;
    var j := Match(MessageIds(q), c.itemId).value;
    if Overtakes(MessageIds(q), m.itemId, c.itemId) {
      assert MessageIds(q)[|q| - 1] in MessageIds(q);
      assert q[|q| - 1].itemId != m.itemId;
      RemoveLast(q, m);
      assert (RemoveAt(q, j) + [m])[|q| - 1] == m;
    } else {
      RemoveThenPush(q, j, m);
      assert [] + [ApplyConfirmation(q[j], c)] == [ApplyConfirmation(q[j], c)] + [];
    }
  }

  /** Neither meets anything that waits: they meet each other, or both wait. */
  lemma NeitherMeets(t: Tracker, m: LootRow, c: Confirmation)
    requires Match(ConfirmationIds(t.confirmations), m.itemId).None? && Match(MessageIds(t.messages), c.itemId).None?
    requires Match(MessageIds(t.messages + [m]), c.itemId)
             == if Overtakes(MessageIds(t.messages), m.itemId, c.itemId) || Compatible(m.itemId, c.itemId)
                then Some(|t.messages|) else None
    requires Match(ConfirmationIds(t.confirmations + [c]), m.itemId)
             == if Overtakes(ConfirmationIds(t.confirmations), c.itemId, m.itemId) || Compatible(c.itemId, m.itemId)
                then Some(|t.confirmations|) else None
    ensures JoinsAgree(t, m, c)
  {
    hide Match, MessageIds, ConfirmationIds, ApplyConfirmation;
    RemoveLast(t.messages, m);
    RemoveLast(t.confirmations, c);
  }

  lemma RemoveLast<T>(s: seq<T>, x: T)
    ensures RemoveAt(s + [x], |s|) == s
  {
  }

  lemma RemoveThenPush<T>(s: seq<T>, i: nat, x: T)
    requires i < |s|
    ensures RemoveAt(s + [x], i) == RemoveAt(s, i) + [x] && (s + [x])[i] == s[i]
  {
  }

  /** The fields a narration-side event looks at besides the queues. */
  ghost predicate SameNarrationSide(a: Tracker, b: Tracker) {
    a.zoneShort == b.zoneShort && a.zoneBase == b.zoneBase && a.instance == b.instance
    && a.looter == b.looter && a.seenMessages == b.seenMessages && a.itemIdByName == b.itemIdByName
    && a.seenWindow == b.seenWindow
  }

  lemma TransactionKeepsNarrationSide(t: Tracker, c: Event)
    requires c.Transaction?
    ensures SameNarrationSide(Step(t, c).tracker, t)
  {
  }

  /** What a join does to the queues does not depend on what has been seen. */
  lemma JoinFrames(t: Tracker, m: LootRow, c: Confirmation, seen: set<MessageKey>, keys: set<ConfirmationKey>)
    ensures JoinNarration(t.(seenConfirmations := keys), m)
            == Output(JoinNarration(t, m).tracker.(seenConfirmations := keys), JoinNarration(t, m).rows)
    ensures JoinConfirmation(t.(seenMessages := seen), c)
            == Output(JoinConfirmation(t, c).tracker.(seenMessages := seen), JoinConfirmation(t, c).rows)
  {
  }

  /** Taking in a narration row, or a confirmation, under a fresh key. */
  ghost function TakeNarration(t: Tracker, key: MessageKey, m: LootRow): Output {
    JoinNarration(t.(seenMessages := t.seenMessages + {key}), m)
  }

  ghost function TakeConfirmation(t: Tracker, key: ConfirmationKey, c: Confirmation): Output {
    JoinConfirmation(t.(seenConfirmations := t.seenConfirmations + {key}), c)
  }

  ghost predicate StepsAgree(t: Tracker, n: Event, c: Event) {
    var a, b := Step(t, n), Step(t, c);
    Agree(a, Step(a.tracker, c), b, Step(b.tracker, n))
  }

  /** Both are accepted and the halves they bring clash. */
  predicate StepsClash(t: Tracker, n: Event, c: Event) {
    && AcceptsNarration(t, n) && AcceptsTransaction(t, c) && !c.fromCorpse
    && Clash(t, NarrationRow(t, n).itemId, c.itemId)
  }

  lemma TakesCommute(t: Tracker, mk: MessageKey, m: LootRow, ck: ConfirmationKey, c: Confirmation)
    requires Settled(t)
    ensures var a, b := TakeNarration(t, mk, m), TakeConfirmation(t, ck, c);
            Agree(a, TakeConfirmation(a.tracker, ck, c), b, TakeNarration(b.tracker, mk, m))
            <==> !Clash(t, m.itemId, c.itemId)
  {
    var seen, keys := t.seenMessages + {mk}, t.seenConfirmations + {ck};
    var s := t.(seenMessages := seen, seenConfirmations := keys);
    assert s == t.(seenMessages := seen).(seenConfirmations := keys);
    assert s == t.(seenConfirmations := keys).(seenMessages := seen);
    JoinFrames(t.(seenMessages := seen), m, c, seen, keys);
    JoinFrames(t.(seenConfirmations := keys), m, c, seen, keys);
    hide Waits, NoStrandedPair, JoinNarration, JoinConfirmation;
    JoinsCommute(s, m, c);
  }

  lemma NarrationStep(t: Tracker, n: Event)
    requires AcceptsNarration(t, n)
    ensures Step(t, n) == TakeNarration(t, KeyOfNarration(n), NarrationRow(t, n))
    ensures Step(t, n).tracker.seenConfirmations == t.seenConfirmations
  {
    hide LootText.ParseLootLine, LootText.NormalizeMob;
  }

  lemma ConfirmationStep(t: Tracker, c: Event)
    requires AcceptsTransaction(t, c) && !c.fromCorpse
    ensures Step(t, c) == TakeConfirmation(t, KeyOfTransaction(c), ConfirmationOf(c))
    ensures ConfirmationOf(c).itemId == c.itemId
  {
    hide JoinConfirmation;
  }

  lemma AcceptedElsewhere(a: Tracker, b: Tracker, n: Event)
    requires SameNarrationSide(a, b)
    ensures AcceptsNarration(a, n) == AcceptsNarration(b, n)
    ensures AcceptsNarration(b, n) ==> NarrationRow(a, n) == NarrationRow(b, n)
  {
    hide LootText.ParseLootLine, LootText.NormalizeMob;
  }

  lemma TransactionAcceptedElsewhere(t: Tracker, n: Event, c: Event)
    requires AcceptsNarration(t, n) && AcceptsTransaction(t, c)
    ensures AcceptsTransaction(Step(t, n).tracker, c)
  {
    NarrationStep(t, n);
    hide LootText.ParseLootLine, LootText.NormalizeMob, Step;
  }

  lemma AcceptedMeans(t: Tracker, n: Event)
    requires AcceptsNarration(t, n)
    ensures n.Narration? && LootText.ParseLootLine(n.text).Some?
  {
  }

  lemma BothJoin(t: Tracker, n: Event, c: Event)
    requires Settled(t) && AcceptsNarration(t, n) && AcceptsTransaction(t, c) && c.Transaction? && !c.fromCorpse
    ensures StepsAgree(t, n, c) <==> !Clash(t, NarrationRow(t, n).itemId, c.itemId)
  {
    hide *;
    AcceptedMeans(t, n);
    NarrationStep(t, n);
    ConfirmationStep(t, c);
    TransactionKeepsNarrationSide(t, c);
    AcceptedElsewhere(Step(t, c).tracker, t, n);
    NarrationStep(Step(t, c).tracker, n);
    TransactionAcceptedElsewhere(t, n, c);
    ConfirmationStep(Step(t, n).tracker, c);
    TakesCommute(t, KeyOfNarration(n), NarrationRow(t, n), KeyOfTransaction(c), ConfirmationOf(c));
    StepsAgreeIs(t, n, c);
  }

  lemma StepsAgreeIs(t: Tracker, n: Event, c: Event)
    ensures var a, b := Step(t, n), Step(t, c);
            StepsAgree(t, n, c) <==> Agree(a, Step(a.tracker, c), b, Step(b.tracker, n))
  {
    hide Agree, Step;
  }

  /** In every settled state a narration-side event and a transaction commute exactly when they do not
      clash. */
  lemma StepsCommute(t: Tracker, n: Event, c: Event)
    requires Settled(t) && NarrationSide(n) && c.Transaction?
    ensures StepsAgree(t, n, c) <==> !StepsClash(t, n, c)
  {
    if n.DropItem? {
      DropCommutes(t, n, c);
    } else if !AcceptsNarration(t, n) || !AcceptsTransaction(t, c) || c.fromCorpse {
      OneJoins(t, n, c);
    } else {
      BothJoin(t, n, c);
    }
    hide StepsAgree, Clash;
  }

  lemma DropCommutes(t: Tracker, n: Event, c: Event)
    requires n.DropItem? && c.Transaction?
    ensures StepsAgree(t, n, c)
  {
    hide StepDrop, StepTransaction;
    DropKeeps(t, n);
    TransactionOver(t, Step(t, n).tracker, c);
    DropOver(t, Step(t, c).tracker, n, c);
    var a, b := Step(t, n).rows, Step(t, c).rows;
    assert multiset(a + b) == multiset(a) + multiset(b) == multiset(b + a);
  }

  /** A window item leaves the queues and the seen transactions alone. */
  lemma DropKeeps(t: Tracker, n: Event)
    requires n.DropItem?
    ensures var s := Step(t, n).tracker;
            s == t.(itemIdByName := s.itemIdByName, seenWindow := s.seenWindow)
  {
    hide LootText.NormalizeMob;
  }

  /** A transaction does not look at what window items teach. */
  lemma TransactionOver(t: Tracker, s: Tracker, c: Event)
    requires c.Transaction? && s == t.(itemIdByName := s.itemIdByName, seenWindow := s.seenWindow)
    ensures Step(s, c)
            == Output(Step(t, c).tracker.(itemIdByName := s.itemIdByName, seenWindow := s.seenWindow), Step(t, c).rows)
  {
  }

  /** And a window item does not look at what transactions change. */
  lemma DropOver(t: Tracker, s: Tracker, n: Event, c: Event)
    requires n.DropItem? && c.Transaction? && s == Step(t, c).tracker
    ensures var d := Step(t, n);
            Step(s, n) == Output(s.(itemIdByName := d.tracker.itemIdByName, seenWindow := d.tracker.seenWindow), d.rows)
  {
    hide LootText.NormalizeMob, StepTransaction;
    TransactionKeepsNarrationSide(t, c);
  }

  lemma NarrationIgnored(t: Tracker, n: Event)
    requires n.Narration? && !AcceptsNarration(t, n)
    ensures Step(t, n) == Output(t, [])
  {
    hide LootText.ParseLootLine, LootText.NormalizeMob;
  }

  lemma TransactionIgnored(t: Tracker, c: Event)
    requires c.Transaction? && !AcceptsTransaction(t, c)
    ensures Step(t, c) == Output(t, [])
  {
    hide JoinConfirmation;
  }

  /** A coin pile is only noted as seen, whatever waits. */
  lemma CoinNoted(t: Tracker, c: Event)
    requires AcceptsTransaction(t, c) && c.fromCorpse
    ensures Step(t, c)
            == Output(t.(seenConfirmations := t.seenConfirmations + {KeyOfTransaction(c)}),
                      if c.coinCopper == 0 then [] else [CoinRow(t, c)])
  {
    hide JoinConfirmation;
  }

  /** A narration leaves the seen transactions, the zone and the looter alone. */
  lemma NarrationKeeps(t: Tracker, n: Event)
    requires n.Narration?
    ensures var s := Step(t, n).tracker;
            && s.seenConfirmations == t.seenConfirmations && s.zoneShort == t.zoneShort && s.zoneBase == t.zoneBase
            && s.instance == t.instance && s.looter == t.looter
  {
    hide LootText.ParseLootLine, LootText.NormalizeMob;
  }

  /** A narration that is ignored, or a transaction that is ignored or a coin pile. */
  lemma OneJoins(t: Tracker, n: Event, c: Event)
    requires n.Narration? && c.Transaction?
    requires !AcceptsNarration(t, n) || !AcceptsTransaction(t, c) || c.fromCorpse
    ensures StepsAgree(t, n, c)
  {
    hide *;
    if !AcceptsNarration(t, n) {
      TransactionKeepsNarrationSide(t, c);
      AcceptedElsewhere(Step(t, c).tracker, t, n);
      NarrationIgnored(t, n);
      NarrationIgnored(Step(t, c).tracker, n);
    } else if !AcceptsTransaction(t, c) {
      StillIgnored(t, n, c);
      TransactionIgnored(t, c);
      TransactionIgnored(Step(t, n).tracker, c);
    } else {
      CoinCommutes(t, n, c);
      return;
    }
    NothingSwapped(Step(t, n).rows, Step(t, c).rows);
    AgreeIntro(Step(t, n), Step(Step(t, n).tracker, c), Step(t, c), Step(Step(t, c).tracker, n));
    StepsAgreeIs(t, n, c);
  }

  lemma NothingSwapped(a: seq<LootRow>, b: seq<LootRow>)
    requires a == [] || b == []
    ensures multiset(a + b) == multiset(b + a)
    ensures multiset(a + []) == multiset([] + a) && multiset([] + b) == multiset(b + [])
  {
  }

  lemma AgreeIntro(a: Output, ab: Output, b: Output, ba: Output)
    requires ab.tracker == ba.tracker && multiset(a.rows + ab.rows) == multiset(b.rows + ba.rows)
    ensures Agree(a, ab, b, ba)
  {
  }

  lemma StillIgnored(t: Tracker, n: Event, c: Event)
    requires n.Narration? && c.Transaction? && !AcceptsTransaction(t, c)
    ensures !AcceptsTransaction(Step(t, n).tracker, c)
  {
    NarrationKeeps(t, n);
    hide Step;
  }

  lemma CoinCommutes(t: Tracker, n: Event, c: Event)
    requires AcceptsNarration(t, n) && AcceptsTransaction(t, c) && c.fromCorpse
    ensures StepsAgree(t, n, c)
  {
    CoinNoted(t, c);
    NarrationKeeps(t, n);
    CoinNoted(Step(t, n).tracker, c);
    TransactionKeepsNarrationSide(t, c);
    AcceptedElsewhere(Step(t, c).tracker, t, n);
    NarrationStep(t, n);
    NarrationStep(Step(t, c).tracker, n);
    var m, keys := NarrationRow(t, n), t.seenConfirmations + {KeyOfTransaction(c)};
    NarrationFrame(t, KeyOfNarration(n), m, keys);
    hide Step, AcceptsNarration, AcceptsTransaction, SameNarrationSide, NarrationRow, TakeNarration, KeyOfNarration;
    var a, b := Step(t, n).rows, Step(t, c).rows;
    assert multiset(a + b) == multiset(a) + multiset(b) == multiset(b + a);
  }

  lemma NarrationFrame(t: Tracker, key: MessageKey, m: LootRow, keys: set<ConfirmationKey>)
    ensures TakeNarration(t.(seenConfirmations := keys), key, m)
            == Output(TakeNarration(t, key, m).tracker.(seenConfirmations := keys), TakeNarration(t, key, m).rows)
  {
  }

  lemma CommuteAfter(o: Output, n: Event, c: Event)
    requires Settled(o.tracker) && NarrationSide(n) && c.Transaction?
    ensures Same(Then(Then(o, n), c), Then(Then(o, c), n)) <==> !StepsClash(o.tracker, n, c)
  {
    hide *;
    StepsCommute(o.tracker, n, c);
    StepsAgreeIs(o.tracker, n, c);
    ThenTwice(o, n, c);
    ThenTwice(o, c, n);
    SameIffAgree(o.rows, Step(o.tracker, n), Step(Step(o.tracker, n).tracker, c),
                 Step(o.tracker, c), Step(Step(o.tracker, c).tracker, n));
  }

  lemma ThenTwice(o: Output, d: Event, e: Event)
    ensures var a := Step(o.tracker, d);
            var b := Step(a.tracker, e);
            Then(Then(o, d), e) == Output(b.tracker, o.rows + (a.rows + b.rows))
  {
    hide Step;
    var a := Step(o.tracker, d);
    ConcatAssoc(o.rows, a.rows, Step(a.tracker, e).rows);
  }

  lemma SameIffAgree(rows: seq<LootRow>, a: Output, ab: Output, b: Output, ba: Output)
    ensures Same(Output(ab.tracker, rows + (a.rows + ab.rows)), Output(ba.tracker, rows + (b.rows + ba.rows)))
            <==> Agree(a, ab, b, ba)
  {
    var x, y := multiset(a.rows + ab.rows), multiset(b.rows + ba.rows);
    assert multiset(rows + (a.rows + ab.rows)) == multiset(rows) + x;
    assert multiset(rows + (b.rows + ba.rows)) == multiset(rows) + y;
    if multiset(rows) + x == multiset(rows) + y {
      assert x == multiset(rows) + x - multiset(rows) && y == multiset(rows) + y - multiset(rows);
    }
  }

  // ---- whole runs ----------------------------------------------------------

  ghost predicate Sides(ns: seq<Event>, cs: seq<Event>) {
    && (forall i :: 0 <= i < |ns| ==> NarrationSide(ns[i]))
    && (forall j :: 0 <= j < |cs| ==> cs[j].Transaction?)
  }

  /** With the narrations before `i` and the transactions before `j` taken in, the next two clash. */
  ghost predicate ClashAt(t: Tracker, ns: seq<Event>, cs: seq<Event>, i: nat, j: nat)
    requires i < |ns| && j < |cs|
  {
    StepsClash(Run(t, ns[..i] + cs[..j]).tracker, ns[i], cs[j])
  }

  ghost predicate NeverClash(t: Tracker, ns: seq<Event>, cs: seq<Event>) {
    forall i: nat, j: nat :: i < |ns| && j < |cs| ==> !ClashAt(t, ns, cs, i, j)
  }

  lemma FewerNeverClash(t: Tracker, ns: seq<Event>, cs: seq<Event>, p: nat, q: nat)
    requires p <= |ns| && q <= |cs| && NeverClash(t, ns, cs) && Sides(ns, cs)
    ensures NeverClash(t, ns[..p], cs[..q]) && Sides(ns[..p], cs[..q])
  {
    hide StepsClash, Run;
    forall i: nat, j: nat | i < p && j < q ensures !ClashAt(t, ns[..p], cs[..q], i, j) {
      assert ns[..p][..i] == ns[..i] && cs[..q][..j] == cs[..j];
      assert !ClashAt(t, ns, cs, i, j);
    }
  }

  /** A narration-side event slides back over the transactions before it. */
  lemma {:induction false} SlideBack(t: Tracker, ns: seq<Event>, n: Event, cs: seq<Event>)
    requires Settled(t) && Sides(ns + [n], cs) && NeverClash(t, ns + [n], cs)
    ensures Same(Run(t, ns + cs + [n]), Run(t, ns + [n] + cs))
  {
    hide *;
    if cs == [] {
      assert ns + cs + [n] == ns + [n] + cs;
      SameSelf(Run(t, ns + [n] + cs));
    } else {
      var k := |cs| - 1;
      var front, c := cs[..k], cs[k];
      Restricted(t, ns, n, cs);
      SlideBack(t, ns, n, front);
      assert ns + cs == ns + front + [c];
      assert ns + [n] + cs == ns + [n] + front + [c];
      RunThen(t, ns + cs, n);
      RunThen(t, ns + front, c);
      RunThen(t, ns + front, n);
      RunThen(t, ns + [n] + front, c);
      var o := Run(t, ns + front);
      RunSettled(t, ns + front);
      CommuteAfter(o, n, c);
      SameThen(Then(o, n), Run(t, ns + [n] + front), c);
      SameChain(Then(Then(o, n), c), Then(Then(o, c), n), Then(Run(t, ns + [n] + front), c));
    }
  }

  lemma SameSelf(a: Output)
    ensures Same(a, a)
  {
  }

  lemma SameChain(a: Output, b: Output, d: Output)
    requires Same(a, b) && Same(a, d)
    ensures Same(b, d)
  {
  }

  /** What the two sides give for their last two events and for what comes before. */
  lemma {:induction false} Restricted(t: Tracker, ns: seq<Event>, n: Event, cs: seq<Event>)
    requires cs != [] && Sides(ns + [n], cs) && NeverClash(t, ns + [n], cs)
    ensures var k := |cs| - 1;
            && NarrationSide(n) && cs[k].Transaction?
            && Sides(ns + [n], cs[..k]) && NeverClash(t, ns + [n], cs[..k])
            && !StepsClash(Run(t, ns + cs[..k]).tracker, n, cs[k])
  {
    hide StepsClash, Run;
    var k := |cs| - 1;
    FewerNeverClash(t, ns + [n], cs, |ns| + 1, k);
    assert (ns + [n])[..|ns| + 1] == ns + [n];
    assert (ns + [n])[|ns|] == n;
    assert !ClashAt(t, ns + [n], cs, |ns|, k);
    assert (ns + [n])[..|ns|] == ns;
  }

  /** Any interleaving does what all narrations first and all transactions after them would do. */
  lemma {:induction false} MergeIsCanonical(t: Tracker, es: seq<Event>, ns: seq<Event>, cs: seq<Event>)
    requires Settled(t) && Sides(ns, cs) && NeverClash(t, ns, cs) && Interleaves(es, ns, cs)
    ensures Same(Run(t, es), Run(t, ns + cs))
    decreases |es|
  {
    hide *;
    LastTaken(es, ns, cs);
    if es == [] {
      assert ns + cs == es;
      SameSelf(Run(t, es));
    } else {
      var front, e := es[..|es| - 1], es[|es| - 1];
      assert es == front + [e];
      RunThen(t, front, e);
      if cs != [] && cs[|cs| - 1] == e && Interleaves(front, ns, cs[..|cs| - 1]) {
        CanonicalTransaction(t, e, ns, cs);
        MergeIsCanonical(t, front, ns, cs[..|cs| - 1]);
        SameThen(Run(t, front), Run(t, ns + cs[..|cs| - 1]), e);
      } else {
        CanonicalNarration(t, e, ns, cs);
        MergeIsCanonical(t, front, ns[..|ns| - 1], cs);
        SameThen(Run(t, front), Run(t, ns[..|ns| - 1] + cs), e);
        SameTrans(Then(Run(t, front), e), Then(Run(t, ns[..|ns| - 1] + cs), e), Run(t, ns + cs));
      }
    }
  }

  lemma SameTrans(a: Output, b: Output, d: Output)
    requires Same(a, b) && Same(b, d)
    ensures Same(a, d)
  {
  }

  lemma LastTaken(es: seq<Event>, ns: seq<Event>, cs: seq<Event>)
    requires Interleaves(es, ns, cs)
    ensures es == [] ==> ns == [] && cs == []
    ensures es != [] ==>
              var front, e := es[..|es| - 1], es[|es| - 1];
              || (ns != [] && ns[|ns| - 1] == e && Interleaves(front, ns[..|ns| - 1], cs))
              || (cs != [] && cs[|cs| - 1] == e && Interleaves(front, ns, cs[..|cs| - 1]))
  {
  }

  lemma CanonicalTransaction(t: Tracker, e: Event, ns: seq<Event>, cs: seq<Event>)
    requires cs != [] && cs[|cs| - 1] == e && Sides(ns, cs) && NeverClash(t, ns, cs)
    ensures var cs' := cs[..|cs| - 1];
            Sides(ns, cs') && NeverClash(t, ns, cs') && Run(t, ns + cs) == Then(Run(t, ns + cs'), e)
  {
    hide *;
    var cs' := cs[..|cs| - 1];
    FewerNeverClash(t, ns, cs, |ns|, |cs| - 1);
    assert ns[..|ns|] == ns;
    assert ns + cs == ns + cs' + [e];
    RunThen(t, ns + cs', e);
  }

  lemma CanonicalNarration(t: Tracker, e: Event, ns: seq<Event>, cs: seq<Event>)
    requires ns != [] && ns[|ns| - 1] == e && Settled(t) && Sides(ns, cs) && NeverClash(t, ns, cs)
    ensures var ns' := ns[..|ns| - 1];
            && Sides(ns', cs) && NeverClash(t, ns', cs)
            && Same(Then(Run(t, ns' + cs), e), Run(t, ns + cs))
  {
    hide *;
    var ns' := ns[..|ns| - 1];
    FewerNeverClash(t, ns, cs, |ns| - 1, |cs|);
    assert cs[..|cs|] == cs && ns == ns' + [e];
    SlideBack(t, ns', e, cs);
    RunThen(t, ns' + cs, e);
  }

  /** Two interleavings of the same narration side and the same confirmation side end in the same
      state, leftovers included, and emit the same rows. */
  lemma {:induction false} InterleavingDoesNotMatter(t: Tracker, es: seq<Event>, fs: seq<Event>,
                                                     ns: seq<Event>, cs: seq<Event>)
    requires Settled(t) && Sides(ns, cs) && NeverClash(t, ns, cs)
    requires Interleaves(es, ns, cs) && Interleaves(fs, ns, cs)
    ensures Run(t, es).tracker == Run(t, fs).tracker
    ensures multiset(Run(t, es).rows) == multiset(Run(t, fs).rows)
  {
    MergeIsCanonical(t, es, ns, cs);
    MergeIsCanonical(t, fs, ns, cs);
    hide *;
    SameMeans(Run(t, es), Run(t, ns + cs));
    SameMeans(Run(t, fs), Run(t, ns + cs));
  }

  lemma SameMeans(a: Output, b: Output)
    ensures Same(a, b) <==> a.tracker == b.tracker && multiset(a.rows) == multiset(b.rows)
  {
  }

  /** At every point of the two sides, how they came to interleave so far makes no difference. */
  ghost predicate OrderIsFree(t: Tracker, ns: seq<Event>, cs: seq<Event>) {
    forall i: nat, j: nat, es, fs ::
      i <= |ns| && j <= |cs| && Interleaves(es, ns[..i], cs[..j]) && Interleaves(fs, ns[..i], cs[..j])
      ==> Same(Run(t, es), Run(t, fs))
  }

  /** The order of two sides is free exactly when no two of their events ever clash. */
  lemma OrderIsFreeWithoutClash(t: Tracker, ns: seq<Event>, cs: seq<Event>)
    requires Settled(t) && Sides(ns, cs)
    ensures OrderIsFree(t, ns, cs) <==> NeverClash(t, ns, cs)
  {
    hide *;
    if NeverClash(t, ns, cs) {
      forall i: nat, j: nat, es, fs
        | i <= |ns| && j <= |cs| && Interleaves(es, ns[..i], cs[..j]) && Interleaves(fs, ns[..i], cs[..j])
        ensures Same(Run(t, es), Run(t, fs))
      {
        FewerNeverClash(t, ns, cs, i, j);
        InterleavingDoesNotMatter(t, es, fs, ns[..i], cs[..j]);
        SameMeans(Run(t, es), Run(t, fs));
      }
      FreeIntro(t, ns, cs);
    } else {
      var i, j := SomeClash(t, ns, cs);
      ClashShows(t, ns, cs, i, j);
    }
  }

  lemma {:induction false} FreeIntro(t: Tracker, ns: seq<Event>, cs: seq<Event>)
    requires forall i: nat, j: nat, es, fs ::
               i <= |ns| && j <= |cs| && Interleaves(es, ns[..i], cs[..j]) && Interleaves(fs, ns[..i], cs[..j])
               ==> Same(Run(t, es), Run(t, fs))
    ensures OrderIsFree(t, ns, cs)
  {
    hide Interleaves, Same, Run;
  }

  lemma SomeClash(t: Tracker, ns: seq<Event>, cs: seq<Event>) returns (i: nat, j: nat)
    requires !NeverClash(t, ns, cs) && Sides(ns, cs)
    ensures i < |ns| && j < |cs| && NarrationSide(ns[i]) && cs[j].Transaction?
    ensures StepsClash(Run(t, ns[..i] + cs[..j]).tracker, ns[i], cs[j])
  {
    hide StepsClash, Run;
    i, j :| i < |ns| && j < |cs| && ClashAt(t, ns, cs, i, j);
  }

  /** Two events that clash, taken in either order after all that came before. */
  lemma {:induction false} ClashShows(t: Tracker, ns: seq<Event>, cs: seq<Event>, i: nat, j: nat)
    requires Settled(t) && i < |ns| && j < |cs| && NarrationSide(ns[i]) && cs[j].Transaction?
    requires StepsClash(Run(t, ns[..i] + cs[..j]).tracker, ns[i], cs[j])
    ensures !OrderIsFree(t, ns, cs)
  {
    hide *;
    var before, n, c := ns[..i] + cs[..j], ns[i], cs[j];
    BothOrders(ns, cs, i, j);
    RunSettled(t, before);
    CommuteAfter(Run(t, before), n, c);
    RunThen(t, before, n);
    RunThen(t, before + [n], c);
    RunThen(t, before, c);
    RunThen(t, before + [c], n);
    FreeMeans(t, ns, cs, i + 1, j + 1, before + [n] + [c], before + [c] + [n]);
  }

  lemma {:induction false} FreeMeans(t: Tracker, ns: seq<Event>, cs: seq<Event>, i: nat, j: nat,
                                     es: seq<Event>, fs: seq<Event>)
    requires i <= |ns| && j <= |cs| && Interleaves(es, ns[..i], cs[..j]) && Interleaves(fs, ns[..i], cs[..j])
    ensures OrderIsFree(t, ns, cs) ==> Same(Run(t, es), Run(t, fs))
  {
    hide Interleaves, Same, Run;
  }

  lemma BothOrders(ns: seq<Event>, cs: seq<Event>, i: nat, j: nat)
    requires i < |ns| && j < |cs|
    ensures var before := ns[..i] + cs[..j];
            && Interleaves(before + [ns[i]] + [cs[j]], ns[..i + 1], cs[..j + 1])
            && Interleaves(before + [cs[j]] + [ns[i]], ns[..i + 1], cs[..j + 1])
  {
    hide *;
    var before := ns[..i] + cs[..j];
    Appended(ns[..i], cs[..j]);
    assert ns[..i + 1] == ns[..i] + [ns[i]] && cs[..j + 1] == cs[..j] + [cs[j]];
    OneMore(before, ns[..i], cs[..j], ns[i], cs[j]);
    OneMore(before + [ns[i]], ns[..i] + [ns[i]], cs[..j], ns[i], cs[j]);
    OneMore(before + [cs[j]], ns[..i], cs[..j] + [cs[j]], ns[i], cs[j]);
  }

  /** An interleaving goes on with either side. */
  lemma {:induction false} OneMore(es: seq<Event>, ns: seq<Event>, cs: seq<Event>, n: Event, c: Event)
    requires Interleaves(es, ns, cs)
    ensures Interleaves(es + [n], ns + [n], cs) && Interleaves(es + [c], ns, cs + [c])
  {
    assert (es + [n])[..|es|] == es && (ns + [n])[..|ns|] == ns;
    assert (es + [c])[..|es|] == es && (cs + [c])[..|cs|] == cs;
  }

  lemma {:induction false} Appended(ns: seq<Event>, cs: seq<Event>)
    ensures Interleaves(ns + cs, ns, cs)
  {
    hide *;
    if cs == [] {
      Alone(ns);
      assert ns + cs == ns;
    } else {
      var front, last := cs[..|cs| - 1], cs[|cs| - 1];
      Appended(ns, front);
      OneMore(ns + front, ns, front, last, last);
      assert cs == front + [last];
      ConcatAssoc(ns, front, [last]);
    }
  }

  lemma {:induction false} Alone(ns: seq<Event>)
    ensures Interleaves(ns, ns, [])
  {
    hide *;
    if ns == [] {
      NothingInterleaves();
    } else {
      var front, last := ns[..|ns| - 1], ns[|ns| - 1];
      Alone(front);
      OneMore(front, front, [], last, last);
      assert ns == front + [last];
    }
  }

  lemma NothingInterleaves()
    ensures Interleaves([], [], [])
  {
  }

  // ---- known ids never clash -----------------------------------------------

  /** The narrations of the one side are known, taken on their own; so are the other side's ids. */
  ghost predicate KnownSides(t: Tracker, ns: seq<Event>, cs: seq<Event>) {
    KnownRun(t, ns) && Sides(ns, cs) && (forall j :: 0 <= j < |cs| ==> cs[j].fromCorpse || cs[j].itemId != 0)
  }

  lemma {:induction false} SidesRun(t: Tracker, ns: seq<Event>, cs: seq<Event>)
    requires AllKnown(t) && KnownSides(t, ns, cs)
    ensures var p := Run(t, ns + cs).tracker;
            AllKnown(p) && SameNarrationSide(p, Run(t, ns).tracker)
  {
    hide Step, LootText.ParseLootLine;
    if cs == [] {
      assert ns + cs == ns;
      KnownStays(t, ns);
    } else {
      var front, c := cs[..|cs| - 1], cs[|cs| - 1];
      SidesRun(t, ns, front);
      assert ns + cs == ns + front + [c];
      RunThen(t, ns + front, c);
      var p := Run(t, ns + front).tracker;
      StepKnown(p, c);
      TransactionKeepsNarrationSide(p, c);
    }
  }

  lemma {:induction false} KnownPrefix(t: Tracker, es: seq<Event>, i: nat)
    requires KnownRun(t, es) && i <= |es|
    ensures KnownRun(t, es[..i])
  {
    hide Known, Run;
    if i == |es| {
      assert es[..i] == es;
    } else {
      KnownPrefix(t, es[..|es| - 1], i);
      assert es[..|es| - 1][..i] == es[..i];
    }
  }

  /** Where every id is known the order of the two sides is free. */
  lemma KnownNeverClash(t: Tracker, ns: seq<Event>, cs: seq<Event>)
    requires AllKnown(t) && KnownSides(t, ns, cs)
    ensures NeverClash(t, ns, cs)
  {
    hide Run, KnownRun, AllKnown, StepsClash;
    forall i: nat, j: nat | i < |ns| && j < |cs| ensures !ClashAt(t, ns, cs, i, j) {
      KnownPrefix(t, ns, i);
      SidesRun(t, ns[..i], cs[..j]);
      NothingClashes(Run(t, ns[..i] + cs[..j]).tracker, ns[i], cs[j]);
    }
  }

  lemma NothingClashes(t: Tracker, n: Event, c: Event)
    requires AllKnown(t) && c.Transaction?
    ensures !StepsClash(t, n, c)
  {
    hide AcceptsNarration, AcceptsTransaction, NarrationRow, LootText.ParseLootLine;
    assert 0 !in MessageIds(t.messages) && 0 !in ConfirmationIds(t.confirmations);
  }

  /** A clash in full: an unknown narration waits alone; the confirmation of a known item is spent on it
      exactly if it comes before that item's own narration. */
  lemma UnknownIdsMatter(t: Tracker, a: LootRow, b: LootRow, c: Confirmation)
    requires t.messages == [] && t.confirmations == []
    requires a.itemId == 0 && b.itemId == c.itemId && c.itemId != 0
    ensures var first := JoinNarration(t, a).tracker;
            var early := JoinNarration(JoinConfirmation(first, c).tracker, b).tracker;
            var late := JoinConfirmation(JoinNarration(first, b).tracker, c).tracker;
            early.messages == [b] && late.messages == [a] && early != late && Clash(first, b.itemId, c.itemId)
  {
    var first := JoinNarration(t, a).tracker;
    assert first.messages == [a];
    assert MessageIds([a]) == [0];
    assert MessageIds([a, b]) == [0, c.itemId];
    IndexOfIs([0, c.itemId], c.itemId, 1);
  }
}
