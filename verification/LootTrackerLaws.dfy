/** Laws of the loot matcher over whole runs: no compatible pair is ever left waiting, every accepted
    half ends up in exactly one place, no sequence is in two rows, and what counts as a repeat. */
module LootTrackerLaws {
  import opened Prelude
  import opened LootTracker
  import LootText

  // ---- runs ----------------------------------------------------------------

  ghost function Run(t: Tracker, es: seq<Event>): Output {
    if es == [] then Output(t, [])
    else
      var p := Run(t, es[..|es| - 1]);
      var o := Step(p.tracker, es[|es| - 1]);
      Output(o.tracker, p.rows + o.rows)
  }

  ghost predicate Reachable(t: Tracker) {
    exists es :: Run(EMPTY, es).tracker == t
  }

  // ---- no stranded pair ----------------------------------------------------

  /** What holds of the queues in every reachable state: narrations wait unjoined and named, and
      nothing waiting on one side could pair with anything waiting on the other. */
  ghost predicate Settled(t: Tracker) {
    && (forall i :: 0 <= i < |t.messages| ==> Waits(t.messages[i]))
    && NoStrandedPair(t)
  }

  predicate Waits(row: LootRow) {
    row.source == Message && !row.complete && row.sequence == 0 && row.corpseId == 0 && row.mobName != ""
  }

  ghost predicate NoStrandedPair(t: Tracker) {
    forall i, j :: 0 <= i < |t.messages| && 0 <= j < |t.confirmations| ==>
      !Compatible(t.messages[i].itemId, t.confirmations[j].itemId)
  }

  lemma JoinNarrationSettled(t: Tracker, row: LootRow)
    requires Settled(t) && Waits(row)
    ensures Settled(JoinNarration(t, row).tracker)
  {
  }

  lemma JoinConfirmationSettled(t: Tracker, c: Confirmation)
    requires Settled(t)
    ensures Settled(JoinConfirmation(t, c).tracker)
  {
  }

  lemma NarrationWaits(t: Tracker, e: Event)
    requires AcceptsNarration(t, e)
    ensures Waits(NarrationRow(t, e))
  {
  }

  lemma StepSettled(t: Tracker, e: Event)
    requires Settled(t)
    ensures Settled(Step(t, e).tracker)
  {
    hide LootText.ParseLootLine, LootText.NormalizeMob;
    if AcceptsNarration(t, e) {
      NarrationWaits(t, e);
      JoinNarrationSettled(t.(seenMessages := t.seenMessages + {KeyOfNarration(e)}), NarrationRow(t, e));
    } else if AcceptsTransaction(t, e) {
      JoinConfirmationSettled(t.(seenConfirmations := t.seenConfirmations + {KeyOfTransaction(e)}), ConfirmationOf(e));
    }
  }

  lemma {:induction false} RunSettled(t: Tracker, es: seq<Event>)
    requires Settled(t)
    ensures Settled(Run(t, es).tracker)
  {
    if es == [] {
    } else {
      RunSettled(t, es[..|es| - 1]);
      StepSettled(Run(t, es[..|es| - 1]).tracker, es[|es| - 1]);
    }
  }

  /** In every reachable state no waiting narration is compatible with a waiting confirmation. So an
      unknown id waiting on one side means nothing waits on the other, and the ids that wait on the
      two sides are disjoint. */
  lemma NothingStranded(t: Tracker)
    requires Reachable(t)
    ensures NoStrandedPair(t)
    ensures t.confirmations != [] ==> 0 !in MessageIds(t.messages)
    ensures t.messages != [] ==> 0 !in ConfirmationIds(t.confirmations)
    ensures forall i, j :: 0 <= i < |t.messages| && 0 <= j < |t.confirmations| ==>
              t.messages[i].itemId != t.confirmations[j].itemId
  {
    var es :| Run(EMPTY, es).tracker == t;
    RunSettled(EMPTY, es);
    if t.confirmations != [] {
      assert forall i :: 0 <= i < |t.messages| ==>
          !Compatible(t.messages[i].itemId, t.confirmations[0].itemId);
    }
    if t.messages != [] {
      assert forall j :: 0 <= j < |t.confirmations| ==>
          !Compatible(t.messages[0].itemId, t.confirmations[j].itemId);
    }
  }

  /** Among the compatible halves the match prefers the longest waiting of the same id, then the longest
      waiting unknown; an unknown id is content with the longest waiting of all. */
  lemma MatchPrefers(ids: seq<u32>, id: u32, i: nat)
    requires i < |ids| && Compatible(ids[i], id)
    ensures Match(ids, id).Some?
    ensures var r := Match(ids, id).value;
            && r < |ids|
            && (id == 0 ==> r <= i)
            && (id != 0 && ids[i] == id ==> ids[r] == id && r <= i)
            && (id != 0 && id !in ids ==> ids[r] == 0 && r <= i)
  {
    if id != 0 && id !in ids {
      assert ids[i] == 0;
      var r := IndexOf(ids, 0).value;
      assert r <= i;
    }
  }

  // ---- counting ------------------------------------------------------------

  /** How many elements carry the key `k`. Equal counts for every `k` make two lists of keys the
      same multiset. */
  ghost function Count<T, K>(s: seq<T>, key: T -> Option<K>, k: K): nat {
    if s == [] then 0 else Count(s[..|s| - 1], key, k) + One(key(s[|s| - 1]), k)
  }

  ghost function One<K>(o: Option<K>, k: K): nat {
    if o == Some(k) then 1 else 0
  }

  lemma {:induction false} CountPush<T, K>(s: seq<T>, x: T, key: T -> Option<K>, k: K)
    ensures Count(s + [x], key, k) == Count(s, key, k) + One(key(x), k)
  {
    assert (s + [x])[..|s|] == s;
  }

  lemma {:induction false} CountConcat<T, K>(a: seq<T>, b: seq<T>, key: T -> Option<K>, k: K)
    ensures Count(a + b, key, k) == Count(a, key, k) + Count(b, key, k)
  {
    if b == [] {
      assert a + b == a;
    } else {
      CountConcat(a, b[..|b| - 1], key, k);
      assert (a + b)[..|a + b| - 1] == a + b[..|b| - 1];
    }
  }

  lemma {:induction false} CountRemove<T, K>(s: seq<T>, i: nat, key: T -> Option<K>, k: K)
    requires i < |s|
    ensures Count(s, key, k) == Count(RemoveAt(s, i), key, k) + One(key(s[i]), k)
  {
    hide Count;
    assert s == s[..i] + [s[i]] + s[i + 1..];
    CountConcat(s[..i] + [s[i]], s[i + 1..], key, k);
    CountPush(s[..i], s[i], key, k);
    CountConcat(s[..i], s[i + 1..], key, k);
  }

  lemma {:induction false} CountInsert<K>(s: seq<LootRow>, row: LootRow, key: LootRow -> Option<K>, k: K)
    requires SortedByTs(s)
    ensures Count(InsertByTs(s, row), key, k) == Count(s, key, k) + One(key(row), k)
  {
    if s == [] || s[|s| - 1].ts <= row.ts {
      CountPush(s, row, key, k);
    } else {
      CountInsert(s[..|s| - 1], row, key, k);
      CountPush(InsertByTs(s[..|s| - 1], row), s[|s| - 1], key, k);
    }
  }

  lemma {:induction false} CountSort<K>(s: seq<LootRow>, key: LootRow -> Option<K>, k: K)
    ensures Count(SortByTs(s), key, k) == Count(s, key, k)
  {
    if s == [] {
    } else {
      CountSort(s[..|s| - 1], key, k);
      CountInsert(SortByTs(s[..|s| - 1]), s[|s| - 1], key, k);
    }
  }

  /** Two different places with the same key count twice. */
  lemma {:induction false} CountTwice<T, K>(s: seq<T>, i: nat, j: nat, key: T -> Option<K>, k: K)
    requires i < j < |s| && key(s[i]) == Some(k) && key(s[j]) == Some(k)
    ensures Count(s, key, k) >= 2
  {
    CountRemove(s, j, key, k);
    CountRemove(RemoveAt(s, j), i, key, k);
  }

  // ---- flush ---------------------------------------------------------------

  /** The elements with a given key, in order. */
  ghost function Select<T, K>(s: seq<T>, key: T -> K, k: K): seq<T> {
    if s == [] then []
    else Select(s[..|s| - 1], key, k) + Chosen(s[|s| - 1], key, k)
  }

  ghost function Chosen<T, K>(x: T, key: T -> K, k: K): seq<T> {
    if key(x) == k then [x] else []
  }

  lemma {:induction false} SelectPush<T, K>(s: seq<T>, x: T, key: T -> K, k: K)
    ensures Select(s + [x], key, k) == Select(s, key, k) + Chosen(x, key, k)
  {
    assert (s + [x])[..|s|] == s;
  }

  function RowTs(row: LootRow): int {
    row.ts
  }

  lemma SwapEmpty<T>(s: seq<T>, a: seq<T>, b: seq<T>)
    requires a == [] || b == []
    ensures s + a + b == s + b + a
  {
  }

  lemma {:induction false} InsertPermutes(s: seq<LootRow>, row: LootRow)
    requires SortedByTs(s)
    ensures multiset(InsertByTs(s, row)) == multiset(s) + multiset{row}
  {
    if s != [] && s[|s| - 1].ts > row.ts {
      InsertPermutes(s[..|s| - 1], row);
      assert s == s[..|s| - 1] + [s[|s| - 1]];
    }
  }

  lemma MultisetPush<T>(s: seq<T>)
    requires s != []
    ensures multiset(s) == multiset(s[..|s| - 1]) + multiset{s[|s| - 1]}
  {
    assert s == s[..|s| - 1] + [s[|s| - 1]];
  }

  lemma {:induction false} SortUnfolds(s: seq<LootRow>)
    requires s != []
    ensures SortByTs(s) == InsertByTs(SortByTs(s[..|s| - 1]), s[|s| - 1])
  {
    hide SortedByTs, InsertByTs;
  }

  lemma {:induction false} SortPermutes(s: seq<LootRow>)
    ensures multiset(SortByTs(s)) == multiset(s)
  {
    if s == [] {
    } else {
      hide *;
      SortPermutes(s[..|s| - 1]);
      SortUnfolds(s);
      InsertPermutes(SortByTs(s[..|s| - 1]), s[|s| - 1]);
      MultisetPush(s);
    }
  }

  lemma {:induction false} InsertStable(s: seq<LootRow>, row: LootRow, ts: int)
    requires SortedByTs(s)
    ensures Select(InsertByTs(s, row), RowTs, ts) == Select(s, RowTs, ts) + Chosen(row, RowTs, ts)
  {
    if s == [] || s[|s| - 1].ts <= row.ts {
      SelectPush(s, row, RowTs, ts);
    } else {
      var front, last := s[..|s| - 1], s[|s| - 1];
      InsertStable(front, row, ts);
      SelectPush(InsertByTs(front, row), last, RowTs, ts);
      SwapEmpty(Select(front, RowTs, ts), Chosen(row, RowTs, ts), Chosen(last, RowTs, ts));
    }
  }

  lemma {:induction false} SortStable(s: seq<LootRow>, ts: int)
    ensures Select(SortByTs(s), RowTs, ts) == Select(s, RowTs, ts)
  {
    if s == [] {
    } else {
      SortStable(s[..|s| - 1], ts);
      InsertStable(SortByTs(s[..|s| - 1]), s[|s| - 1], ts);
    }
  }

  /** A flush emits the waiting narrations and then the waiting confirmations as one stably
      time-sorted permutation, and leaves nothing waiting. */
  lemma {:induction false} FlushIsStableSort(t: Tracker, ts: int)
    ensures
      var o := Step(t, Flush);
      var all := t.messages + OrphanRows(t, t.confirmations);
      && o.tracker.messages == [] && o.tracker.confirmations == []
      && SortedByTs(o.rows)
      && multiset(o.rows) == multiset(all)
      && Select(o.rows, RowTs, ts) == Select(all, RowTs, ts)
  {
    SortStable(t.messages + OrphanRows(t, t.confirmations), ts);
    SortPermutes(t.messages + OrphanRows(t, t.confirmations));
  }

  // ---- conservation --------------------------------------------------------

  /** The narrations a run accepted, as the rows they started out as. */
  ghost function Narrated(t: Tracker, es: seq<Event>): seq<LootRow> {
    if es == [] then []
    else Narrated(t, es[..|es| - 1]) + NarratedBy(Run(t, es[..|es| - 1]).tracker, es[|es| - 1])
  }

  ghost function NarratedBy(t: Tracker, e: Event): seq<LootRow> {
    if AcceptsNarration(t, e) then [NarrationRow(t, e)] else []
  }

  /** The item confirmations a run accepted. */
  ghost function Confirmed(t: Tracker, es: seq<Event>): seq<Confirmation> {
    if es == [] then []
    else Confirmed(t, es[..|es| - 1]) + ConfirmedBy(Run(t, es[..|es| - 1]).tracker, es[|es| - 1])
  }

  ghost function ConfirmedBy(t: Tracker, e: Event): seq<Confirmation> {
    if AcceptsTransaction(t, e) && !e.fromCorpse then [ConfirmationOf(e)] else []
  }

  /** The non-empty coin piles a run accepted. */
  ghost function Piles(t: Tracker, es: seq<Event>): seq<Confirmation> {
    if es == [] then []
    else Piles(t, es[..|es| - 1]) + PileBy(Run(t, es[..|es| - 1]).tracker, es[|es| - 1])
  }

  ghost function PileBy(t: Tracker, e: Event): seq<Confirmation> {
    if AcceptsTransaction(t, e) && e.fromCorpse && e.coinCopper != 0 then [ConfirmationOf(e)] else []
  }

  ghost predicate NoReset(es: seq<Event>) {
    forall i :: 0 <= i < |es| ==> !es[i].Reset?
  }

  /** A way to count rows and halves by a key, under which a joined row carries what its narration
      and its confirmation carried, an orphan row what its confirmation carried, a coin row what its
      pile carried, and a window row nothing; as far as the ledger is open to the confirmation. */
  datatype Ledger<!K> = Ledger(row: LootRow -> Option<K>,
                               held: Confirmation -> Option<K>,
                               pile: Confirmation -> Option<K>,
                               open: Confirmation -> bool) {
    ghost predicate Carries(k: K) {
      && (forall m, c :: Waits(m) && open(c) ==>
            One(row(ApplyConfirmation(m, c)), k) == One(row(m), k) + One(held(c), k))
      && (forall t, c :: open(c) ==> One(row(OrphanRow(t, c)), k) == One(held(c), k))
      && (forall t, e: Event | e.Transaction? :: One(row(CoinRow(t, e)), k) == One(pile(ConfirmationOf(e)), k))
      && (forall t, e: Event | e.DropItem? :: One(row(WindowRow(t, e)), k) == 0)
    }

    ghost predicate Open(q: seq<Confirmation>) {
      forall i :: 0 <= i < |q| ==> open(q[i])
    }

    ghost function Held(t: Tracker, k: K): nat {
      Count(t.messages, row, k) + Count(t.confirmations, held, k)
    }

    ghost function Intake(ms: seq<LootRow>, cs: seq<Confirmation>, ps: seq<Confirmation>, k: K): nat {
      Count(ms, row, k) + Count(cs, held, k) + Count(ps, pile, k)
    }
  }

  lemma {:induction false} OrphanCount<K>(t: Tracker, q: seq<Confirmation>, l: Ledger<K>, k: K)
    requires l.Carries(k) && l.Open(q)
    ensures Count(OrphanRows(t, q), l.row, k) == Count(q, l.held, k)
  {
    if q == [] {
    } else {
      OrphanCount(t, q[..|q| - 1], l, k);
      CountPush(OrphanRows(t, q[..|q| - 1]), OrphanRow(t, q[|q| - 1]), l.row, k);
    }
  }

  lemma FlushBalance<K>(t: Tracker, l: Ledger<K>, k: K)
    requires l.Carries(k) && l.Open(t.confirmations)
    ensures Count(FlushRows(t), l.row, k) == l.Held(t, k)
  {
    CountSort(t.messages + OrphanRows(t, t.confirmations), l.row, k);
    CountConcat(t.messages, OrphanRows(t, t.confirmations), l.row, k);
    OrphanCount(t, t.confirmations, l, k);
  }

  lemma JoinNarrationBalance<K>(t: Tracker, m: LootRow, l: Ledger<K>, k: K)
    requires Waits(m) && l.Carries(k) && l.Open(t.confirmations)
    ensures var o := JoinNarration(t, m);
            l.Open(o.tracker.confirmations)
            && Count(o.rows, l.row, k) + l.Held(o.tracker, k) == l.Held(t, k) + One(l.row(m), k)
  {
    match Match(ConfirmationIds(t.confirmations), m.itemId)
    case Some(i) =>
      CountRemove(t.confirmations, i, l.held, k);
      CountPush([], ApplyConfirmation(m, t.confirmations[i]), l.row, k);
    case None =>
      CountPush(t.messages, m, l.row, k);
  }

  lemma JoinConfirmationBalance<K>(t: Tracker, c: Confirmation, l: Ledger<K>, k: K)
    requires Settled(t) && l.Carries(k) && l.Open(t.confirmations) && l.open(c)
    ensures var o := JoinConfirmation(t, c);
            l.Open(o.tracker.confirmations)
            && Count(o.rows, l.row, k) + l.Held(o.tracker, k) == l.Held(t, k) + One(l.held(c), k)
  {
    match Match(MessageIds(t.messages), c.itemId)
    case Some(i) =>
      CountRemove(t.messages, i, l.row, k);
      CountPush([], ApplyConfirmation(t.messages[i], c), l.row, k);
    case None =>
      CountPush(t.confirmations, c, l.held, k);
  }

  lemma CountSingle<T, K>(x: T, key: T -> Option<K>, k: K)
    ensures Count([x], key, k) == One(key(x), k)
  {
    CountPush([], x, key, k);
  }

  lemma TransactionBalance<K>(t: Tracker, e: Event, l: Ledger<K>, k: K)
    requires Settled(t) && e.Transaction? && l.Carries(k) && l.Open(t.confirmations) && l.Open(ConfirmedBy(t, e))
    ensures var o := StepTransaction(t, e);
            l.Open(o.tracker.confirmations)
            && Count(o.rows, l.row, k) + l.Held(o.tracker, k)
            == l.Held(t, k) + l.Intake([], ConfirmedBy(t, e), PileBy(t, e), k)
  {
    if AcceptsTransaction(t, e) {
      CountSingle(ConfirmationOf(e), l.held, k);
      CountSingle(ConfirmationOf(e), l.pile, k);
      if e.fromCorpse {
        CountSingle(CoinRow(t, e), l.row, k);
      } else {
        JoinConfirmationBalance(t.(seenConfirmations := t.seenConfirmations + {KeyOfTransaction(e)}),
                                ConfirmationOf(e), l, k);
      }
    }
  }

  lemma NarrationBalance<K>(t: Tracker, e: Event, l: Ledger<K>, k: K)
    requires e.Narration? && l.Carries(k) && l.Open(t.confirmations)
    ensures var o := StepNarration(t, e);
            l.Open(o.tracker.confirmations)
            && Count(o.rows, l.row, k) + l.Held(o.tracker, k) == l.Held(t, k) + l.Intake(NarratedBy(t, e), [], [], k)
  {
    if AcceptsNarration(t, e) {
      CountSingle(NarrationRow(t, e), l.row, k);
      NarrationWaits(t, e);
      JoinNarrationBalance(t.(seenMessages := t.seenMessages + {KeyOfNarration(e)}), NarrationRow(t, e), l, k);
    }
  }

  lemma ZoneBalance<K>(t: Tracker, zone: string, l: Ledger<K>, k: K)
    requires l.Carries(k) && l.Open(t.confirmations)
    ensures var o := StepZone(t, zone);
            l.Open(o.tracker.confirmations)
            && Count(o.rows, l.row, k) + l.Held(o.tracker, k) == l.Held(t, k)
  {
    FlushBalance(t, l, k);
  }

  lemma StepBalance<K>(t: Tracker, e: Event, l: Ledger<K>, k: K)
    requires Settled(t) && !e.Reset? && l.Carries(k) && l.Open(t.confirmations) && l.Open(ConfirmedBy(t, e))
    ensures var o := Step(t, e);
            l.Open(o.tracker.confirmations)
            && Count(o.rows, l.row, k) + l.Held(o.tracker, k)
            == l.Held(t, k) + l.Intake(NarratedBy(t, e), ConfirmedBy(t, e), PileBy(t, e), k)
  {
    hide LootText.ParseLootLine, LootText.NormalizeMob;
    match e
    case SetLooter(_) =>
    case SetZone(zone) => ZoneBalance(t, zone, l, k);
    case Flush => FlushBalance(t, l, k);
    case Narration(_, _, _, _, _) => NarrationBalance(t, e, l, k);
    case Transaction(_, _, _, _, _, _, _) => TransactionBalance(t, e, l, k);
    case DropItem(_, _, _, _, _, _) => CountSingle(WindowRow(t, e), l.row, k);
  }

  lemma OpenParts<K>(a: seq<Confirmation>, b: seq<Confirmation>, l: Ledger<K>)
    requires l.Open(a + b)
    ensures l.Open(a) && l.Open(b)
  {
    assert forall i :: 0 <= i < |a| ==> a[i] == (a + b)[i];
    assert forall i :: 0 <= i < |b| ==> b[i] == (a + b)[|a| + i];
  }

  /** Over any run without an explicit reset, zone changes included: what came in is what went out
      plus what still waits. */
  lemma {:induction false} RunBalance<K>(t: Tracker, es: seq<Event>, l: Ledger<K>, k: K)
    requires Settled(t) && NoReset(es) && l.Carries(k) && l.Open(t.confirmations) && l.Open(Confirmed(t, es))
    ensures var o := Run(t, es);
            l.Open(o.tracker.confirmations)
            && Count(o.rows, l.row, k) + l.Held(o.tracker, k)
            == l.Held(t, k) + l.Intake(Narrated(t, es), Confirmed(t, es), Piles(t, es), k)
  {
    if es == [] {
    } else {
      var front, e := es[..|es| - 1], es[|es| - 1];
      var p := Run(t, front);
      OpenParts(Confirmed(t, front), ConfirmedBy(p.tracker, e), l);
      RunBalance(t, front, l, k);
      RunSettled(t, front);
      StepBalance(p.tracker, e, l, k);
      CountConcat(p.rows, Step(p.tracker, e).rows, l.row, k);
      CountConcat(Narrated(t, front), NarratedBy(p.tracker, e), l.row, k);
      CountConcat(Confirmed(t, front), ConfirmedBy(p.tracker, e), l.held, k);
      CountConcat(Piles(t, front), PileBy(p.tracker, e), l.pile, k);
    }
  }

  // ---- conservation, read off the rows -------------------------------------

  datatype Kind = WindowItem | CoinPile | Joined | NarrationOnly | ConfirmationOnly

  /** What a row is, read off the row alone. Only a confirmation that met no narration has no mob. */
  function KindOf(row: LootRow): Kind {
    match row.source
    case Window => WindowItem
    case Coin => CoinPile
    case Message => if row.complete then Joined else if row.mobName != "" then NarrationOnly else ConfirmationOnly
  }

  function SomeKind(row: LootRow): Option<Kind> {
    Some(KindOf(row))
  }

  /** The part of a narration that no confirmation changes. */
  datatype Stub = Stub(ts: int, itemName: string, mobName: string, mobNorm: string, zoneShort: string,
                       zoneBase: string, instance: string, disposition: string, sold: bool, looter: string)

  function StubOf(row: LootRow): Option<Stub> {
    if KindOf(row) == Joined || KindOf(row) == NarrationOnly
    then Some(Stub(row.ts, row.itemName, row.mobName, row.mobNorm, row.zoneShort, row.zoneBase, row.instance,
                   row.disposition, row.sold, row.looter))
    else None
  }

  /** The part of a confirmation that its row always carries: its sequence, its coin and its corpse. */
  datatype Ticket = Ticket(sequence: u32, coin: u32, corpse: u32)

  function TicketOf(row: LootRow): Option<Ticket> {
    if KindOf(row) == Joined || KindOf(row) == ConfirmationOnly || KindOf(row) == CoinPile
    then Some(Ticket(row.sequence, row.moneyCopper, row.corpseId))
    else None
  }

  function TicketOfConfirmation(c: Confirmation): Option<Ticket> {
    Some(Ticket(c.sequence, c.coinCopper, c.corpseId))
  }

  predicate Any(c: Confirmation) {
    true
  }

  function Nothing<K>(c: Confirmation): Option<K> {
    None
  }

  /** Every accepted narration is in exactly one place: one joined row, one narration-only row, or
      still waiting. */
  lemma {:induction false} NarrationsConserved(es: seq<Event>, stub: Stub)
    requires NoReset(es)
    ensures var o := Run(EMPTY, es);
            Count(Narrated(EMPTY, es), StubOf, stub)
            == Count(o.rows, StubOf, stub) + Count(o.tracker.messages, StubOf, stub)
  {
    hide LootText.NormalizeMob, Step, Run;
    var l := Ledger(StubOf, Nothing, Nothing, Any);
    assert l.Carries(stub);
    RunBalance(EMPTY, es, l, stub);
    NothingCounts(Confirmed(EMPTY, es), stub);
    NothingCounts(Piles(EMPTY, es), stub);
    NothingCounts(Run(EMPTY, es).tracker.confirmations, stub);
  }

  lemma {:induction false} NothingCounts<K>(q: seq<Confirmation>, k: K)
    ensures Count(q, Nothing, k) == 0
  {
    if q == [] {
    } else {
      NothingCounts(q[..|q| - 1], k);
    }
  }

  /** Every accepted confirmation, with its coin and its corpse, is in exactly one place: one joined row, one
      confirmation-only row, one coin row, or still waiting. */
  lemma {:induction false} ConfirmationsConserved(es: seq<Event>, ticket: Ticket)
    requires NoReset(es)
    ensures var o := Run(EMPTY, es);
            Count(Confirmed(EMPTY, es), TicketOfConfirmation, ticket)
            + Count(Piles(EMPTY, es), TicketOfConfirmation, ticket)
            == Count(o.rows, TicketOf, ticket) + Count(o.tracker.confirmations, TicketOfConfirmation, ticket)
  {
    hide LootText.NormalizeMob, Step, Run;
    var l := Ledger(TicketOf, TicketOfConfirmation, TicketOfConfirmation, Any);
    assert l.Carries(ticket);
    RunBalance(EMPTY, es, l, ticket);
    RunSettled(EMPTY, es);
    WaitingUncounted(Run(EMPTY, es).tracker.messages, ticket);
    NarratedWaits(EMPTY, es);
    WaitingUncounted(Narrated(EMPTY, es), ticket);
  }

  lemma {:induction false} WaitingUncounted(q: seq<LootRow>, ticket: Ticket)
    requires forall i :: 0 <= i < |q| ==> Waits(q[i])
    ensures Count(q, TicketOf, ticket) == 0
  {
    if q == [] {
    } else {
      WaitingUncounted(q[..|q| - 1], ticket);
    }
  }

  lemma {:induction false} NarratedWaits(t: Tracker, es: seq<Event>)
    ensures forall i :: 0 <= i < |Narrated(t, es)| ==> Waits(Narrated(t, es)[i])
  {
    if es == [] {
    } else {
      NarratedWaits(t, es[..|es| - 1]);
      var p := Run(t, es[..|es| - 1]).tracker;
      if AcceptsNarration(p, es[|es| - 1]) {
        NarrationWaits(p, es[|es| - 1]);
      }
    }
  }

  /** A confirmation with its quantity. */
  datatype Receipt = Receipt(ticket: Ticket, quantity: u32)

  function ReceiptOf(row: LootRow): Option<Receipt> {
    match TicketOf(row)
    case Some(ticket) => Some(Receipt(ticket, row.qty))
    case None => None
  }

  function ReceiptOfConfirmation(c: Confirmation): Option<Receipt> {
    Some(Receipt(Ticket(c.sequence, c.coinCopper, c.corpseId), c.quantity))
  }

  /** A pile is one thing. */
  function ReceiptOfPile(c: Confirmation): Option<Receipt> {
    Some(Receipt(Ticket(c.sequence, c.coinCopper, c.corpseId), 1))
  }

  predicate Counted(c: Confirmation) {
    c.quantity != 0
  }

  /** Where every item confirmation tells its quantity, the quantities too are in exactly one place each. One of
      zero leaves the narrated quantity standing. */
  lemma {:induction false} QuantitiesConserved(es: seq<Event>, receipt: Receipt)
    requires NoReset(es) && forall i :: 0 <= i < |Confirmed(EMPTY, es)| ==> Counted(Confirmed(EMPTY, es)[i])
    ensures var o := Run(EMPTY, es);
            Count(Confirmed(EMPTY, es), ReceiptOfConfirmation, receipt)
            + Count(Piles(EMPTY, es), ReceiptOfPile, receipt)
            == Count(o.rows, ReceiptOf, receipt) + Count(o.tracker.confirmations, ReceiptOfConfirmation, receipt)
  {
    hide LootText.NormalizeMob, Step, Run, Confirmed;
    var l := Ledger(ReceiptOf, ReceiptOfConfirmation, ReceiptOfPile, Counted);
    ReceiptsCarry(receipt);
    RunBalance(EMPTY, es, l, receipt);
    RunSettled(EMPTY, es);
    WaitingUnreceipted(Run(EMPTY, es).tracker.messages, receipt);
    NarratedWaits(EMPTY, es);
    WaitingUnreceipted(Narrated(EMPTY, es), receipt);
  }

  lemma ReceiptsCarry(receipt: Receipt)
    ensures Ledger(ReceiptOf, ReceiptOfConfirmation, ReceiptOfPile, Counted).Carries(receipt)
  {
    hide LootText.NormalizeMob;
  }

  lemma {:induction false} WaitingUnreceipted(q: seq<LootRow>, receipt: Receipt)
    requires forall i :: 0 <= i < |q| ==> Waits(q[i])
    ensures Count(q, ReceiptOf, receipt) == 0
  {
    if q == [] {
    } else {
      WaitingUnreceipted(q[..|q| - 1], receipt);
    }
  }

  // ---- the head count ------------------------------------------------------

  function FromNarration(row: LootRow): Option<bool> {
    if KindOf(row) == Joined || KindOf(row) == NarrationOnly then Some(true) else None
  }

  function FromConfirmation(row: LootRow): Option<bool> {
    if KindOf(row) == Joined || KindOf(row) == ConfirmationOnly then Some(true) else None
  }

  function Always(c: Confirmation): Option<bool> {
    Some(true)
  }

  ghost function Rows(rows: seq<LootRow>, kind: Kind): nat {
    Count(rows, SomeKind, kind)
  }

  /** Accepted narrations plus accepted item confirmations: twice the joined rows, once each
      unjoined row, and everything that still waits. */
  lemma {:induction false} HeadCount(es: seq<Event>)
    requires NoReset(es)
    ensures var o := Run(EMPTY, es);
            |Narrated(EMPTY, es)| + |Confirmed(EMPTY, es)|
            == 2 * Rows(o.rows, Joined) + Rows(o.rows, NarrationOnly) + Rows(o.rows, ConfirmationOnly)
               + |o.tracker.messages| + |o.tracker.confirmations|
  {
    RunSettled(EMPTY, es);
    NarratedWaits(EMPTY, es);
    NarrationHeads(es);
    ConfirmationHeads(es);
    KindsAdd(Run(EMPTY, es).rows);
  }

  lemma {:induction false} NarrationHeads(es: seq<Event>)
    requires NoReset(es) && Settled(Run(EMPTY, es).tracker)
    requires forall i :: 0 <= i < |Narrated(EMPTY, es)| ==> Waits(Narrated(EMPTY, es)[i])
    ensures var o := Run(EMPTY, es);
            |Narrated(EMPTY, es)| == Count(o.rows, FromNarration, true) + |o.tracker.messages|
  {
    hide LootText.NormalizeMob, Step, Run;
    var o := Run(EMPTY, es);
    var l := Ledger(FromNarration, Nothing, Nothing, Any);
    assert l.Carries(true);
    RunBalance(EMPTY, es, l, true);
    NothingCounts(Confirmed(EMPTY, es), true);
    NothingCounts(Piles(EMPTY, es), true);
    NothingCounts(o.tracker.confirmations, true);
    WaitingHeads(o.tracker.messages);
    WaitingHeads(Narrated(EMPTY, es));
  }

  lemma {:induction false} ConfirmationHeads(es: seq<Event>)
    requires NoReset(es) && Settled(Run(EMPTY, es).tracker)
    requires forall i :: 0 <= i < |Narrated(EMPTY, es)| ==> Waits(Narrated(EMPTY, es)[i])
    ensures var o := Run(EMPTY, es);
            |Confirmed(EMPTY, es)| == Count(o.rows, FromConfirmation, true) + |o.tracker.confirmations|
  {
    hide LootText.NormalizeMob, Step, Run;
    var o := Run(EMPTY, es);
    var l := Ledger(FromConfirmation, Always, Nothing, Any);
    assert l.Carries(true);
    RunBalance(EMPTY, es, l, true);
    NothingCounts(Piles(EMPTY, es), true);
    WaitingHeads(o.tracker.messages);
    WaitingHeads(Narrated(EMPTY, es));
    AlwaysCounts(o.tracker.confirmations);
    AlwaysCounts(Confirmed(EMPTY, es));
  }

  lemma {:induction false} AlwaysCounts(q: seq<Confirmation>)
    ensures Count(q, Always, true) == |q|
  {
    if q == [] {
    } else {
      AlwaysCounts(q[..|q| - 1]);
    }
  }

  lemma {:induction false} WaitingHeads(q: seq<LootRow>)
    requires forall i :: 0 <= i < |q| ==> Waits(q[i])
    ensures Count(q, FromNarration, true) == |q| && Count(q, FromConfirmation, true) == 0
  {
    if q == [] {
    } else {
      WaitingHeads(q[..|q| - 1]);
    }
  }

  lemma {:induction false} KindsAdd(rows: seq<LootRow>)
    ensures Count(rows, FromNarration, true) == Rows(rows, Joined) + Rows(rows, NarrationOnly)
    ensures Count(rows, FromConfirmation, true) == Rows(rows, Joined) + Rows(rows, ConfirmationOnly)
  {
    if rows == [] {
    } else {
      KindsAdd(rows[..|rows| - 1]);
    }
  }

  // ---- one row per sequence ------------------------------------------------

  function SequenceOf(row: LootRow): Option<u32> {
    if row.sequence != 0 then Some(row.sequence) else None
  }

  function SequenceOfConfirmation(c: Confirmation): Option<u32> {
    if c.sequence != 0 then Some(c.sequence) else None
  }

  /** No event of the run starts a new zone or resets the tracker. */
  ghost predicate StaysInZone(t: Tracker, es: seq<Event>) {
    es == [] ||
    var front, e := es[..|es| - 1], es[|es| - 1];
    StaysInZone(t, front) && !e.Reset? && !ChangesZone(Run(t, front).tracker, e)
  }

  lemma {:induction false} StaysMeansNoReset(t: Tracker, es: seq<Event>)
    requires StaysInZone(t, es)
    ensures NoReset(es)
  {
    hide Run, Step, ChangesZone;
    if es == [] {
    } else {
      StaysMeansNoReset(t, es[..|es| - 1]);
      assert es == es[..|es| - 1] + [es[|es| - 1]];
    }
  }

  /** While the zone stays the same, a nonzero sequence is let in at most once. */
  lemma {:induction false} SequenceIntake(t: Tracker, es: seq<Event>, sequence: u32)
    requires sequence != 0 && StaysInZone(t, es)
    ensures var n := Count(Confirmed(t, es), SequenceOfConfirmation, sequence)
                     + Count(Piles(t, es), SequenceOfConfirmation, sequence);
            n <= 1 && (n == 1 ==> BySequence(sequence) in Run(t, es).tracker.seenConfirmations)
    ensures t.seenConfirmations <= Run(t, es).tracker.seenConfirmations
  {
    if es == [] {
    } else {
      var front, e := es[..|es| - 1], es[|es| - 1];
      SequenceIntake(t, front, sequence);
      var p := Run(t, front).tracker;
      CountConcat(Confirmed(t, front), ConfirmedBy(p, e), SequenceOfConfirmation, sequence);
      CountConcat(Piles(t, front), PileBy(p, e), SequenceOfConfirmation, sequence);
      SequenceStep(p, e, sequence);
      SeenGrows(p, e);
    }
  }

  lemma {:induction false} SequenceStep(t: Tracker, e: Event, sequence: u32)
    requires sequence != 0
    ensures Count(ConfirmedBy(t, e), SequenceOfConfirmation, sequence)
            + Count(PileBy(t, e), SequenceOfConfirmation, sequence)
            <= if AcceptsTransaction(t, e) && e.sequence == sequence then 1 else 0
  {
    if e.Transaction? {
      CountSingle(ConfirmationOf(e), SequenceOfConfirmation, sequence);
    }
  }

  lemma SeenGrows(t: Tracker, e: Event)
    requires !e.Reset? && !ChangesZone(t, e)
    ensures t.seenConfirmations <= Step(t, e).tracker.seenConfirmations
    ensures AcceptsTransaction(t, e) ==> KeyOfTransaction(e) in Step(t, e).tracker.seenConfirmations
  {
  }

  lemma SequencesCarry(k: u32)
    requires k != 0
    ensures Ledger(SequenceOf, SequenceOfConfirmation, SequenceOfConfirmation, Any).Carries(k)
  {
    hide LootText.NormalizeMob;
  }

  lemma {:induction false} SequenceWhileStaying(t: Tracker, es: seq<Event>, k: u32)
    requires Settled(t) && t.confirmations == [] && StaysInZone(t, es) && k != 0
    ensures Count(Run(t, es).rows, SequenceOf, k) <= 1
  {
    hide Step, Run, StaysInZone;
    SequenceIntake(t, es, k);
    StaysMeansNoReset(t, es);
    SequencesCarry(k);
    RunBalance(t, es, Ledger(SequenceOf, SequenceOfConfirmation, SequenceOfConfirmation, Any), k);
    NarratedWaits(t, es);
    UnsequencedUncounted(Narrated(t, es), k);
    UnsequencedUncounted(t.messages, k);
  }

  /** A stay in one zone, with or without the event that ends it by entering another zone, which flushes
      what still waits. */
  ghost predicate OneStay(t: Tracker, es: seq<Event>) {
    || StaysInZone(t, es)
    || (es != [] && StaysInZone(t, es[..|es| - 1]) && ChangesZone(Run(t, es[..|es| - 1]).tracker, es[|es| - 1]))
  }

  /** Leaving a zone emits what a flush would. */
  lemma LeavingFlushes(t: Tracker, e: Event)
    requires ChangesZone(t, e)
    ensures Step(t, e).rows == Step(t, Flush).rows
  {
    hide FlushRows;
  }

  lemma {:induction false} SequenceAtMostOnce(t: Tracker, es: seq<Event>, k: u32)
    requires Settled(t) && t.confirmations == [] && OneStay(t, es) && k != 0
    ensures Count(Run(t, es).rows, SequenceOf, k) <= 1
  {
    if StaysInZone(t, es) {
      SequenceWhileStaying(t, es, k);
    } else {
      var front, e := es[..|es| - 1], es[|es| - 1];
      LeavingFlushes(Run(t, front).tracker, e);
      assert (front + [Flush])[..|front|] == front;
      assert Run(t, front + [Flush]).rows == Run(t, es).rows by { hide Step; }
      assert StaysInZone(t, front + [Flush]) by { hide Step; }
      SequenceWhileStaying(t, front + [Flush], k);
    }
  }

  /** Within one stay in a zone, from the point where it was entered to the rows flushed on leaving it, no
      two rows carry the same nonzero sequence. */
  lemma {:induction false} OneRowPerSequence(t: Tracker, es: seq<Event>, i: nat, j: nat)
    requires Settled(t) && t.confirmations == [] && OneStay(t, es)
    requires i < j < |Run(t, es).rows| && Run(t, es).rows[i].sequence != 0
    ensures Run(t, es).rows[i].sequence != Run(t, es).rows[j].sequence
  {
    hide Step, Run, OneStay;
    var rows := Run(t, es).rows;
    var k := rows[i].sequence;
    SequenceAtMostOnce(t, es, k);
    if k == rows[j].sequence {
      CountTwice(rows, i, j, SequenceOf, k);
    }
  }

  lemma {:induction false} UnsequencedUncounted(q: seq<LootRow>, k: u32)
    requires forall i :: 0 <= i < |q| ==> Waits(q[i])
    ensures Count(q, SequenceOf, k) == 0
  {
    if q == [] {
    } else {
      UnsequencedUncounted(q[..|q| - 1], k);
    }
  }

  /** The state right after a zone change: nothing waits and no sequence has been seen, so the law
      above starts over. */
  lemma ZoneChangeStartsOver(t: Tracker, e: Event)
    requires ChangesZone(t, e)
    ensures var s := Step(t, e).tracker;
            Settled(s) && s.messages == [] && s.confirmations == []
            && s.seenConfirmations == {} && s.seenMessages == {} && s.itemIdByName == map[] && s.seenWindow == {}
  {
  }

  // ---- the zone of a row ---------------------------------------------------

  /** The row names the zone that the tracker is in. */
  predicate Here(row: LootRow, t: Tracker) {
    row.zoneShort == t.zoneShort && row.zoneBase == t.zoneBase && row.instance == t.instance
  }

  /** Everything that waits was looted in this zone. */
  ghost predicate WaitsHere(t: Tracker) {
    forall i :: 0 <= i < |t.messages| ==> Here(t.messages[i], t)
  }

  lemma {:induction false} OrphansHere(t: Tracker, q: seq<Confirmation>)
    ensures forall i :: 0 <= i < |OrphanRows(t, q)| ==> Here(OrphanRows(t, q)[i], t)
  {
    if q == [] {
    } else {
      OrphansHere(t, q[..|q| - 1]);
    }
  }

  lemma FlushedHere(t: Tracker)
    requires WaitsHere(t)
    ensures forall i :: 0 <= i < |FlushRows(t)| ==> Here(FlushRows(t)[i], t)
  {
    hide SortByTs;
    var all := t.messages + OrphanRows(t, t.confirmations);
    OrphansHere(t, t.confirmations);
    SortPermutes(all);
    forall i | 0 <= i < |FlushRows(t)| ensures Here(FlushRows(t)[i], t) {
      assert FlushRows(t)[i] in multiset(SortByTs(all));
      assert FlushRows(t)[i] in all;
    }
  }

  lemma StepHere(t: Tracker, e: Event)
    requires WaitsHere(t)
    ensures WaitsHere(Step(t, e).tracker)
    ensures forall i :: 0 <= i < |Step(t, e).rows| ==> Here(Step(t, e).rows[i], t)
  {
    hide LootText.ParseLootLine, LootText.NormalizeMob, FlushRows, Match;
    FlushedHere(t);
  }

  lemma {:induction false} RunHere(t: Tracker, es: seq<Event>)
    requires WaitsHere(t)
    ensures WaitsHere(Run(t, es).tracker)
  {
    hide Step, WaitsHere;
    if es == [] {
    } else {
      RunHere(t, es[..|es| - 1]);
      StepHere(Run(t, es[..|es| - 1]).tracker, es[|es| - 1]);
    }
  }

  /** A row keeps the zone it was looted in: in every reachable state what waits names the zone the tracker is
      in, and whatever a step emits names the zone the tracker was in before it, even where the step leaves
      that zone. */
  lemma RowsKeepTheirZone(t: Tracker, e: Event)
    requires Reachable(t)
    ensures WaitsHere(t)
    ensures forall i :: 0 <= i < |Step(t, e).rows| ==> Here(Step(t, e).rows[i], t)
  {
    hide Step, Run;
    var es :| Run(EMPTY, es).tracker == t;
    RunHere(EMPTY, es);
    StepHere(t, e);
  }

  // ---- what counts as a repeated narration ---------------------------------

  const SEPARATOR := [1 as char]

  /** `f` has a longer name and a shorter text: the separator that ends the name of `e` stands in the name
      of `f`, and the one that ends the name of `f` stands in the text of `e`. */
  ghost predicate Shifted(e: Event, f: Event)
    requires e.Narration? && f.Narration?
  {
    exists p :: ShiftedBy(e, f, p)
  }

  predicate ShiftedBy(e: Event, f: Event, p: string)
    requires e.Narration? && f.Narration?
  {
    f.itemName == e.itemName + SEPARATOR + p && e.text == p + SEPARATOR + f.text
  }

  /** Exactly when two narrations share a key: they are the same, or one is the other shifted. */
  lemma SameKeyWhen(e: Event, f: Event)
    requires e.Narration? && f.Narration?
    ensures KeyOfNarration(e) == KeyOfNarration(f)
            <==> e.ts == f.ts && e.itemId == f.itemId
                 && ((e.itemName == f.itemName && e.text == f.text) || Shifted(e, f) || Shifted(f, e))
  {
    if |e.itemName| <= |f.itemName| {
      JoinedTexts(e.itemName, e.text, f.itemName, f.text);
    } else {
      JoinedTexts(f.itemName, f.text, e.itemName, e.text);
    }
    if |e.itemName| < |f.itemName| && e.itemName + SEPARATOR + e.text == f.itemName + SEPARATOR + f.text {
      assert ShiftedBy(e, f, f.itemName[|e.itemName| + 1..]);
    }
    if |f.itemName| < |e.itemName| && e.itemName + SEPARATOR + e.text == f.itemName + SEPARATOR + f.text {
      assert ShiftedBy(f, e, e.itemName[|f.itemName| + 1..]);
    }
    if Shifted(e, f) {
      var p :| ShiftedBy(e, f, p);
      ShiftJoins(e.itemName, p, f.text);
    }
    if Shifted(f, e) {
      var p :| ShiftedBy(f, e, p);
      ShiftJoins(f.itemName, p, e.text);
    }
  }

  lemma ShiftJoins(name: string, p: string, text: string)
    ensures name + SEPARATOR + (p + SEPARATOR + text) == name + SEPARATOR + p + SEPARATOR + text
  {
  }

  lemma JoinedTexts(a: string, x: string, b: string, y: string)
    requires |a| <= |b|
    ensures a + SEPARATOR + x == b + SEPARATOR + y
            ==> if |a| == |b| then a == b && x == y
                else b == a + SEPARATOR + b[|a| + 1..] && x == b[|a| + 1..] + SEPARATOR + y
  {
    var s := a + SEPARATOR + x;
    if s == b + SEPARATOR + y {
      assert s[..|a|] == a && s[..|b|] == b;
      assert s[|a| + 1..] == x && s[|b| + 1..] == y;
      assert s[|a|] == SEPARATOR[0] && s[|b|] == SEPARATOR[0];
      if |a| < |b| {
        assert x == s[|a| + 1..|b|] + [s[|b|]] + s[|b| + 1..];
        assert b == s[..|a|] + [s[|a|]] + s[|a| + 1..|b|];
      }
    }
  }

  lemma ShiftedHolds(e: Event, f: Event)
    requires e.Narration? && f.Narration? && Shifted(e, f)
    ensures SEPARATOR[0] in f.itemName
  {
    var p :| ShiftedBy(e, f, p);
    assert f.itemName[|e.itemName|] == SEPARATOR[0];
  }

  /** So keys are exact where no name holds the separator. */
  lemma KeysExact(e: Event, f: Event)
    requires e.Narration? && f.Narration?
    requires SEPARATOR[0] !in e.itemName && SEPARATOR[0] !in f.itemName
    ensures KeyOfNarration(e) == KeyOfNarration(f)
            <==> e.ts == f.ts && e.itemId == f.itemId && e.itemName == f.itemName && e.text == f.text
  {
    hide *;
    SameKeyWhen(e, f);
    if Shifted(e, f) {
      ShiftedHolds(e, f);
    }
    if Shifted(f, e) {
      ShiftedHolds(f, e);
    }
  }

  /** And where one does, two different loot lines can share a key: the second of these, of another item,
      is dropped as a repeat of the first. */
  lemma TwoLinesOneKey(t: Tracker, ts: int, itemId: u32)
    ensures var p := "You looted X";
            var line := "You looted a Y from Z's corpse";
            var e := Narration(LOOT_COLOR, p + SEPARATOR + line, itemId, "", ts);
            var f := Narration(LOOT_COLOR, line, itemId, SEPARATOR + p, ts);
            && LootText.ParseLootLine(e.text).Some? && LootText.ParseLootLine(f.text).Some?
            && LootText.ParseLootLine(e.text).value.item == "X" + SEPARATOR + "You looted a Y"
            && LootText.ParseLootLine(f.text).value.item == "Y"
            && (KeyOfNarration(e) !in t.seenMessages ==>
                  AcceptsNarration(t, e) && AcceptsNarration(t, f) && !AcceptsNarration(Step(t, e).tracker, f)
                  && Step(Step(t, e).tracker, f) == Output(Step(t, e).tracker, []))
  {
    hide *;
    var p := "You looted X";
    var line := "You looted a Y from Z's corpse";
    BothLinesParse();
    ShiftedLine(p, line, itemId, ts);
    var e := Narration(LOOT_COLOR, p + SEPARATOR + line, itemId, "", ts);
    var f := Narration(LOOT_COLOR, line, itemId, SEPARATOR + p, ts);
    if KeyOfNarration(e) !in t.seenMessages {
      SecondDropped(t, e, f);
    }
  }

  lemma ShiftedLine(p: string, line: string, itemId: u32, ts: int)
    ensures KeyOfNarration(Narration(LOOT_COLOR, p + SEPARATOR + line, itemId, "", ts))
            == KeyOfNarration(Narration(LOOT_COLOR, line, itemId, SEPARATOR + p, ts))
  {
    assert "" + SEPARATOR + (p + SEPARATOR + line) == SEPARATOR + p + SEPARATOR + line;
  }

  lemma SecondDropped(t: Tracker, e: Event, f: Event)
    requires e.Narration? && e.color == LOOT_COLOR && LootText.ParseLootLine(e.text).Some?
    requires f.Narration? && f.color == LOOT_COLOR && LootText.ParseLootLine(f.text).Some?
    requires KeyOfNarration(e) == KeyOfNarration(f) && KeyOfNarration(e) !in t.seenMessages
    ensures AcceptsNarration(t, e) && AcceptsNarration(t, f) && !AcceptsNarration(Step(t, e).tracker, f)
    ensures Step(Step(t, e).tracker, f) == Output(Step(t, e).tracker, [])
  {
    hide LootText.ParseLootLine, LootText.NormalizeMob, KeyOfNarration;
  }

  lemma BothLinesParse()
    ensures var e := LootText.ParseLootLine("You looted X" + SEPARATOR + "You looted a Y from Z's corpse");
            e.Some? && e.value.item == "X" + SEPARATOR + "You looted a Y"
    ensures var f := LootText.ParseLootLine("You looted a Y from Z's corpse"); f.Some? && f.value.item == "Y"
  {
    hide *;
    var item := "X" + SEPARATOR + "You looted a Y";
    Specimen(item);
    LootText.AutoLineRoundTrip(LootText.Bare, item, "Z", "");
    LootText.AutoLineRoundTrip(LootText.A, "Y", "Z", "");
  }

  lemma Specimen(item: string)
    requires item == "X" + SEPARATOR + "You looted a Y"
    ensures LootText.Trimmed(item) && LootText.Trimmed("Y")
    ensures LootText.Unambiguous(LootText.Bare, item, "Z") && LootText.Unambiguous(LootText.A, "Y", "Z")
    ensures LootText.ClassifyTail(LootText.TrimEnd("")).Some? && !LootText.Contains("", LootText.CORPSE_MARK)
    ensures LootText.AutoLine(LootText.Bare, item, "Z", "")
            == "You looted X" + SEPARATOR + "You looted a Y from Z's corpse"
    ensures LootText.AutoLine(LootText.A, "Y", "Z", "") == "You looted a Y from Z's corpse"
  {
    hide *;
    FirstWord(item);
    SpecimenTrimmed(item);
    SpecimenTail();
    SpecimenLines(item);
    LootText.UnambiguousIs(LootText.Bare, item, "Z");
    LootText.UnambiguousIs(LootText.A, "Y", "Z");
  }

  lemma SpecimenTrimmed(item: string)
    requires item == "X" + SEPARATOR + "You looted a Y"
    ensures LootText.Trimmed(item) && LootText.Trimmed("Y")
  {
    assert item[0] == 'X' && item[|item| - 1] == 'Y';
  }

  lemma SpecimenTail()
    ensures LootText.ClassifyTail(LootText.TrimEnd("")).Some? && !LootText.Contains("", LootText.CORPSE_MARK)
    ensures !LootText.Contains(" " + "Z", LootText.FROM)
  {
  }

  lemma SpecimenLines(item: string)
    requires item == "X" + SEPARATOR + "You looted a Y"
    ensures LootText.AutoLine(LootText.Bare, item, "Z", "")
            == "You looted X" + SEPARATOR + "You looted a Y from Z's corpse"
    ensures LootText.AutoLine(LootText.A, "Y", "Z", "") == "You looted a Y from Z's corpse"
  {
    hide *;
    var rest := " from Z's corpse";
    LineIs(LootText.Bare, item);
    LineIs(LootText.A, "Y");
    LootText.IntroIs(LootText.Bare);
    LootText.IntroIs(LootText.A);
    Article();
    LineGlued(rest);
    assert "" + item == item;
    ConcatAssoc("You looted ", "X" + SEPARATOR, "You looted a Y");
    ConcatAssoc("You looted ", "X", SEPARATOR);
    ConcatAssoc("You looted X" + SEPARATOR, "You looted a Y", rest);
    ConcatAssoc("You looted ", "a Y", rest);
  }

  lemma Article()
    ensures LootText.CountPhrase.A.Text() == "a"
  {
  }

  lemma LineIs(count: LootText.CountPhrase, item: string)
    ensures LootText.AutoLine(count, item, "Z", "") == "You looted " + (count.Intro() + item) + " from Z's corpse"
  {
    var ci := count.Intro() + item;
    assert LootText.FROM + "Z" + LootText.CORPSE_MARK + "" == " from Z's corpse";
    assert LootText.Head(count, item, "Z") == ci + (LootText.FROM + "Z");
  }

  lemma LineGlued(rest: string)
    requires rest == " from Z's corpse"
    ensures "You looted " + "X" == "You looted X" && "You looted a Y" + rest == "You looted a Y from Z's corpse"
    ensures "a" + " " + "Y" == "a Y" && "You looted " + "a Y" == "You looted a Y"
  {
  }

  lemma FirstWord(item: string)
    requires item == "X" + SEPARATOR + "You looted a Y"
    ensures LootText.Uncounted(item)
  {
    IndexOfIs(item, ' ', 5);
    var first := item[..5];
    assert first[0] == 'X' && |first| == 5;
    assert !LootText.AllDigits(first) by { assert !LootText.IsDigit(first[0]); }
    hide LootText.DecimalValue, IndexOf;
  }
}
