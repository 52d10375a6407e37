/** What a loot row says, field by field, told from the events alone: which narration and which confirmation
    every emitted row comes from, what is dropped as a repeat, and what the drop windows teach. */
module LootRows {
  import opened Prelude
  import opened LootTracker
  import opened LootTrackerLaws
  import LootText

  // ---- the fields of a row -------------------------------------------------

  /** The id of a narration: its link's, else the one learned for the name. */
  function NarratedId(t: Tracker, itemId: u32, name: string): u32 {
    if itemId != 0 then itemId else if name in t.itemIdByName then t.itemIdByName[name] else 0
  }

  predicate InZone(t: Tracker, row: LootRow) {
    row.zoneShort == t.zoneShort && row.zoneBase == t.zoneBase && row.instance == t.instance && row.looter == t.looter
  }

  /** The row of a narration that arrived in state `t`, not yet confirmed. */
  predicate Narrates(t: Tracker, e: Event, row: LootRow) {
    && e.Narration? && e.color == 286 && LootText.ParseLootLine(e.text).Some?
    && var p := LootText.ParseLootLine(e.text).value;
    && row.itemName == (if e.itemName == "" then p.item else e.itemName)
    && row.itemId == NarratedId(t, e.itemId, row.itemName)
    && row.ts == e.ts && row.source == Message && row.icon == 0 && row.qty == p.qty
    && row.mobName == p.mob && row.mobNorm == LootText.NormalizeMob(p.mob) && row.corpseId == 0
    && InZone(t, row)
    && row.sold == p.sold && row.moneyCopper == p.moneyCopper && row.disposition == p.disposition
    && row.sequence == 0 && !row.complete
  }

  /** The event is an item confirmation, and `c` is what waits of it. */
  predicate Confirms(e: Event, c: Confirmation) {
    && e.Transaction? && !e.fromCorpse
    && c.corpseId == e.corpseId && c.itemId == e.itemId && c.quantity == e.quantity && c.coinCopper == e.coinCopper
    && c.sequence == e.sequence && c.ts == e.ts
  }

  /** The row of a narration with its confirmation: the confirmed item, corpse and quantity where they are not
      zero, always the confirmed coin and sequence, and everything else as narrated. */
  predicate Joins(m: LootRow, c: Confirmation, row: LootRow) {
    && row.itemId == (if c.itemId != 0 then c.itemId else m.itemId)
    && row.corpseId == (if c.corpseId != 0 then c.corpseId else m.corpseId)
    && row.qty == (if c.quantity != 0 then c.quantity else m.qty)
    && row.moneyCopper == c.coinCopper && row.sequence == c.sequence && row.complete
    && row.ts == m.ts && row.source == m.source && row.icon == m.icon && row.itemName == m.itemName
    && row.mobName == m.mobName && row.mobNorm == m.mobNorm
    && row.zoneShort == m.zoneShort && row.zoneBase == m.zoneBase && row.instance == m.instance
    && row.sold == m.sold && row.disposition == m.disposition && row.looter == m.looter
    && (c.itemId == m.itemId || c.itemId == 0 || m.itemId == 0)
  }

  /** The row of a confirmation that met no narration before state `t` was flushed. */
  predicate Orphaned(t: Tracker, c: Confirmation, row: LootRow) {
    && row.ts == c.ts && row.source == Message && row.itemName == "" && row.itemId == c.itemId && row.icon == 0
    && row.qty == (if c.quantity > 1 then c.quantity else 1) && row.mobName == "" && row.mobNorm == ""
    && row.corpseId == c.corpseId && InZone(t, row)
    && row.sold == (c.coinCopper > 0) && row.moneyCopper == c.coinCopper
    && row.disposition == (if c.coinCopper > 0 then "sold" else "")
    && row.sequence == c.sequence && !row.complete
  }

  /** The row of a coin pile. */
  predicate PileOf(t: Tracker, e: Event, row: LootRow) {
    && e.Transaction? && e.fromCorpse && e.coinCopper != 0
    && row.ts == e.ts && row.source == Coin && row.itemName == "Coin" && row.itemId == 0 && row.icon == 0
    && row.qty == 1 && row.mobName == "" && row.mobNorm == "" && row.corpseId == e.corpseId && InZone(t, row)
    && !row.sold && row.moneyCopper == e.coinCopper && row.disposition == "corpse_coin"
    && row.sequence == e.sequence && row.complete
  }

  /** The row of an item seen in a corpse's window. */
  predicate SeenIn(t: Tracker, e: Event, row: LootRow) {
    && e.DropItem?
    && row.ts == e.ts && row.source == Window && row.itemName == e.itemName && row.itemId == e.itemId
    && row.icon == e.icon && row.qty == 1 && row.mobName == e.corpseName
    && row.mobNorm == LootText.NormalizeMob(e.corpseName) && row.corpseId == e.corpseId && InZone(t, row)
    && !row.sold && row.moneyCopper == 0 && row.disposition == "" && row.sequence == 0 && row.complete
  }

  // ---- where a row comes from ----------------------------------------------

  /** The state before event `i` of a session that starts from nothing. */
  ghost function Before(es: seq<Event>, i: nat): Tracker
    requires i <= |es|
  {
    Run(EMPTY, es[..i]).tracker
  }

  ghost predicate NarratedAt(es: seq<Event>, i: nat, m: LootRow) {
    i < |es| && Narrates(Before(es, i), es[i], m)
  }

  ghost predicate ConfirmedAt(es: seq<Event>, i: nat, c: Confirmation) {
    i < |es| && Confirms(es[i], c)
  }

  /** Some narration of the run told this row. */
  ghost predicate FromNarration(es: seq<Event>, m: LootRow) {
    exists i: nat :: NarratedAt(es, i, m)
  }

  ghost predicate FromTransaction(es: seq<Event>, c: Confirmation) {
    exists i: nat :: ConfirmedAt(es, i, c)
  }

  ghost predicate JoinedFrom(es: seq<Event>, m: LootRow, c: Confirmation, row: LootRow) {
    FromNarration(es, m) && FromTransaction(es, c) && Joins(m, c, row)
  }

  ghost predicate OrphanedAt(es: seq<Event>, i: nat, c: Confirmation, row: LootRow) {
    i < |es| && FromTransaction(es, c) && Orphaned(Before(es, i), c, row)
  }

  ghost predicate PileAt(es: seq<Event>, i: nat, row: LootRow) {
    i < |es| && PileOf(Before(es, i), es[i], row)
  }

  ghost predicate SeenAt(es: seq<Event>, i: nat, row: LootRow) {
    i < |es| && SeenIn(Before(es, i), es[i], row)
  }

  /** A row is one of five things: a narration joined with a confirmation, either alone, a coin pile, or an item
      seen in a window; each with all its fields from the events of the run. */
  ghost predicate HasOrigin(es: seq<Event>, row: LootRow) {
    || (exists m, c :: JoinedFrom(es, m, c, row))
    || FromNarration(es, row)
    || (exists i: nat, c :: OrphanedAt(es, i, c, row))
    || (exists i: nat :: PileAt(es, i, row))
    || (exists i: nat :: SeenAt(es, i, row))
  }

  /** What one step emits, told from the queues and the event. */
  ghost predicate Emitted(t: Tracker, e: Event, row: LootRow) {
    || (exists m, c :: JoinedBy(t, e, m, c, row))
    || row in t.messages
    || (exists c :: c in t.confirmations && Orphaned(t, c, row))
    || PileOf(t, e, row)
    || SeenIn(t, e, row)
  }

  predicate JoinedBy(t: Tracker, e: Event, m: LootRow, c: Confirmation, row: LootRow) {
    && (m in t.messages || Narrates(t, e, m)) && (c in t.confirmations || Confirms(e, c)) && Joins(m, c, row)
  }

  lemma RowTold(t: Tracker, e: Event)
    requires AcceptsNarration(t, e)
    ensures Narrates(t, e, NarrationRow(t, e))
  {
    hide LootText.ParseLootLine, LootText.NormalizeMob;
  }

  lemma ApplyTold(m: LootRow, c: Confirmation)
    requires Compatible(m.itemId, c.itemId)
    ensures Joins(m, c, ApplyConfirmation(m, c))
  {
  }

  lemma NarrationTold(t: Tracker, e: Event)
    requires e.Narration?
    ensures var o := Step(t, e);
            && (forall row :: row in o.rows ==> Emitted(t, e, row))
            && (forall m :: m in o.tracker.messages ==> m in t.messages || Narrates(t, e, m))
            && (forall c :: c in o.tracker.confirmations ==> c in t.confirmations)
  {
    hide LootText.ParseLootLine, LootText.NormalizeMob, Narrates, Joins;
    if AcceptsNarration(t, e) {
      RowTold(t, e);
      var m := NarrationRow(t, e);
      hide AcceptsNarration, NarrationRow;
      match Match(ConfirmationIds(t.confirmations), m.itemId)
      case Some(i) =>
        ApplyTold(m, t.confirmations[i]);
        assert JoinedBy(t, e, m, t.confirmations[i], ApplyConfirmation(m, t.confirmations[i]));
      case None =>
    }
  }

  lemma TransactionTold(t: Tracker, e: Event)
    requires e.Transaction?
    ensures var o := Step(t, e);
            && (forall row :: row in o.rows ==> Emitted(t, e, row))
            && (forall m :: m in o.tracker.messages ==> m in t.messages)
            && (forall c :: c in o.tracker.confirmations ==> c in t.confirmations || Confirms(e, c))
  {
    hide Narrates, Joins;
    if AcceptsTransaction(t, e) && !e.fromCorpse {
      var c := ConfirmationOf(e);
      match Match(MessageIds(t.messages), c.itemId)
      case Some(i) =>
        ApplyTold(t.messages[i], c);
        assert JoinedBy(t, e, t.messages[i], c, ApplyConfirmation(t.messages[i], c));
      case None =>
    }
  }

  lemma {:induction false} OrphansTold(t: Tracker, q: seq<Confirmation>, row: LootRow)
    requires row in OrphanRows(t, q)
    ensures exists c :: c in q && Orphaned(t, c, row)
  {
    var n := |q| - 1;
    if row in OrphanRows(t, q[..n]) {
      OrphansTold(t, q[..n], row);
    } else {
      assert q[n] in q && Orphaned(t, q[n], row);
    }
  }

  lemma FlushTold(t: Tracker, e: Event)
    ensures forall row :: row in FlushRows(t) ==> Emitted(t, e, row)
  {
    hide SortByTs, Narrates, Joins, Orphaned;
    var all := t.messages + OrphanRows(t, t.confirmations);
    SortPermutes(all);
    forall row | row in FlushRows(t) ensures Emitted(t, e, row) {
      assert row in multiset(SortByTs(all));
      assert row in all;
      if row !in t.messages {
        OrphansTold(t, t.confirmations, row);
      }
    }
  }

  lemma StepTold(t: Tracker, e: Event)
    ensures var o := Step(t, e);
            && (forall row :: row in o.rows ==> Emitted(t, e, row))
            && (forall m :: m in o.tracker.messages ==> m in t.messages || Narrates(t, e, m))
            && (forall c :: c in o.tracker.confirmations ==> c in t.confirmations || Confirms(e, c))
  {
    if e.Narration? {
      NarrationTold(t, e);
    } else if e.Transaction? {
      TransactionTold(t, e);
    } else {
      FlushTold(t, e);
      hide FlushRows, Narrates, Joins, Orphaned, LootText.NormalizeMob;
    }
  }

  lemma StillNarrated(es: seq<Event>, m: LootRow)
    requires es != [] && FromNarration(es[..|es| - 1], m)
    ensures FromNarration(es, m)
  {
    hide Narrates, Run;
    var i: nat :| NarratedAt(es[..|es| - 1], i, m);
    assert es[..|es| - 1][..i] == es[..i];
    assert NarratedAt(es, i, m);
  }

  lemma StillConfirmed(es: seq<Event>, c: Confirmation)
    requires es != [] && FromTransaction(es[..|es| - 1], c)
    ensures FromTransaction(es, c)
  {
    hide Confirms;
    var i: nat :| ConfirmedAt(es[..|es| - 1], i, c);
    assert ConfirmedAt(es, i, c);
  }

  lemma StillOrigin(es: seq<Event>, row: LootRow)
    requires es != [] && HasOrigin(es[..|es| - 1], row)
    ensures HasOrigin(es, row)
  {
    hide Narrates, Confirms, Joins, Orphaned, PileOf, SeenIn, Run;
    var front := es[..|es| - 1];
    forall i | 0 <= i <= |front| ensures front[..i] == es[..i] {
    }
    if m, c :| JoinedFrom(front, m, c, row) {
      StillNarrated(es, m);
      StillConfirmed(es, c);
      assert JoinedFrom(es, m, c, row);
    } else if FromNarration(front, row) {
      StillNarrated(es, row);
    } else if i: nat, c :| OrphanedAt(front, i, c, row) {
      StillConfirmed(es, c);
      assert OrphanedAt(es, i, c, row);
    } else if i: nat :| PileAt(front, i, row) {
      assert PileAt(es, i, row);
    } else {
      var i: nat :| SeenAt(front, i, row);
      assert SeenAt(es, i, row);
    }
  }

  /** All that waits has its event. */
  ghost predicate WaitsTold(es: seq<Event>, t: Tracker) {
    && (forall m :: m in t.messages ==> FromNarration(es, m))
    && (forall c :: c in t.confirmations ==> FromTransaction(es, c))
  }

  lemma LastNarrated(es: seq<Event>, m: LootRow)
    requires es != []
    ensures Narrates(Before(es, |es| - 1), es[|es| - 1], m) ==> FromNarration(es, m)
  {
    hide Narrates, Run;
    if Narrates(Before(es, |es| - 1), es[|es| - 1], m) {
      assert NarratedAt(es, |es| - 1, m);
    }
  }

  lemma LastConfirmed(es: seq<Event>, c: Confirmation)
    requires es != []
    ensures Confirms(es[|es| - 1], c) ==> FromTransaction(es, c)
  {
    hide Confirms;
    if Confirms(es[|es| - 1], c) {
      assert ConfirmedAt(es, |es| - 1, c);
    }
  }

  lemma EmittedHasOrigin(es: seq<Event>, row: LootRow)
    requires es != [] && WaitsTold(es[..|es| - 1], Before(es, |es| - 1))
    requires Emitted(Before(es, |es| - 1), es[|es| - 1], row)
    ensures HasOrigin(es, row)
  {
    hide Narrates, Confirms, Joins, Orphaned, PileOf, SeenIn, Run, FromNarration, FromTransaction;
    var k := |es| - 1;
    var t, e := Before(es, k), es[k];
    forall m | m in t.messages ensures FromNarration(es, m) {
      StillNarrated(es, m);
    }
    forall c | c in t.confirmations ensures FromTransaction(es, c) {
      StillConfirmed(es, c);
    }
    if m, c :| JoinedBy(t, e, m, c, row) {
      LastNarrated(es, m);
      LastConfirmed(es, c);
      assert JoinedFrom(es, m, c, row);
    } else if row in t.messages {
    } else if c :| c in t.confirmations && Orphaned(t, c, row) {
      assert OrphanedAt(es, k, c, row);
    } else if PileOf(t, e, row) {
      assert PileAt(es, k, row);
    } else {
      assert SeenAt(es, k, row);
    }
  }

  /** Every row of any run tells exactly what its events said, and so does everything that still waits. */
  lemma {:induction false} RowsTellTheirEvents(es: seq<Event>)
    ensures forall row :: row in Run(EMPTY, es).rows ==> HasOrigin(es, row)
    ensures WaitsTold(es, Run(EMPTY, es).tracker)
  {
    if es == [] {
    } else {
      var front, k := es[..|es| - 1], |es| - 1;
      RowsTellTheirEvents(front);
      StepTold(Before(es, k), es[k]);
      hide HasOrigin, Emitted, Step, Narrates, Confirms, FromNarration, FromTransaction;
      forall row | row in Run(EMPTY, es).rows ensures HasOrigin(es, row) {
        if row in Run(EMPTY, front).rows {
          StillOrigin(es, row);
        } else {
          EmittedHasOrigin(es, row);
        }
      }
      var t := Run(EMPTY, es).tracker;
      forall m | m in t.messages ensures FromNarration(es, m) {
        if m in Before(es, k).messages {
          StillNarrated(es, m);
        } else {
          LastNarrated(es, m);
        }
      }
      forall c | c in t.confirmations ensures FromTransaction(es, c) {
        if c in Before(es, k).confirmations {
          StillConfirmed(es, c);
        } else {
          LastConfirmed(es, c);
        }
      }
    }
  }

  // ---- one narration and its confirmation ----------------------------------

  /** Nothing that waits on the other side could be meant by either half. */
  ghost predicate Alone(t: Tracker, id: u32, c: Event)
    requires c.Transaction?
  {
    && (forall i :: 0 <= i < |t.confirmations| ==> !Compatible(t.confirmations[i].itemId, id))
    && (forall i :: 0 <= i < |t.messages| ==> !Compatible(t.messages[i].itemId, c.itemId))
  }

  lemma {:induction false} MeetsOnly(ids: seq<u32>, last: u32, id: u32)
    requires (forall i :: 0 <= i < |ids| ==> !Compatible(ids[i], id)) && Compatible(last, id)
    ensures Match(ids + [last], id) == Some(|ids|)
  {
    var all := ids + [last];
    assert all[|ids|] == last;
    assert forall i :: 0 <= i < |ids| ==> all[i] == ids[i];
    hide Match;
  }

  lemma {:induction false} LastRemoved<T>(s: seq<T>, x: T)
    ensures RemoveAt(s + [x], |s|) == s
  {
  }

  lemma NarrationFirst(t: Tracker, n: Event, c: Event)
    requires AcceptsNarration(t, n) && AcceptsTransaction(t, c) && !c.fromCorpse
    requires Alone(t, NarrationRow(t, n).itemId, c) && Compatible(NarrationRow(t, n).itemId, c.itemId)
    ensures var a := Step(t, n); var b := Step(a.tracker, c);
            && a.rows == [] && b.rows == [ApplyConfirmation(NarrationRow(t, n), ConfirmationOf(c))]
            && b.tracker.messages == t.messages && b.tracker.confirmations == t.confirmations
  {
    hide LootText.ParseLootLine, LootText.NormalizeMob, ApplyConfirmation;
    var m := NarrationRow(t, n);
    MeetsOnly(MessageIds(t.messages), m.itemId, c.itemId);
    assert MessageIds(t.messages + [m]) == MessageIds(t.messages) + [m.itemId];
    LastRemoved(t.messages, m);
    hide AcceptsNarration, NarrationRow;
  }

  lemma ConfirmationWaits(t: Tracker, n: Event, c: Event)
    requires AcceptsNarration(t, n) && AcceptsTransaction(t, c) && !c.fromCorpse
    requires Alone(t, NarrationRow(t, n).itemId, c)
    ensures var o := Step(t, c);
            && o.rows == [] && o.tracker.messages == t.messages
            && o.tracker.confirmations == t.confirmations + [ConfirmationOf(c)]
            && AcceptsNarration(o.tracker, n) && NarrationRow(o.tracker, n) == NarrationRow(t, n)
  {
    hide LootText.ParseLootLine, LootText.NormalizeMob;
  }

  lemma NarrationTakes(t: Tracker, n: Event, q: seq<Confirmation>, k: Confirmation)
    requires AcceptsNarration(t, n) && t.confirmations == q + [k]
    requires Match(ConfirmationIds(q + [k]), NarrationRow(t, n).itemId) == Some(|q|)
    ensures var o := Step(t, n);
            && o.rows == [ApplyConfirmation(NarrationRow(t, n), k)]
            && o.tracker.messages == t.messages && o.tracker.confirmations == q
  {
    hide NarrationRow, ApplyConfirmation, Match, ConfirmationIds;
    LastRemoved(q, k);
  }

  lemma ConfirmationFirst(t: Tracker, n: Event, c: Event)
    requires AcceptsNarration(t, n) && AcceptsTransaction(t, c) && !c.fromCorpse
    requires Alone(t, NarrationRow(t, n).itemId, c) && Compatible(NarrationRow(t, n).itemId, c.itemId)
    ensures var a := Step(t, c); var b := Step(a.tracker, n);
            && a.rows == [] && b.rows == [ApplyConfirmation(NarrationRow(t, n), ConfirmationOf(c))]
            && b.tracker.messages == t.messages && b.tracker.confirmations == t.confirmations
  {
    hide LootText.ParseLootLine, LootText.NormalizeMob;
    var m, k := NarrationRow(t, n), ConfirmationOf(c);
    assert k.itemId == c.itemId;
    hide Step, AcceptsNarration, AcceptsTransaction, NarrationRow, ConfirmationOf, ApplyConfirmation, Match;
    MeetsOnly(ConfirmationIds(t.confirmations), k.itemId, m.itemId);
    assert ConfirmationIds(t.confirmations + [k]) == ConfirmationIds(t.confirmations) + [k.itemId];
    ConfirmationWaits(t, n, c);
    NarrationTakes(Step(t, c).tracker, n, t.confirmations, k);
  }

  /** A narration and a confirmation that are meant for each other, and for nothing that waits, give the same
      single row in either order: the confirmed item and quantity where they are not zero, the confirmed corpse,
      coin and sequence, and the rest as narrated. */
  lemma EitherOrderSameRow(t: Tracker, n: Event, c: Event)
    requires AcceptsNarration(t, n) && AcceptsTransaction(t, c) && !c.fromCorpse
    requires var p := LootText.ParseLootLine(n.text).value;
             var id := NarratedId(t, n.itemId, if n.itemName == "" then p.item else n.itemName);
             Alone(t, id, c) && (id == c.itemId || id == 0 || c.itemId == 0)
    ensures var p := LootText.ParseLootLine(n.text).value;
            var name := if n.itemName == "" then p.item else n.itemName;
            var a, b := Step(Step(t, n).tracker, c), Step(Step(t, c).tracker, n);
            && Step(t, n).rows == Step(t, c).rows == [] && a.rows == b.rows && |a.rows| == 1
            && a.tracker.messages == b.tracker.messages == t.messages
            && a.tracker.confirmations == b.tracker.confirmations == t.confirmations
            && a.rows[0] == LootRow(
                 n.ts, Message, name, if c.itemId != 0 then c.itemId else NarratedId(t, n.itemId, name), 0,
                 if c.quantity != 0 then c.quantity else p.qty, p.mob, LootText.NormalizeMob(p.mob), c.corpseId,
                 t.zoneShort, t.zoneBase, t.instance, p.sold, c.coinCopper, p.disposition, t.looter, c.sequence, true)
  {
    NarrationRowIs(t, n);
    hide NarrationRow, LootText.ParseLootLine, LootText.NormalizeMob;
    NarrationFirst(t, n, c);
    ConfirmationFirst(t, n, c);
    hide Step, Alone;
  }

  lemma NarrationRowIs(t: Tracker, n: Event)
    requires AcceptsNarration(t, n)
    ensures var p := LootText.ParseLootLine(n.text).value;
            var name := if n.itemName == "" then p.item else n.itemName;
            NarrationRow(t, n)
            == LootRow(n.ts, Message, name, NarratedId(t, n.itemId, name), 0, p.qty, p.mob,
                       LootText.NormalizeMob(p.mob), 0, t.zoneShort, t.zoneBase, t.instance, p.sold, p.moneyCopper,
                       p.disposition, t.looter, 0, false)
  {
    hide LootText.ParseLootLine, LootText.NormalizeMob;
  }

  // ---- repeats -------------------------------------------------------------

  /** Two transactions are the same by sequence where either has one, else by all their fields. */
  predicate SameTransaction(e: Event, f: Event) {
    && e.Transaction? && f.Transaction?
    && if e.sequence != 0 || f.sequence != 0 then e.sequence == f.sequence
       else e.corpseId == f.corpseId && e.itemId == f.itemId && e.quantity == f.quantity
            && e.coinCopper == f.coinCopper && e.fromCorpse == f.fromCorpse && e.ts == f.ts
  }

  predicate LootLine(e: Event) {
    e.Narration? && e.color == 286 && LootText.ParseLootLine(e.text).Some?
  }

  predicate SameNarration(e: Event, f: Event) {
    && LootLine(e) && LootLine(f) && e.ts == f.ts && e.itemId == f.itemId
    && e.itemName + SEPARATOR + e.text == f.itemName + SEPARATOR + f.text
  }

  predicate SameDrop(e: Event, f: Event) {
    e.DropItem? && f.DropItem? && e.corpseId == f.corpseId && e.itemName == f.itemName
  }

  /** An event of the run that makes `e` a repeat. */
  predicate Same(e: Event, f: Event) {
    SameTransaction(e, f) || SameNarration(e, f) || SameDrop(e, f)
  }

  ghost predicate Repeats(es: seq<Event>, e: Event) {
    exists i :: 0 <= i < |es| && Same(es[i], e)
  }

  /** Whether the tracker remembers the event. */
  predicate Remembers(t: Tracker, e: Event) {
    || (e.Transaction? && KeyOfTransaction(e) in t.seenConfirmations)
    || (LootLine(e) && KeyOfNarration(e) in t.seenMessages)
    || (e.DropItem? && WindowKey(e.corpseId, e.itemName) in t.seenWindow)
  }

  lemma StepRemembers(t: Tracker, e: Event, f: Event)
    requires !e.Reset? && !ChangesZone(t, e)
    ensures Remembers(Step(t, e).tracker, f) <==> Remembers(t, f) || Same(e, f)
  {
    hide LootText.ParseLootLine, LootText.NormalizeMob;
    KeysTold(e, f);
    hide KeyOfTransaction, KeyOfNarration, SameTransaction, SameNarration, FlushRows;
  }

  lemma KeysTold(e: Event, f: Event)
    ensures SameTransaction(e, f) <==> e.Transaction? && f.Transaction? && KeyOfTransaction(e) == KeyOfTransaction(f)
    ensures SameNarration(e, f) <==> LootLine(e) && LootLine(f) && KeyOfNarration(e) == KeyOfNarration(f)
  {
  }

  lemma {:induction false} RepeatsPush(es: seq<Event>, e: Event, f: Event)
    ensures Repeats(es + [e], f) <==> Repeats(es, f) || Same(e, f)
  {
    hide Same;
    var all := es + [e];
    if Same(e, f) {
      assert Same(all[|es|], f);
    }
    if Repeats(es, f) {
      var i :| 0 <= i < |es| && Same(es[i], f);
      assert Same(all[i], f);
    }
    if Repeats(all, f) && !Same(e, f) {
      var i :| 0 <= i < |all| && Same(all[i], f);
      assert Same(es[i], f);
    }
  }

  /** One step of a stay. */
  lemma {:induction false} StayPop(t: Tracker, es: seq<Event>)
    requires StaysInZone(t, es)
    ensures es == [] ==> Run(t, es).tracker == t
    ensures es != [] ==>
              var front, e := es[..|es| - 1], es[|es| - 1];
              && es == front + [e] && StaysInZone(t, front)
              && Run(t, es).tracker == Step(Run(t, front).tracker, e).tracker
              && !e.Reset? && !ChangesZone(Run(t, front).tracker, e)
  {
    hide Step, ChangesZone;
  }

  lemma {:induction false} RunRemembers(t: Tracker, es: seq<Event>, f: Event)
    requires StaysInZone(t, es)
    ensures Remembers(Run(t, es).tracker, f) <==> Remembers(t, f) || Repeats(es, f)
  {
    hide *;
    StayPop(t, es);
    if es == [] {
      NoRepeats(f);
    } else {
      var front, e := es[..|es| - 1], es[|es| - 1];
      RunRemembers(t, front, f);
      StepRemembers(Run(t, front).tracker, e, f);
      RepeatsPush(front, e, f);
    }
  }

  lemma NoRepeats(f: Event)
    ensures !Repeats([], f)
  {
  }

  /** Nothing is remembered: the state of a new tracker, and of one that has just entered a zone. */
  predicate Fresh(t: Tracker) {
    t.seenConfirmations == {} && t.seenMessages == {} && t.seenWindow == {} && t.itemIdByName == map[]
  }

  /** During a stay in a zone a transaction is dropped exactly when an earlier one of the stay was the same, a
      narration when it is no loot line or repeats one, and a window item is shown exactly the first time. */
  lemma {:induction false} DroppedExactlyWhen(t: Tracker, es: seq<Event>, e: Event)
    requires Fresh(t) && StaysInZone(t, es)
    ensures var s := Run(t, es).tracker;
            && (e.Transaction? ==> (Step(s, e) == Output(s, []) <==> Repeats(es, e)))
            && (e.Narration? ==> (Step(s, e) == Output(s, []) <==> !LootLine(e) || Repeats(es, e)))
            && (e.DropItem? ==> |Step(s, e).rows| == if Repeats(es, e) then 0 else 1)
  {
    RunRemembers(t, es, e);
    StepKeepsOrDrops(Run(t, es).tracker, e);
    hide Step, Run, Repeats, KeyOfTransaction, KeyOfNarration, StaysInZone;
  }

  lemma StepKeepsOrDrops(s: Tracker, e: Event)
    ensures e.Transaction? ==> (Step(s, e) == Output(s, []) <==> Remembers(s, e))
    ensures e.Narration? ==> (Step(s, e) == Output(s, []) <==> !LootLine(e) || Remembers(s, e))
    ensures e.DropItem? ==> |Step(s, e).rows| == if Remembers(s, e) then 0 else 1
  {
    hide LootText.ParseLootLine, LootText.NormalizeMob;
    if e.Narration? && AcceptsNarration(s, e) {
      assert KeyOfNarration(e) in Step(s, e).tracker.seenMessages;
    }
    if e.Transaction? && AcceptsTransaction(s, e) {
      assert KeyOfTransaction(e) in Step(s, e).tracker.seenConfirmations;
    }
  }

  // ---- learned ids ---------------------------------------------------------

  predicate Teaches(e: Event, name: string) {
    e.DropItem? && e.itemId != 0 && e.itemName == name
  }

  /** The last window item that taught an id for the name. */
  ghost predicate TaughtAt(es: seq<Event>, i: nat, name: string) {
    i < |es| && Teaches(es[i], name) && forall j :: i < j < |es| ==> !Teaches(es[j], name)
  }

  lemma StepLearns(t: Tracker, e: Event, name: string)
    requires !e.Reset? && !ChangesZone(t, e)
    ensures var m := Step(t, e).tracker.itemIdByName;
            if Teaches(e, name) then name in m && m[name] == e.itemId
            else (name in m <==> name in t.itemIdByName) && (name in m ==> m[name] == t.itemIdByName[name])
  {
    hide LootText.ParseLootLine, LootText.NormalizeMob, FlushRows;
  }

  /** During a stay a narration without a linked id gets the id that the last window item of its name taught, and
      no id where none did, not even one taught before the stay. */
  lemma {:induction false} LearnedId(t: Tracker, es: seq<Event>, name: string)
    requires Fresh(t) && StaysInZone(t, es)
    ensures var id := NarratedId(Run(t, es).tracker, 0, name);
            && (forall i: nat :: TaughtAt(es, i, name) ==> id == es[i].itemId)
            && ((forall i :: 0 <= i < |es| ==> !Teaches(es[i], name)) ==> id == 0)
  {
    LearnedExactly(t, es, name);
    hide Run, StaysInZone, Fresh;
  }

  /** What the window items of the run taught for the name. */
  ghost predicate Learned(es: seq<Event>, name: string, m: map<string, u32>) {
    && (forall i: nat :: TaughtAt(es, i, name) ==> name in m && m[name] == es[i].itemId)
    && ((forall i :: 0 <= i < |es| ==> !Teaches(es[i], name)) ==> name !in m)
  }

  lemma {:induction false} LearnedExactly(t: Tracker, es: seq<Event>, name: string)
    requires Fresh(t) && StaysInZone(t, es)
    ensures Learned(es, name, Run(t, es).tracker.itemIdByName)
  {
    hide *;
    StayPop(t, es);
    if es == [] {
      NothingLearned(t, name);
    } else {
      var front, e := es[..|es| - 1], es[|es| - 1];
      LearnedExactly(t, front, name);
      StepLearns(Run(t, front).tracker, e, name);
      LearnedPush(front, e, name, Run(t, front).tracker.itemIdByName, Run(t, es).tracker.itemIdByName);
    }
  }

  lemma {:induction false} NothingLearned(t: Tracker, name: string)
    requires Fresh(t)
    ensures Learned([], name, t.itemIdByName)
  {
  }

  lemma LearnedPush(es: seq<Event>, e: Event, name: string, before: map<string, u32>, after: map<string, u32>)
    requires Learned(es, name, before)
    requires if Teaches(e, name) then name in after && after[name] == e.itemId
             else (name in after <==> name in before) && (name in after ==> after[name] == before[name])
    ensures Learned(es + [e], name, after)
  {
    var all := es + [e];
    assert all[|es|] == e && forall i :: 0 <= i < |es| ==> all[i] == es[i];
    forall i: nat | TaughtAt(all, i, name) ensures name in after && after[name] == all[i].itemId {
      if i < |es| {
        assert !Teaches(all[|es|], name);
        forall j | i < j < |es| ensures !Teaches(es[j], name) {
          assert !Teaches(all[j], name);
        }
        assert TaughtAt(es, i, name);
      }
    }
    if forall i :: 0 <= i < |all| ==> !Teaches(all[i], name) {
      assert !Teaches(all[|es|], name);
      forall i | 0 <= i < |es| ensures !Teaches(es[i], name) {
        assert !Teaches(all[i], name);
      }
    }
  }

  // ---- zones ---------------------------------------------------------------

  /** A zone event flushes with the old zone's name. An empty name does no more; the name of the current zone
      keeps what is remembered; another one forgets it. The looter always stays. */
  lemma ZoneRule(t: Tracker, zone: string)
    ensures var o := Step(t, SetZone(zone));
            var z := LootText.SplitZoneInstance(zone);
            && o.rows == Step(t, Flush).rows
            && o.tracker == (if zone == "" then t.(messages := [], confirmations := [])
                             else if zone == t.zoneShort then
                               t.(zoneBase := z.base, instance := z.instance, messages := [], confirmations := [])
                             else Tracker(zone, z.base, z.instance, t.looter, [], [], {}, map[], {}, {}))
  {
    hide FlushRows, LootText.SplitZoneInstance;
  }

  lemma ResetRule(t: Tracker, name: string)
    ensures Step(t, Reset) == Output(Tracker("", "", "", t.looter, [], [], {}, map[], {}, {}), [])
    ensures Step(t, SetLooter(name)) == Output(t.(looter := name), [])
    ensures Step(t, Flush).tracker == t.(messages := [], confirmations := [])
  {
    hide FlushRows;
  }
}
