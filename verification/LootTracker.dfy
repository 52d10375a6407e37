/** The online matcher that joins loot narrations with loot confirmations
    (`seq-backend-eql/src/loot_track.rs`, `LootTracker`).

    `Tracker` and `Step` say what each call does to the state as a value; the class carries the
    mutable fields and is proved to do exactly that. The laws over whole runs are in
    LootTrackerLaws. */
module LootTracker {
  import opened Prelude
  import LootText

  const LOOT_COLOR: u32 := 286

  datatype LootSource = Message | Window | Coin

  datatype LootRow = LootRow(
    ts: int,
    source: LootSource,
    itemName: string,
    itemId: u32,
    icon: u32,
    qty: u32,
    mobName: string,
    mobNorm: string,
    corpseId: u32,
    zoneShort: string,
    zoneBase: string,
    instance: string,
    sold: bool,
    moneyCopper: u32,
    disposition: string,
    looter: string,
    sequence: u32,
    complete: bool)

  datatype Confirmation = Confirmation(
    corpseId: u32, itemId: u32, quantity: u32, coinCopper: u32, sequence: u32, ts: int)

  /** The text key of a narration. Name and text are joined by U+0001, so two narrations whose
      joined text agrees share a key. */
  datatype MessageKey = MessageKey(ts: int, itemId: u32, nameAndText: string)

  datatype ConfirmationKey =
    | BySequence(sequence: u32)
    | ByFields(corpseId: u32, itemId: u32, quantity: u32, coinCopper: u32, fromCorpse: bool, ts: int)

  datatype WindowKey = WindowKey(corpseId: u32, itemName: string)

  datatype Tracker = Tracker(
    zoneShort: string,
    zoneBase: string,
    instance: string,
    looter: string,
    messages: seq<LootRow>,
    confirmations: seq<Confirmation>,
    seenWindow: set<WindowKey>,
    itemIdByName: map<string, u32>,
    seenConfirmations: set<ConfirmationKey>,
    seenMessages: set<MessageKey>)

  datatype Event =
    | SetLooter(looter: string)
    | SetZone(zone: string)
    | Narration(color: u32, text: string, itemId: u32, itemName: string, ts: int)
    | Transaction(corpseId: u32, itemId: u32, quantity: u32, coinCopper: u32, fromCorpse: bool,
                  sequence: u32, ts: int)
    | DropItem(corpseId: u32, corpseName: string, itemName: string, icon: u32, itemId: u32, ts: int)
    | Flush
    | Reset

  datatype Output = Output(tracker: Tracker, rows: seq<LootRow>)

  const EMPTY := Tracker("", "", "", "", [], [], {}, map[], {}, {})

  // ---- matching ------------------------------------------------------------

  function MessageIds(q: seq<LootRow>): (r: seq<u32>)
    ensures |r| == |q| && forall i :: 0 <= i < |q| ==> r[i] == q[i].itemId
  {
    seq(|q|, i requires 0 <= i < |q| => q[i].itemId)
  }

  function ConfirmationIds(q: seq<Confirmation>): (r: seq<u32>)
    ensures |r| == |q| && forall i :: 0 <= i < |q| ==> r[i] == q[i].itemId
  {
    seq(|q|, i requires 0 <= i < |q| => q[i].itemId)
  }

  /** Which waiting half an id pairs with: the first equal id, else the first unknown (zero) id;
      an unknown id takes whatever waits longest. */
  function Match(ids: seq<u32>, id: u32): (r: Option<nat>)
    ensures r.Some? ==> r.value < |ids| && Compatible(ids[r.value], id)
    ensures r.None? ==> forall i :: 0 <= i < |ids| ==> !Compatible(ids[i], id)
  {
    if id != 0 then
      match IndexOf(ids, id)
      case Some(i) => Some(i)
      case None => IndexOf(ids, 0)
    else if ids != [] then Some(0)
    else None
  }

  predicate Compatible(a: u32, b: u32) {
    a == b || a == 0 || b == 0
  }

  function ApplyConfirmation(row: LootRow, c: Confirmation): LootRow {
    row.(
      itemId := if c.itemId != 0 then c.itemId else row.itemId,
      corpseId := if c.corpseId != 0 then c.corpseId else row.corpseId,
      qty := if c.quantity != 0 then c.quantity else row.qty,
      moneyCopper := c.coinCopper,
      sequence := c.sequence,
      complete := true)
  }

  // ---- one step ------------------------------------------------------------

  function KeyOfNarration(e: Event): MessageKey
    requires e.Narration?
  {
    MessageKey(e.ts, e.itemId, e.itemName + [1 as char] + e.text)
  }

  function KeyOfTransaction(e: Event): ConfirmationKey
    requires e.Transaction?
  {
    if e.sequence != 0 then BySequence(e.sequence)
    else ByFields(e.corpseId, e.itemId, e.quantity, e.coinCopper, e.fromCorpse, e.ts)
  }

  /** A narration that parses, on the loot colour, and was not seen before. */
  predicate AcceptsNarration(t: Tracker, e: Event) {
    e.Narration? && e.color == LOOT_COLOR && LootText.ParseLootLine(e.text).Some?
    && KeyOfNarration(e) !in t.seenMessages
  }

  /** A transaction that was not seen before. */
  predicate AcceptsTransaction(t: Tracker, e: Event) {
    e.Transaction? && KeyOfTransaction(e) !in t.seenConfirmations
  }

  function NarrationRow(t: Tracker, e: Event): LootRow
    requires e.Narration? && LootText.ParseLootLine(e.text).Some?
  {
    var p := LootText.ParseLootLine(e.text).value;
    var name := if e.itemName == "" then p.item else e.itemName;
    var id := if e.itemId != 0 then e.itemId else if name in t.itemIdByName then t.itemIdByName[name] else 0;
    LootRow(e.ts, Message, name, id, 0, p.qty, p.mob, LootText.NormalizeMob(p.mob), 0,
            t.zoneShort, t.zoneBase, t.instance, p.sold, p.moneyCopper, p.disposition, t.looter, 0, false)
  }

  function ConfirmationOf(e: Event): Confirmation
    requires e.Transaction?
  {
    Confirmation(e.corpseId, e.itemId, e.quantity, e.coinCopper, e.sequence, e.ts)
  }

  function CoinRow(t: Tracker, e: Event): LootRow
    requires e.Transaction?
  {
    LootRow(e.ts, Coin, "Coin", 0, 0, 1, "", "", e.corpseId, t.zoneShort, t.zoneBase, t.instance,
            false, e.coinCopper, "corpse_coin", t.looter, e.sequence, true)
  }

  function WindowRow(t: Tracker, e: Event): LootRow
    requires e.DropItem?
  {
    LootRow(e.ts, Window, e.itemName, e.itemId, e.icon, 1, e.corpseName, LootText.NormalizeMob(e.corpseName),
            e.corpseId, t.zoneShort, t.zoneBase, t.instance, false, 0, "", t.looter, 0, true)
  }

  /** The row of a confirmation that never found its narration. */
  function OrphanRow(t: Tracker, c: Confirmation): LootRow {
    LootRow(c.ts, Message, "", c.itemId, 0, if c.quantity == 0 then 1 else c.quantity, "", "", c.corpseId,
            t.zoneShort, t.zoneBase, t.instance, c.coinCopper != 0, c.coinCopper,
            if c.coinCopper == 0 then "" else "sold", t.looter, c.sequence, false)
  }

  function OrphanRows(t: Tracker, q: seq<Confirmation>): (r: seq<LootRow>)
    ensures |r| == |q|
  {
    if q == [] then [] else OrphanRows(t, q[..|q| - 1]) + [OrphanRow(t, q[|q| - 1])]
  }

  function JoinNarration(t: Tracker, row: LootRow): Output {
    match Match(ConfirmationIds(t.confirmations), row.itemId)
    case Some(i) => Output(t.(confirmations := RemoveAt(t.confirmations, i)),
                           [ApplyConfirmation(row, t.confirmations[i])])
    case None => Output(t.(messages := t.messages + [row]), [])
  }

  function JoinConfirmation(t: Tracker, c: Confirmation): Output {
    match Match(MessageIds(t.messages), c.itemId)
    case Some(i) => Output(t.(messages := RemoveAt(t.messages, i)), [ApplyConfirmation(t.messages[i], c)])
    case None => Output(t.(confirmations := t.confirmations + [c]), [])
  }

  function FlushRows(t: Tracker): seq<LootRow> {
    SortByTs(t.messages + OrphanRows(t, t.confirmations))
  }

  function StepFlush(t: Tracker): Output {
    Output(t.(messages := [], confirmations := []), FlushRows(t))
  }

  function StepReset(t: Tracker): Tracker {
    EMPTY.(looter := t.looter)
  }

  /** Whether a zone event starts a new zone and so forgets the old one. */
  predicate ChangesZone(t: Tracker, e: Event) {
    e.SetZone? && e.zone != "" && e.zone != t.zoneShort
  }

  function StepZone(t: Tracker, zone: string): Output {
    var f := StepFlush(t);
    if zone == "" then f else
    var s := if t.zoneShort != zone then StepReset(f.tracker) else f.tracker;
    var z := LootText.SplitZoneInstance(zone);
    Output(s.(zoneShort := zone, zoneBase := z.base, instance := z.instance), f.rows)
  }

  function StepNarration(t: Tracker, e: Event): Output
    requires e.Narration?
  {
    if !AcceptsNarration(t, e) then Output(t, []) else
    JoinNarration(t.(seenMessages := t.seenMessages + {KeyOfNarration(e)}), NarrationRow(t, e))
  }

  function StepTransaction(t: Tracker, e: Event): Output
    requires e.Transaction?
  {
    if !AcceptsTransaction(t, e) then Output(t, []) else
    var s := t.(seenConfirmations := t.seenConfirmations + {KeyOfTransaction(e)});
    if e.fromCorpse then Output(s, if e.coinCopper == 0 then [] else [CoinRow(t, e)])
    else JoinConfirmation(s, ConfirmationOf(e))
  }

  function StepDrop(t: Tracker, e: Event): Output
    requires e.DropItem?
  {
    var s := if e.itemId == 0 then t else t.(itemIdByName := t.itemIdByName[e.itemName := e.itemId]);
    var key := WindowKey(e.corpseId, e.itemName);
    if key in t.seenWindow then Output(s, [])
    else Output(s.(seenWindow := t.seenWindow + {key}), [WindowRow(t, e)])
  }

  function Step(t: Tracker, e: Event): Output {
    match e
    case SetLooter(looter) => Output(t.(looter := looter), [])
    case SetZone(zone) => StepZone(t, zone)
    case Narration(_, _, _, _, _) => StepNarration(t, e)
    case Transaction(_, _, _, _, _, _, _) => StepTransaction(t, e)
    case DropItem(_, _, _, _, _, _) => StepDrop(t, e)
    case Flush => StepFlush(t)
    case Reset => Output(StepReset(t), [])
  }

  // ---- the stable sort -----------------------------------------------------

  /** Insert behind every row that is not later. */
  function InsertByTs(s: seq<LootRow>, row: LootRow): (r: seq<LootRow>)
    requires SortedByTs(s)
    ensures SortedByTs(r)
    ensures |r| == |s| + 1 && (r[|r| - 1] == row || (s != [] && r[|r| - 1] == s[|s| - 1]))
  {
    if s == [] || s[|s| - 1].ts <= row.ts then s + [row]
    else InsertByTs(s[..|s| - 1], row) + [s[|s| - 1]]
  }

  /** Rows in time order, rows of equal time in their given order. */
  function SortByTs(s: seq<LootRow>): (r: seq<LootRow>)
    ensures SortedByTs(r)
  {
    if s == [] then [] else InsertByTs(SortByTs(s[..|s| - 1]), s[|s| - 1])
  }

  predicate SortedByTs(s: seq<LootRow>) {
    forall i, j :: 0 <= i < j < |s| ==> s[i].ts <= s[j].ts
  }

  // ---- the tracker ---------------------------------------------------------

  class LootTracker {
    var zoneShort: string
    var zoneBase: string
    var instance: string
    var looter: string
    var messages: seq<LootRow>
    var confirmations: seq<Confirmation>
    var seenWindow: set<WindowKey>
    var itemIdByName: map<string, u32>
    var seenConfirmations: set<ConfirmationKey>
    var seenMessages: set<MessageKey>

    ghost function View(): Tracker
      reads this
    {
      Tracker(zoneShort, zoneBase, instance, looter, messages, confirmations, seenWindow,
              itemIdByName, seenConfirmations, seenMessages)
    }

    constructor ()
      ensures View() == EMPTY
    {
      zoneShort, zoneBase, instance, looter := "", "", "", "";
      messages, confirmations := [], [];
      seenWindow, itemIdByName, seenConfirmations, seenMessages := {}, map[], {}, {};
    }

    method ResetAll()
      modifies this
      ensures View() == StepReset(old(View()))
    {
      zoneShort, zoneBase, instance := "", "", "";
      messages, confirmations := [], [];
      seenWindow, itemIdByName, seenConfirmations, seenMessages := {}, map[], {}, {};
    }

    method SetLooterName(name: string)
      modifies this`looter
      ensures View() == Step(old(View()), SetLooter(name)).tracker
    {
      looter := name;
    }

    method FlushPending() returns (rows: seq<LootRow>)
      modifies this`messages, this`confirmations
      ensures Output(View(), rows) == Step(old(View()), Flush)
    {
      rows := messages;
      messages := [];
      var drained := confirmations;
      confirmations := [];
      ghost var t := old(View());
      for i := 0 to |drained|
        invariant rows == t.messages + OrphanRows(t, drained[..i])
      {
        var c := drained[i];
        assert drained[..i + 1][..i] == drained[..i];
        var quantity := if c.quantity == 0 then 1 else c.quantity;
        rows := rows + [LootRow(c.ts, Message, "", c.itemId, 0, quantity, "", "", c.corpseId,
                                zoneShort, zoneBase, instance, c.coinCopper != 0, c.coinCopper,
                                if c.coinCopper == 0 then "" else "sold", looter, c.sequence, false)];
      }
      assert drained[..|drained|] == drained;
      rows := SortByTs(rows);
    }

    method EnterNamed(zone: string, z: LootText.ZoneName)
      modifies this`zoneShort, this`zoneBase, this`instance
      ensures View() == old(View()).(zoneShort := zone, zoneBase := z.base, instance := z.instance)
    {
      zoneShort, zoneBase, instance := zone, z.base, z.instance;
    }

    method EnterZone(zone: string) returns (rows: seq<LootRow>)
      modifies this
      ensures Output(View(), rows) == Step(old(View()), SetZone(zone))
    {
      rows := FlushPending();
      assert Output(View(), rows) == StepFlush(old(View()));
      if zone != "" {
        if zoneShort != zone {
          ResetAll();
        }
        EnterNamed(zone, LootText.SplitZoneInstance(zone));
      }
    }

    method OnLootMessage(color: u32, text: string, itemId: u32, itemName: string, ts: int)
      returns (rows: seq<LootRow>)
      modifies this`messages, this`confirmations, this`seenMessages
      ensures Output(View(), rows) == Step(old(View()), Narration(color, text, itemId, itemName, ts))
    {
      hide LootText.ParseLootLine, LootText.NormalizeMob;
      if color != LOOT_COLOR {
        return [];
      }
      var parsed := LootText.ParseLootLine(text);
      if parsed.None? {
        return [];
      }
      var p := parsed.value;
      var name := if itemName == "" then p.item else itemName;
      var id := itemId;
      if id == 0 && name in itemIdByName {
        id := itemIdByName[name];
      }
      var key := MessageKey(ts, itemId, itemName + [1 as char] + text);
      if key in seenMessages {
        return [];
      }
      seenMessages := seenMessages + {key};
      var row := LootRow(ts, Message, name, id, 0, p.qty, p.mob, LootText.NormalizeMob(p.mob), 0,
                         zoneShort, zoneBase, instance, p.sold, p.moneyCopper, p.disposition, looter, 0, false);
      var found := Match(ConfirmationIds(confirmations), row.itemId);
      if found.Some? {
        var confirmation := confirmations[found.value];
        confirmations := RemoveAt(confirmations, found.value);
        rows := [ApplyConfirmation(row, confirmation)];
      } else {
        messages := messages + [row];
        rows := [];
      }
    }

    method OnLootTransaction(corpseId: u32, itemId: u32, quantity: u32, coinCopper: u32,
                             fromCorpse: bool, sequence: u32, ts: int)
      returns (rows: seq<LootRow>)
      modifies this`messages, this`confirmations, this`seenConfirmations
      ensures Output(View(), rows)
              == Step(old(View()), Transaction(corpseId, itemId, quantity, coinCopper, fromCorpse, sequence, ts))
    {
      var key := if sequence != 0 then BySequence(sequence)
                 else ByFields(corpseId, itemId, quantity, coinCopper, fromCorpse, ts);
      if key in seenConfirmations {
        return [];
      }
      seenConfirmations := seenConfirmations + {key};
      if fromCorpse {
        if coinCopper == 0 {
          return [];
        }
        return [LootRow(ts, Coin, "Coin", 0, 0, 1, "", "", corpseId, zoneShort, zoneBase, instance,
                        false, coinCopper, "corpse_coin", looter, sequence, true)];
      }
      var confirmation := Confirmation(corpseId, itemId, quantity, coinCopper, sequence, ts);
      var found := Match(MessageIds(messages), itemId);
      if found.None? {
        confirmations := confirmations + [confirmation];
        return [];
      }
      var row := messages[found.value];
      messages := RemoveAt(messages, found.value);
      rows := [ApplyConfirmation(row, confirmation)];
    }

    method OnLootDropItem(corpseId: u32, corpseName: string, itemName: string, icon: u32, itemId: u32, ts: int)
      returns (rows: seq<LootRow>)
      modifies this`itemIdByName, this`seenWindow
      ensures Output(View(), rows)
              == Step(old(View()), DropItem(corpseId, corpseName, itemName, icon, itemId, ts))
    {
      if itemId != 0 {
        itemIdByName := itemIdByName[itemName := itemId];
      }
      var key := WindowKey(corpseId, itemName);
      if key in seenWindow {
        return [];
      }
      seenWindow := seenWindow + {key};
      rows := [LootRow(ts, Window, itemName, itemId, icon, 1, corpseName, LootText.NormalizeMob(corpseName),
                       corpseId, zoneShort, zoneBase, instance, false, 0, "", looter, 0, true)];
    }
  }
}
