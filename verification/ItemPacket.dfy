/** The item dump scanned by serial signature (`seq-backend-eql/src/item_packet.rs`). Text is kept as
    its bytes. */
module ItemPacket {
  import opened Prelude

  const FIELD_ITEM_ID := 8
  const FIELD_SLOT_MASK := 20
  const FIELD_ICON := 28
  const SLOT_STRIDE := 4
  const SLOT_VALUE := 2
  const SLOT_RESISTS := 8
  const RESIST_COUNT := 5
  const SLOT_STATS := 14
  const STAT_COUNT := 7
  const SLOT_HP := 21
  const SLOT_MANA := 22
  const SLOT_ENDURANCE := 23
  const SLOT_AC := 24
  const SLOT_MAX := 24
  const NAME_OFFSET := 123
  const SERIAL_LEN := 16
  const RECORD_CONTAINER := 21
  const RECORD_LOCATION := 25
  const SERIAL_TAG: seq<byte> := [0x69, 0x47, 0x53]

  datatype ItemTemplate = ItemTemplate(
    serial: seq<byte>, name: seq<byte>, loreName: seq<byte>, itemId: u32, icon: u32, slotMask: u32,
    containerId: u32, containerSlot: u16, parentSlot: u16, stats: seq<i16>, resists: seq<i16>,
    hp: i16, mana: i16, endurance: i16, ac: i16)

  datatype ItemSet = ItemSet(header: u32, items: seq<ItemTemplate>)

  datatype ItemPacketError = Short

  // ---- reads ---------------------------------------------------------------

  predicate Alphanumeric(c: byte) {
    0x30 <= c <= 0x39 || 0x41 <= c <= 0x5A || 0x61 <= c <= 0x7A
  }

  predicate IsSerialAt(b: seq<byte>, o: nat) {
    && o + SERIAL_LEN + 1 <= |b|
    && b[o..o + 3] == SERIAL_TAG
    && (forall k :: o <= k < o + SERIAL_LEN ==> Alphanumeric(b[k]))
    && b[o + SERIAL_LEN] == 0
  }

  datatype Text = Text(bytes: seq<byte>, next: nat)

  /** The NUL-terminated text at `o`, and where the next thing starts. */
  function CstrAt(b: seq<byte>, o: nat): (r: Option<Text>)
    ensures r.Some? ==> o + |r.value.bytes| + 1 == r.value.next <= |b|
                        && 0 !in r.value.bytes && b[o..r.value.next] == r.value.bytes + [0]
  {
    if o > |b| then None else
    match IndexFrom(b, 0, o)
    case None => None
    case Some(end) =>
      assert b[o..end + 1] == b[o..end] + [b[end]];
      Some(Text(b[o..end], end + 1))
  }

  function LongAt(b: seq<byte>, o: nat): Option<u32> {
    if o + 4 <= |b| then Some(U32At(b, o)) else None
  }

  function ShortAt(b: seq<byte>, o: nat): Option<i16> {
    if o + 2 <= |b| then Some(AsI16(U16At(b, o))) else None
  }

  function OrElse<T>(o: Option<T>, default: T): T {
    match o case Some(v) => v case None => default
  }

  function SlotOffset(tail: nat, j: nat): nat {
    tail + j * SLOT_STRIDE + SLOT_VALUE
  }

  /** The slots `from..from + n` as they are read. */
  function Slots(b: seq<byte>, tail: nat, from: nat, n: nat): (r: seq<i16>)
    ensures |r| == n && forall k :: 0 <= k < n ==> r[k] == OrElse(ShortAt(b, SlotOffset(tail, from + k)), 0)
  {
    seq(n, k requires 0 <= k < n => OrElse(ShortAt(b, SlotOffset(tail, from + k)), 0))
  }

  // ---- one record ----------------------------------------------------------

  /** The record that starts with the serial at `lo`, or nothing when it is a mere reference or is
      clipped. Every default is written where the original writes it. */
  function RecordAt(b: seq<byte>, lo: nat): Option<ItemTemplate> {
    var serial := CstrAt(b, lo);
    if serial.None? then None else
    var name := CstrAt(b, lo + NAME_OFFSET);
    if name.None? then None else
    var lore := CstrAt(b, name.value.next);
    if lore.None? then None else
    if name.value.bytes == [] then None else
    var tail := lore.value.next;
    var containerId := OrElse(LongAt(b, lo + RECORD_CONTAINER), 0);
    var location: int := OrElse(LongAt(b, lo + RECORD_LOCATION), 0xFFFF_FFFF);
    var itemId := LongAt(b, tail + FIELD_ITEM_ID);
    var slotMask := LongAt(b, tail + FIELD_SLOT_MASK);
    var icon := LongAt(b, tail + FIELD_ICON);
    if itemId.None? || slotMask.None? || icon.None? then None else
    if SlotOffset(tail, SLOT_MAX) + 2 > |b| then None else
    Some(ItemTemplate(
      serial.value.bytes, name.value.bytes, lore.value.bytes, itemId.value, icon.value, slotMask.value,
      containerId, location % 0x1_0000, location / 0x1_0000,
      Slots(b, tail, SLOT_STATS, STAT_COUNT), Slots(b, tail, SLOT_RESISTS, RESIST_COUNT),
      OrElse(ShortAt(b, SlotOffset(tail, SLOT_HP)), 0), OrElse(ShortAt(b, SlotOffset(tail, SLOT_MANA)), 0),
      OrElse(ShortAt(b, SlotOffset(tail, SLOT_ENDURANCE)), 0), OrElse(ShortAt(b, SlotOffset(tail, SLOT_AC)), 0)))
  }

  // ---- the scan ------------------------------------------------------------

  /** The serial positions before `n`, in order. */
  function StartsBefore(b: seq<byte>, n: nat): seq<nat> {
    if n == 0 then [] else StartsBefore(b, n - 1) + if IsSerialAt(b, n - 1) then [n - 1] else []
  }

  function Starts(b: seq<byte>): seq<nat> {
    StartsBefore(b, |b|)
  }

  function ItemsAt(b: seq<byte>, starts: seq<nat>): seq<ItemTemplate> {
    if starts == [] then []
    else
      var last := RecordAt(b, starts[|starts| - 1]);
      ItemsAt(b, starts[..|starts| - 1]) + match last case Some(item) => [item] case None => []
  }

  function Parse(b: seq<byte>): Result<ItemSet, ItemPacketError> {
    if |b| < 4 then Err(Short) else Ok(ItemSet(U32At(b, 0), ItemsAt(b, Starts(b))))
  }

  method ParseItemPacket(b: seq<byte>) returns (r: Result<ItemSet, ItemPacketError>)
    ensures r == Parse(b)
  {
    if |b| < 4 {
      return Err(Short);
    }
    var header := U32At(b, 0);
    var starts := [];
    for o := 0 to |b|
      invariant starts == StartsBefore(b, o)
    {
      if IsSerialAt(b, o) {
        starts := starts + [o];
      }
    }
    var items := [];
    hide RecordAt;
    for i := 0 to |starts|
      invariant items == ItemsAt(b, starts[..i])
    {
      assert starts[..i + 1][..i] == starts[..i];
      var item := RecordAt(b, starts[i]);
      if item.Some? {
        items := items + [item.value];
      }
    }
    assert starts[..|starts|] == starts;
    r := Ok(ItemSet(header, items));
  }

  // ---- laws ----------------------------------------------------------------

  /** Two serials cannot overlap: the second would have a letter where the first has its NUL. */
  lemma SerialsApart(b: seq<byte>, a: nat, c: nat)
    requires IsSerialAt(b, a) && IsSerialAt(b, c) && a < c
    ensures a + SERIAL_LEN + 1 <= c
  {
    assert !Alphanumeric(b[a + SERIAL_LEN]);
  }

  /** `s` lists every serial position before `n` once, in wire order, and they are at least 17 apart. */
  ghost predicate AreStarts(b: seq<byte>, s: seq<nat>, n: nat) {
    && (forall o: nat :: o in s <==> o < n && IsSerialAt(b, o))
    && (forall i :: 0 <= i < |s| ==> s[i] < n && IsSerialAt(b, s[i]))
    && (forall i, j :: 0 <= i < j < |s| ==> s[i] + SERIAL_LEN + 1 <= s[j])
  }

  lemma NextStart(b: seq<byte>, s: seq<nat>, n: nat)
    requires AreStarts(b, s, n) && IsSerialAt(b, n)
    ensures AreStarts(b, s + [n], n + 1)
  {
    forall i | 0 <= i < |s| ensures s[i] + SERIAL_LEN + 1 <= n {
      SerialsApart(b, s[i], n);
    }
    hide IsSerialAt;
    forall o: nat ensures o in s + [n] <==> o < n + 1 && IsSerialAt(b, o) {
      assert o in s + [n] <==> o in s || o == n;
    }
  }

  lemma NoNextStart(b: seq<byte>, s: seq<nat>, n: nat)
    requires AreStarts(b, s, n) && !IsSerialAt(b, n)
    ensures AreStarts(b, s, n + 1)
  {
    hide IsSerialAt;
  }

  lemma {:induction false} NoStarts(b: seq<byte>)
    ensures AreStarts(b, StartsBefore(b, 0), 0)
  {
    hide IsSerialAt;
  }

  lemma StartsStep(b: seq<byte>, n: nat)
    ensures StartsBefore(b, n + 1) == if IsSerialAt(b, n) then StartsBefore(b, n) + [n] else StartsBefore(b, n)
  {
    hide IsSerialAt;
  }

  /** The scan finds exactly these. */
  lemma {:induction false} StartsComplete(b: seq<byte>, n: nat)
    ensures AreStarts(b, StartsBefore(b, n), n)
  {
    hide *;
    if n == 0 {
      NoStarts(b);
    } else {
      StartsComplete(b, n - 1);
      StartsStep(b, n - 1);
      if IsSerialAt(b, n - 1) {
        NextStart(b, StartsBefore(b, n - 1), n - 1);
      } else {
        NoNextStart(b, StartsBefore(b, n - 1), n - 1);
      }
    }
  }

  lemma {:induction false} SpacedCount(s: seq<nat>, n: nat, gap: nat)
    requires gap > 0 && (forall i, j :: 0 <= i < j < |s| ==> s[i] + gap <= s[j])
    requires forall i :: 0 <= i < |s| ==> s[i] + gap <= n
    ensures |s| * gap <= n
  {
    if s == [] {
    } else {
      var k := |s| - 1;
      SpacedCount(s[..k], s[k], gap);
      assert |s| * gap == k * gap + gap;
    }
  }

  /** So a payload holds at most one item per 17 bytes. */
  lemma {:induction false} FewItems(b: seq<byte>)
    ensures |ItemsAt(b, Starts(b))| * (SERIAL_LEN + 1) <= |b|
  {
    hide StartsBefore, ItemsAt;
    StartsComplete(b, |b|);
    SpacedCount(Starts(b), |b|, SERIAL_LEN + 1);
    ItemsFewer(b, Starts(b));
  }

  lemma {:induction false} ItemsFewer(b: seq<byte>, starts: seq<nat>)
    ensures |ItemsAt(b, starts)| <= |starts|
  {
    if starts == [] {
    } else {
      ItemsFewer(b, starts[..|starts| - 1]);
    }
  }

  /** How many serial positions before `n` emit an item. */
  ghost function EmittingBefore(b: seq<byte>, n: nat): nat {
    if n == 0 then 0
    else EmittingBefore(b, n - 1) + if IsSerialAt(b, n - 1) && RecordAt(b, n - 1).Some? then 1 else 0
  }

  lemma {:induction false} ItemsBefore(b: seq<byte>, n: nat, o: nat)
    ensures |ItemsAt(b, StartsBefore(b, n))| == EmittingBefore(b, n)
    ensures o < n && IsSerialAt(b, o) && RecordAt(b, o).Some? ==>
              EmittingBefore(b, o) < EmittingBefore(b, n)
              && ItemsAt(b, StartsBefore(b, n))[EmittingBefore(b, o)] == RecordAt(b, o).value
  {
    hide *;
    EmittingStep(b, n);
    if n == 0 {
    } else {
      ItemsBefore(b, n - 1, o);
      StartsStep(b, n - 1);
      ItemsPush(b, StartsBefore(b, n - 1), n - 1);
    }
  }

  lemma {:induction false} EmittingStep(b: seq<byte>, n: nat)
    ensures n == 0 ==> EmittingBefore(b, n) == |ItemsAt(b, StartsBefore(b, n))| == 0
    ensures n > 0 ==> EmittingBefore(b, n) == EmittingBefore(b, n - 1)
                                               + if IsSerialAt(b, n - 1) && RecordAt(b, n - 1).Some? then 1 else 0
  {
    hide IsSerialAt, RecordAt;
  }

  lemma {:induction false} ItemsPush(b: seq<byte>, starts: seq<nat>, o: nat)
    ensures ItemsAt(b, starts + [o])
            == ItemsAt(b, starts) + if RecordAt(b, o).Some? then [RecordAt(b, o).value] else []
  {
    hide RecordAt;
    assert (starts + [o])[..|starts|] == starts;
  }

  /** Nothing emitted is lost, moved or repeated: there are as many items as positions that emit one, and each
      stands at the index that counts the emitting positions before its own. */
  lemma {:induction false} EveryRecordListed(b: seq<byte>, o: nat)
    ensures |ItemsAt(b, Starts(b))| == EmittingBefore(b, |b|)
    ensures IsSerialAt(b, o) && RecordAt(b, o).Some? ==>
              EmittingBefore(b, o) < EmittingBefore(b, |b|)
              && ItemsAt(b, Starts(b))[EmittingBefore(b, o)] == RecordAt(b, o).value
  {
    ItemsBefore(b, |b|, o);
    hide RecordAt;
  }

  /** A serial position emits an item exactly when a non-empty name and a lore text are terminated
      where they should be and the whole stat block behind them is there; the separate tests of the
      three id fields never decide. */
  lemma EmittedWhen(b: seq<byte>, lo: nat)
    requires IsSerialAt(b, lo)
    ensures
      var name := CstrAt(b, lo + NAME_OFFSET);
      RecordAt(b, lo).Some?
      <==> name.Some? && name.value.bytes != []
           && CstrAt(b, name.value.next).Some?
           && SlotOffset(CstrAt(b, name.value.next).value.next, SLOT_MAX) + 2 <= |b|
  {
    SerialText(b, lo);
  }

  /** An emitted item is built from bytes that are there, at fixed offsets from its serial and from the
      end of its texts, and no default stands in for a missing field. */
  lemma NoDefaults(b: seq<byte>, lo: nat)
    requires IsSerialAt(b, lo) && RecordAt(b, lo).Some?
    ensures
      var item := RecordAt(b, lo).value;
      var tail := lo + 125 + |item.name| + |item.loreName|;
      && item.serial == b[lo..lo + 16] && item.name != []
      && tail + 100 <= |b|
      && b[lo + 123..tail] == item.name + [0] + item.loreName + [0] && 0 !in item.name && 0 !in item.loreName
      && item.containerId == U32At(b, lo + 21)
      && item.containerSlot == U16At(b, lo + 25) && item.parentSlot == U16At(b, lo + 27)
      && item.itemId == U32At(b, tail + 8) && item.slotMask == U32At(b, tail + 20) && item.icon == U32At(b, tail + 28)
      && |item.resists| == 5 && |item.stats| == 7
      && (forall k :: 0 <= k < 5 ==> item.resists[k] == AsI16(U16At(b, tail + 4 * (8 + k) + 2)))
      && (forall k :: 0 <= k < 7 ==> item.stats[k] == AsI16(U16At(b, tail + 4 * (14 + k) + 2)))
      && item.hp == AsI16(U16At(b, tail + 86)) && item.mana == AsI16(U16At(b, tail + 90))
      && item.endurance == AsI16(U16At(b, tail + 94)) && item.ac == AsI16(U16At(b, tail + 98))
  {
    hide *;
    var serial, name, lore := RecordTexts(b, lo);
    SerialText(b, lo);
    TwoTexts(b, lo + 123, name, lore);
    assert lore.next == lo + 125 + |name.bytes| + |lore.bytes|;
    RecordFields(b, lo, serial, name, lore);
    RecordSlots(b, lo, serial, name, lore);
  }

  lemma RecordTexts(b: seq<byte>, lo: nat) returns (serial: Text, name: Text, lore: Text)
    requires RecordAt(b, lo).Some?
    ensures CstrAt(b, lo) == Some(serial) && CstrAt(b, lo + 123) == Some(name)
    ensures CstrAt(b, name.next) == Some(lore)
    ensures lore.next + 100 <= |b| && name.bytes != []
  {
    hide CstrAt, U32At, U16At, AsI16;
    serial, name := CstrAt(b, lo).value, CstrAt(b, lo + NAME_OFFSET).value;
    lore := CstrAt(b, name.next).value;
  }

  lemma RecordFields(b: seq<byte>, lo: nat, serial: Text, name: Text, lore: Text)
    requires CstrAt(b, lo) == Some(serial) && CstrAt(b, lo + 123) == Some(name)
    requires CstrAt(b, name.next) == Some(lore) && RecordAt(b, lo).Some? && lo + 29 <= |b|
    ensures var item, tail := RecordAt(b, lo).value, lore.next;
            && item.serial == serial.bytes && item.name == name.bytes && item.loreName == lore.bytes
            && tail + 100 <= |b|
            && item.containerId == U32At(b, lo + 21)
            && item.containerSlot == U16At(b, lo + 25) && item.parentSlot == U16At(b, lo + 27)
            && item.itemId == U32At(b, tail + 8) && item.slotMask == U32At(b, tail + 20)
            && item.icon == U32At(b, tail + 28)
  {
    SplitLong(b, lo + RECORD_LOCATION);
    hide CstrAt, U32At, U16At, AsI16, Slots, ShortAt;
  }

  lemma RecordSlots(b: seq<byte>, lo: nat, serial: Text, name: Text, lore: Text)
    requires CstrAt(b, lo) == Some(serial) && CstrAt(b, lo + 123) == Some(name)
    requires CstrAt(b, name.next) == Some(lore) && RecordAt(b, lo).Some?
    ensures lore.next + 100 <= |b|
    ensures var item, tail := RecordAt(b, lo).value, lore.next;
            && |item.resists| == 5 && |item.stats| == 7
            && (forall k :: 0 <= k < 5 ==> item.resists[k] == AsI16(U16At(b, tail + 4 * (8 + k) + 2)))
            && (forall k :: 0 <= k < 7 ==> item.stats[k] == AsI16(U16At(b, tail + 4 * (14 + k) + 2)))
            && item.hp == AsI16(U16At(b, tail + 86)) && item.mana == AsI16(U16At(b, tail + 90))
            && item.endurance == AsI16(U16At(b, tail + 94)) && item.ac == AsI16(U16At(b, tail + 98))
  {
    hide CstrAt, U32At, U16At, AsI16;
  }

  lemma TwoTexts(b: seq<byte>, o: nat, first: Text, second: Text)
    requires CstrAt(b, o) == Some(first) && CstrAt(b, first.next) == Some(second)
    ensures second.next == o + |first.bytes| + |second.bytes| + 2 <= |b|
    ensures b[o..second.next] == first.bytes + [0] + second.bytes + [0]
  {
    hide CstrAt;
    assert b[o..second.next] == b[o..first.next] + b[first.next..second.next];
  }

  lemma SplitLong(b: seq<byte>, o: nat)
    ensures o + 4 <= |b| ==> U32At(b, o) % 0x1_0000 == U16At(b, o) && U32At(b, o) / 0x1_0000 == U16At(b, o + 2)
  {
    if o + 4 <= |b| {
      var lo: int, hi: int := U16At(b, o), U16At(b, o + 2);
      assert U32At(b, o) == lo + 0x1_0000 * hi;
    }
  }

  lemma SerialText(b: seq<byte>, lo: nat)
    requires IsSerialAt(b, lo)
    ensures CstrAt(b, lo) == Some(Text(b[lo..lo + 16], lo + 17))
  {
    IndexFromIs(b, 0, lo, lo + SERIAL_LEN);
  }

  // ---- records written and read back ---------------------------------------

  /** "iGS" and thirteen more letters or digits. */
  ghost predicate Serial(s: seq<byte>) {
    && |s| == 16 && s[0] == 0x69 && s[1] == 0x47 && s[2] == 0x53
    && forall k :: 0 <= k < 16 ==> 0x30 <= s[k] <= 0x39 || 0x41 <= s[k] <= 0x5A || 0x61 <= s[k] <= 0x7A
  }

  /** A serial with its NUL lies in `x` at `o`. */
  ghost predicate SerialIn(x: seq<byte>, o: nat) {
    o + 17 <= |x| && Serial(x[o..o + 16]) && x[o + 16] == 0
  }

  /** A bare reference, which has a NUL where a record has its name, or a full record: 106 bytes behind the
      serial, two texts, and the field block with whatever follows it. */
  datatype Piece =
    | Reference(serial: seq<byte>, gap: seq<byte>)
    | Full(serial: seq<byte>, block: seq<byte>, name: seq<byte>, lore: seq<byte>, tail: seq<byte>)
  {
    function Bytes(): seq<byte> {
      match this
      case Reference(_, gap) => serial + ([0] + gap)
      case Full(_, block, name, lore, tail) => serial + ([0] + (block + (name + ([0] + (lore + ([0] + tail))))))
    }

    /** No second serial lies inside. */
    ghost predicate Ok() {
      && Serial(serial) && (forall o :: 0 < o ==> !SerialIn(Bytes(), o))
      && match this
         case Reference(_, gap) => |gap| >= 107 && gap[106] == 0
         case Full(_, block, name, lore, tail) =>
           |block| == 106 && name != [] && 0 !in name && 0 !in lore && |tail| >= 100
    }
  }

  /** The item tells what the record says. */
  ghost predicate Shows(item: ItemTemplate, r: Piece) {
    FieldsMatch(item, r) && SlotsMatch(item, r)
  }

  /** The upper half of the `j`-th double word, as a signed number. */
  function SlotAt(tail: seq<byte>, j: nat): int
    requires 4 * j + 4 <= |tail|
  {
    var v: int := U16At(tail, 4 * j + 2);
    if v < 0x8000 then v else v - 0x1_0000
  }

  ghost predicate FieldsMatch(item: ItemTemplate, r: Piece) {
    && r.Full? && |r.block| == 106 && |r.tail| >= 100
    && item.serial == r.serial && item.name == r.name && item.loreName == r.lore
    && item.containerId == U32At(r.block, 4)
    && item.containerSlot == U16At(r.block, 8) && item.parentSlot == U16At(r.block, 10)
    && item.itemId == U32At(r.tail, 8) && item.slotMask == U32At(r.tail, 20) && item.icon == U32At(r.tail, 28)
  }

  ghost predicate SlotsMatch(item: ItemTemplate, r: Piece) {
    && r.Full? && |r.tail| >= 100 && |item.resists| == 5 && |item.stats| == 7
    && (forall k :: 0 <= k < 5 ==> item.resists[k] == SlotAt(r.tail, 8 + k))
    && (forall k :: 0 <= k < 7 ==> item.stats[k] == SlotAt(r.tail, 14 + k))
    && item.hp == SlotAt(r.tail, 21) && item.mana == SlotAt(r.tail, 22)
    && item.endurance == SlotAt(r.tail, 23) && item.ac == SlotAt(r.tail, 24)
  }

  ghost predicate AllOk(ps: seq<Piece>) {
    forall i :: 0 <= i < |ps| ==> ps[i].Ok()
  }

  function AllBytes(ps: seq<Piece>): seq<byte> {
    if ps == [] then [] else AllBytes(ps[..|ps| - 1]) + ps[|ps| - 1].Bytes()
  }

  function Fulls(ps: seq<Piece>): seq<Piece> {
    if ps == [] then []
    else Fulls(ps[..|ps| - 1]) + if ps[|ps| - 1].Full? then [ps[|ps| - 1]] else []
  }

  ghost predicate ShowsAll(items: seq<ItemTemplate>, rs: seq<Piece>) {
    |items| == |rs| && forall i :: 0 <= i < |rs| ==> Shows(items[i], rs[i])
  }

  lemma SerialIs(b: seq<byte>, o: nat)
    ensures IsSerialAt(b, o) <==> SerialIn(b, o)
  {
    if o + 17 <= |b| {
      var s := b[o..o + 16];
      assert b[o..o + 3] == s[..3];
      assert forall k :: 0 <= k < 16 ==> s[k] == b[o + k];
      if Serial(s) {
        assert s[..3] == SERIAL_TAG;
        assert forall k :: o <= k < o + 16 ==> Alphanumeric(b[k]) by {
          forall k | o <= k < o + 16 ensures Alphanumeric(b[k]) {
            assert b[k] == s[k - o];
          }
        }
      }
      if IsSerialAt(b, o) {
        assert s[0] == s[..3][0] && s[1] == s[..3][1] && s[2] == s[..3][2];
      }
    }
  }

  lemma PieceStarts(p: Piece)
    requires p.Ok()
    ensures |p.Bytes()| >= 124 && p.Bytes()[..16] == p.serial && Serial(p.serial) && SerialIn(p.Bytes(), 0)
    ensures forall o :: 0 < o ==> !SerialIn(p.Bytes(), o)
  {
    var x := p.Bytes();
    assert x[..16] == p.serial && x[0..16] == p.serial && x[16] == 0;
    hide Serial, SerialIn;
  }

  lemma SerialShifts(b: seq<byte>, at: nat, x: seq<byte>, o: nat)
    requires Lies(b, at, x) && o + 17 <= |x|
    ensures SerialIn(b, at + o) <==> SerialIn(x, o)
  {
    LiesSplit(b, at, x[..o], x[o..o + 16] + x[o + 16..]);
    LiesSplit(b, at + o, x[o..o + 16], x[o + 16..]);
    assert x == x[..o] + (x[o..o + 16] + x[o + 16..]);
    hide Serial;
    assert b[at + o + 16] == b[at..at + |x|][o + 16];
  }

  /** A serial that starts in one piece cannot reach into the next, whose first bytes are letters. */
  lemma NoSerialAcross(b: seq<byte>, at: nat, s: seq<byte>, o: nat)
    requires Lies(b, at, s) && Serial(s) && o < at <= o + 16
    ensures !SerialIn(b, o)
  {
    if o + 17 <= |b| {
      assert b[o + 16] == b[at..at + 16][o + 16 - at] == s[o + 16 - at];
    }
  }

  /** In the bytes of one piece, and up to the next, only its own serial is found. */
  lemma OnlyStart(b: seq<byte>, at: nat, p: Piece, o: nat)
    requires p.Ok() && Lies(b, at, p.Bytes()) && at <= o < at + |p.Bytes()|
    requires at + |p.Bytes()| == |b| || exists s :: Serial(s) && Lies(b, at + |p.Bytes()|, s)
    ensures IsSerialAt(b, o) <==> o == at
  {
    PieceStarts(p);
    SerialIs(b, o);
    hide IsSerialAt, Lies, SerialIn;
    var x := p.Bytes();
    if o + 17 <= at + |x| {
      SerialShifts(b, at, x, o - at);
    } else if at + |x| == |b| {
      ShortOfSerial(b, o);
    } else {
      var s :| Serial(s) && Lies(b, at + |x|, s);
      NoSerialAcross(b, at + |x|, s, o);
    }
  }

  lemma ShortOfSerial(b: seq<byte>, o: nat)
    requires o + 17 > |b|
    ensures !SerialIn(b, o)
  {
  }

  lemma CstrIs(b: seq<byte>, o: nat, x: seq<byte>, rest: seq<byte>)
    requires Lies(b, o, x + ([0] + rest)) && 0 !in x
    ensures CstrAt(b, o) == Some(Text(x, o + |x| + 1)) && Lies(b, o + |x| + 1, rest)
  {
    LiesSplit(b, o, x, [0] + rest);
    LiesSplit(b, o + |x|, [0], rest);
    assert b[o + |x|] == b[o + |x|..o + |x| + 1][0];
    IndexFromIs(b, 0, o, o + |x|);
  }

  lemma LongInside(b: seq<byte>, p: nat, x: seq<byte>, i: nat)
    requires Lies(b, p, x) && i + 4 <= |x|
    ensures U32At(b, p + i) == U32At(x, i)
  {
    var y := b[p..p + |x|];
    assert y[i] == b[p + i] && y[i + 1] == b[p + i + 1] && y[i + 2] == b[p + i + 2] && y[i + 3] == b[p + i + 3];
  }

  lemma ShortInside(b: seq<byte>, p: nat, x: seq<byte>, i: nat)
    requires Lies(b, p, x) && i + 2 <= |x|
    ensures U16At(b, p + i) == U16At(x, i)
  {
    var y := b[p..p + |x|];
    assert y[i] == b[p + i] && y[i + 1] == b[p + i + 1];
  }

  lemma ReferenceEmitsNothing(b: seq<byte>, at: nat, p: Piece)
    requires p.Reference? && p.Ok() && Lies(b, at, p.Bytes())
    ensures RecordAt(b, at) == None
  {
    hide *;
    var gap := p.gap;
    ReferenceIs(p);
    LiesSplit(b, at, p.serial, [0] + gap);
    LiesSplit(b, at + 16, [0], gap);
    LiesSplit(b, at + 17, gap[..106], [0] + gap[107..]);
    assert gap == gap[..106] + ([0] + gap[107..]);
    assert [0] + gap[107..] == [] + ([0] + gap[107..]);
    CstrIs(b, at + 123, [], gap[107..]);
    NoNameNoRecord(b, at);
  }

  lemma ReferenceIs(p: Piece)
    requires p.Reference? && p.Ok()
    ensures p.Bytes() == p.serial + ([0] + p.gap) && |p.serial| == 16 && |p.gap| >= 107 && p.gap[106] == 0
  {
    hide SerialIn;
  }

  lemma NoNameNoRecord(b: seq<byte>, at: nat)
    requires CstrAt(b, at + 123) == Some(Text([], at + 124))
    ensures RecordAt(b, at) == None
  {
    hide CstrAt, LongAt, Slots;
  }

  /** The texts of a full record, its fixed block and its field block are where they should be. */
  ghost predicate LaidOut(b: seq<byte>, at: nat, p: Piece) {
    && p.Full? && |p.block| == 106 && |p.tail| >= 100 && p.name != []
    && var q := at + 125 + |p.name| + |p.lore|;
    && CstrAt(b, at) == Some(Text(p.serial, at + 17))
    && CstrAt(b, at + 123) == Some(Text(p.name, at + 124 + |p.name|))
    && CstrAt(b, at + 124 + |p.name|) == Some(Text(p.lore, q))
    && Lies(b, at + 17, p.block) && Lies(b, q, p.tail) && q + 100 <= |b|
  }

  lemma FullLies(b: seq<byte>, at: nat, p: Piece)
    requires p.Full? && p.Ok() && Lies(b, at, p.Bytes())
    ensures LaidOut(b, at, p)
  {
    hide *;
    FullIs(p);
    SerialHasNoNul(p.serial);
    var texts := p.name + ([0] + (p.lore + ([0] + p.tail)));
    CstrIs(b, at, p.serial, p.block + texts);
    LiesSplit(b, at + 17, p.block, texts);
    CstrIs(b, at + 123, p.name, p.lore + ([0] + p.tail));
    CstrIs(b, at + 124 + |p.name|, p.lore, p.tail);
    LiesInside(b, at + 125 + |p.name| + |p.lore|, p.tail);
    LaidOutIntro(b, at, p);
  }

  lemma FullIs(p: Piece)
    requires p.Full? && p.Ok()
    ensures p.Bytes() == p.serial + ([0] + (p.block + (p.name + ([0] + (p.lore + ([0] + p.tail))))))
    ensures Serial(p.serial) && |p.block| == 106 && |p.tail| >= 100 && p.name != [] && 0 !in p.name && 0 !in p.lore
  {
    hide Serial, SerialIn;
  }

  lemma LaidOutIntro(b: seq<byte>, at: nat, p: Piece)
    requires p.Full? && |p.block| == 106 && |p.tail| >= 100 && p.name != []
    requires CstrAt(b, at) == Some(Text(p.serial, at + 17))
    requires CstrAt(b, at + 123) == Some(Text(p.name, at + 124 + |p.name|))
    requires CstrAt(b, at + 124 + |p.name|) == Some(Text(p.lore, at + 125 + |p.name| + |p.lore|))
    requires Lies(b, at + 17, p.block) && Lies(b, at + 125 + |p.name| + |p.lore|, p.tail)
    requires at + 225 + |p.name| + |p.lore| <= |b|
    ensures LaidOut(b, at, p)
  {
    hide CstrAt, Lies;
  }

  lemma SerialHasNoNul(s: seq<byte>)
    requires Serial(s)
    ensures 0 !in s && |s| == 16
  {
  }

  lemma FullEmits(b: seq<byte>, at: nat, p: Piece)
    requires LaidOut(b, at, p) && IsSerialAt(b, at)
    ensures RecordAt(b, at).Some? && Shows(RecordAt(b, at).value, p)
  {
    hide *;
    LaidOutEmits(b, at, p);
    FieldsShown(b, at, p);
    SlotsShown(b, at, p);
    ShowsIs(RecordAt(b, at).value, p);
  }

  lemma ShowsIs(item: ItemTemplate, r: Piece)
    ensures Shows(item, r) <==> FieldsMatch(item, r) && SlotsMatch(item, r)
  {
  }

  lemma LaidOutEmits(b: seq<byte>, at: nat, p: Piece)
    requires LaidOut(b, at, p) && IsSerialAt(b, at)
    ensures RecordAt(b, at).Some? && |p.block| == 106 && |p.tail| >= 100 && p.Full?
  {
    EmittedWhen(b, at);
    hide RecordAt, IsSerialAt, CstrAt, Lies;
  }

  lemma FieldsShown(b: seq<byte>, at: nat, p: Piece)
    requires LaidOut(b, at, p) && RecordAt(b, at).Some?
    ensures FieldsMatch(RecordAt(b, at).value, p)
  {
    hide RecordAt, CstrAt, U32At, U16At;
    var q := at + 125 + |p.name| + |p.lore|;
    RecordFields(b, at, Text(p.serial, at + 17), Text(p.name, at + 124 + |p.name|), Text(p.lore, q));
    LongInside(b, at + 17, p.block, 4);
    ShortInside(b, at + 17, p.block, 8);
    ShortInside(b, at + 17, p.block, 10);
    LongInside(b, q, p.tail, 8);
    LongInside(b, q, p.tail, 20);
    LongInside(b, q, p.tail, 28);
  }

  lemma SlotsShown(b: seq<byte>, at: nat, p: Piece)
    requires LaidOut(b, at, p) && RecordAt(b, at).Some?
    ensures SlotsMatch(RecordAt(b, at).value, p)
  {
    hide RecordAt, CstrAt, U16At;
    var q := at + 125 + |p.name| + |p.lore|;
    RecordSlots(b, at, Text(p.serial, at + 17), Text(p.name, at + 124 + |p.name|), Text(p.lore, q));
    forall j | 0 <= j < 25 ensures AsI16(U16At(b, q + 4 * j + 2)) == SlotAt(p.tail, j) {
      ShortInside(b, q, p.tail, 4 * j + 2);
    }
    hide AsI16, SlotAt, Lies;
  }

  // ---- the scan over written pieces ----------------------------------------

  lemma {:induction false} PieceLies(b: seq<byte>, at: nat, ps: seq<Piece>, k: nat)
    requires Lies(b, at, AllBytes(ps)) && k < |ps|
    ensures Lies(b, at + |AllBytes(ps[..k])|, ps[k].Bytes())
    ensures |AllBytes(ps[..k + 1])| == |AllBytes(ps[..k])| + |ps[k].Bytes()|
  {
    hide *;
    var n := |ps| - 1;
    assert ps[..n + 1] == ps;
    AllBytesPush(ps, n);
    AllBytesPush(ps, k);
    LiesSplit(b, at, AllBytes(ps[..n]), ps[n].Bytes());
    if k < n {
      PieceLies(b, at, ps[..n], k);
      assert ps[..n][..k] == ps[..k];
    }
  }

  lemma {:induction false} AllBytesPush(ps: seq<Piece>, k: nat)
    requires k < |ps|
    ensures AllBytes(ps[..k + 1]) == AllBytes(ps[..k]) + ps[k].Bytes()
  {
    assert ps[..k + 1][..k] == ps[..k];
  }

  lemma {:induction false} StartsGap(b: seq<byte>, m: nat, n: nat)
    requires m <= n && forall o :: m <= o < n ==> !IsSerialAt(b, o)
    ensures StartsBefore(b, n) == StartsBefore(b, m)
  {
    hide IsSerialAt;
    if m < n {
      StartsGap(b, m, n - 1);
    }
  }

  /** What scanning over one piece adds. */
  lemma OnePiece(b: seq<byte>, at: nat, p: Piece)
    requires p.Ok() && Lies(b, at, p.Bytes())
    requires at + |p.Bytes()| == |b| || exists s :: Serial(s) && Lies(b, at + |p.Bytes()|, s)
    ensures var items := ItemsAt(b, StartsBefore(b, at));
            var now := ItemsAt(b, StartsBefore(b, at + |p.Bytes()|));
            if p.Full? then |now| == |items| + 1 && now[..|items|] == items && Shows(now[|items|], p) else now == items
  {
    hide *;
    PieceStarts(p);
    var end := at + |p.Bytes()|;
    forall o | at <= o < end ensures IsSerialAt(b, o) <==> o == at {
      OnlyStart(b, at, p, o);
    }
    StartsStep(b, at);
    StartsGap(b, at + 1, end);
    ItemsPush(b, StartsBefore(b, at), at);
    if p.Full? {
      FullLies(b, at, p);
      FullEmits(b, at, p);
    } else {
      ReferenceEmitsNothing(b, at, p);
    }
  }

  ghost predicate Written(b: seq<byte>, header: u32, ps: seq<Piece>) {
    AllOk(ps) && b == U32Bytes(header) + AllBytes(ps)
  }

  lemma {:induction false} WrittenLies(b: seq<byte>, header: u32, ps: seq<Piece>)
    requires Written(b, header, ps)
    ensures Lies(b, 4, AllBytes(ps)) && |b| == 4 + |AllBytes(ps)| && Lies(b, 0, U32Bytes(header)) && AllOk(ps)
  {
    LiesWhole(b, b);
    LiesSplit(b, 0, U32Bytes(header), AllBytes(ps));
    hide U32Bytes, AllBytes;
  }

  /** After the first `k` pieces the items are those of the full records among them. */
  lemma {:induction false} PiecesScanned(b: seq<byte>, header: u32, ps: seq<Piece>, k: nat)
    requires Written(b, header, ps) && k <= |ps|
    ensures ShowsAll(ItemsAt(b, StartsBefore(b, 4 + |AllBytes(ps[..k])|)), Fulls(ps[..k]))
  {
    hide *;
    WrittenLies(b, header, ps);
    if k == 0 {
      assert ps[..0] == [];
      HeaderScanned(b, ps);
    } else {
      PiecesScanned(b, header, ps, k - 1);
      PieceLies(b, 4, ps, k - 1);
      AllOkAt(b, header, ps, k - 1);
      NextStarts(b, header, ps, k);
      OnePiece(b, 4 + |AllBytes(ps[..k - 1])|, ps[k - 1]);
      FullsPush(ps, k - 1);
      ShowsPush(ItemsAt(b, StartsBefore(b, 4 + |AllBytes(ps[..k - 1])|)),
                ItemsAt(b, StartsBefore(b, 4 + |AllBytes(ps[..k])|)), Fulls(ps[..k - 1]), ps[k - 1]);
    }
  }

  lemma {:induction false} AllOkAt(b: seq<byte>, header: u32, ps: seq<Piece>, k: nat)
    requires Written(b, header, ps) && k < |ps|
    ensures ps[k].Ok()
  {
  }

  /** Behind the `k`-th piece stands the next one's serial, or nothing. */
  lemma {:induction false} NextStarts(b: seq<byte>, header: u32, ps: seq<Piece>, k: nat)
    requires Written(b, header, ps) && k <= |ps|
    ensures var end := 4 + |AllBytes(ps[..k])|;
            end == |b| || exists s :: Serial(s) && Lies(b, end, s)
  {
    hide *;
    WrittenLies(b, header, ps);
    if k == |ps| {
      assert ps[..k] == ps;
    } else {
      var end := 4 + |AllBytes(ps[..k])|;
      PieceLies(b, 4, ps, k);
      AllOkAt(b, header, ps, k);
      PieceStarts(ps[k]);
      var x := ps[k].Bytes();
      assert x == x[..16] + x[16..];
      LiesSplit(b, end, x[..16], x[16..]);
    }
  }

  lemma {:induction false} FullsPush(ps: seq<Piece>, k: nat)
    requires k < |ps|
    ensures Fulls(ps[..k + 1]) == Fulls(ps[..k]) + if ps[k].Full? then [ps[k]] else []
  {
    assert ps[..k + 1][..k] == ps[..k];
  }

  lemma ShowsPush(items: seq<ItemTemplate>, now: seq<ItemTemplate>, rs: seq<Piece>, p: Piece)
    requires ShowsAll(items, rs)
    requires if p.Full? then |now| == |items| + 1 && now[..|items|] == items && Shows(now[|items|], p) else now == items
    ensures ShowsAll(now, rs + if p.Full? then [p] else [])
  {
    hide Shows;
    if p.Full? {
      forall i | 0 <= i < |rs| ensures Shows(now[i], rs[i]) {
        assert now[i] == now[..|items|][i];
      }
    }
  }

  /** No serial starts in the four header bytes. */
  lemma {:induction false} HeaderScanned(b: seq<byte>, ps: seq<Piece>)
    requires AllOk(ps) && Lies(b, 4, AllBytes(ps)) && |b| == 4 + |AllBytes(ps)|
    ensures AllBytes([]) == [] && Fulls([]) == [] && ShowsAll(ItemsAt(b, StartsBefore(b, 4)), [])
  {
    forall o | 0 <= o < 4 ensures !IsSerialAt(b, o) {
      SerialIs(b, o);
      if ps == [] {
        ShortOfSerial(b, o);
      } else {
        FirstLies(b, ps);
        NoSerialAcross(b, 4, ps[0].serial, o);
      }
    }
    StartsGap(b, 0, 4);
    hide IsSerialAt;
  }

  lemma {:induction false} FirstLies(b: seq<byte>, ps: seq<Piece>)
    requires AllOk(ps) && Lies(b, 4, AllBytes(ps)) && ps != []
    ensures Serial(ps[0].serial) && Lies(b, 4, ps[0].serial)
  {
    hide AllBytes;
    PieceLies(b, 4, ps, 0);
    PieceStarts(ps[0]);
    assert ps[..0] == [];
    NoBytes();
    var x := ps[0].Bytes();
    hide *;
    assert x == x[..16] + x[16..];
    LiesSplit(b, 4, x[..16], x[16..]);
  }

  lemma NoBytes()
    ensures AllBytes([]) == []
  {
  }

  /** A header, and bare references and full records in any order, parse to exactly the full records, each
      with all its fields. */
  lemma {:induction false} FullRecordsReadBack(header: u32, ps: seq<Piece>)
    requires AllOk(ps)
    ensures var r := Parse(U32Bytes(header) + AllBytes(ps));
            r.Ok? && r.value.header == header && ShowsAll(r.value.items, Fulls(ps))
  {
    hide *;
    var b := U32Bytes(header) + AllBytes(ps);
    WrittenIntro(b, header, ps);
    WrittenLies(b, header, ps);
    PiecesScanned(b, header, ps, |ps|);
    assert ps[..|ps|] == ps;
    LiesU32(b, 0, header);
    ParseIs(b);
  }

  lemma {:induction false} WrittenIntro(b: seq<byte>, header: u32, ps: seq<Piece>)
    requires AllOk(ps) && b == U32Bytes(header) + AllBytes(ps)
    ensures Written(b, header, ps)
  {
  }

  lemma {:induction false} ParseIs(b: seq<byte>)
    requires |b| >= 4
    ensures Parse(b) == Ok(ItemSet(U32At(b, 0), ItemsAt(b, StartsBefore(b, |b|))))
  {
    hide ItemsAt, StartsBefore, U32At;
  }
}
