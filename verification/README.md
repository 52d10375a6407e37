# Verified core of the EQ Legends decoder

A Dafny model of the parts of the Legends packet decoder whose correctness does not show from reading one function: the
two session trackers, the codecs whose fast form must agree with a simple meaning, and the transformations that must
preserve structure. `dafny verify dfyconfig.toml` checks all of it.

## The trackers

* **Loot** (`LootText`, `LootTracker`, `LootTrackerLaws`, `LootRows`, `LootPairing`). A loot event reaches the client twice, as a chat
  narration and as a confirmation, in either order and sometimes repeated. The tracker joins the two halves online,
  drops repeats, and flushes what never met its other half when the zone changes. `LootTracker.Step` says what each call
  does to the state as a value, and the class with the mutable fields is proved to do exactly that. The laws are about
  whole runs: nothing that could be joined waits on both sides; every accepted narration and every accepted coin is in
  exactly one place; every row tells, field by field, what its events said; during one stay in a zone no sequence number
  is in two rows, and an event is dropped exactly when it repeats one of the stay; when ids are known, the result is the
  per-item first-in-first-out pairing; and, known or not, how the two sides interleave matters exactly where two halves
  of one item meet while an unknown half waits and no half of that item does.
* **Self** (`SelfTracker`, `SelfTrackerLaws`). The player has two spawn ids, vitals may arrive before their id is known
  to be the player's, and a client that attaches in mid-session has to guess. The laws: what each event does to all six
  fields, the id invariants of every reachable state and where its ids came from, the held vitals as a fold over history, one guess per session, and a complete account of every
  provisional id that was ever reported.

## The codecs

`NpcMove` (the MSB-first bit reader and the packet it reads), `UcsChat` (chat records under a self-synchronizing XOR, found
by a backward walk), `BuffList` and `GuildRoster` (self-delimiting packets), `Profile` (the name-block scan and the section
walk), `ItemPacket` (the serial scan) and `PackedPosition` (19-bit coordinates). Each parser is a method with the
original's reads and early returns, proved equal to a function on the bytes; the theorems relate that function to a
serializer or to an independent meaning.

## The transformations

`Links` (item and spell links in chat text), `MaskRust` (the lexer behind the event-coverage audit) and `EventBatch` (an event
list flattened into typed vectors and references).

## How the model is made

Fixed-width integers are subset types of `int`, and every cast, wrap-around and saturation is written out; a mask of the
low n bits is a remainder by 2^n and a right shift a division by 2^n. Text is Dafny strings in the loot tracker and the
mask, and bytes elsewhere. An `Err` or `None` stands for the source's error returns. A `hide` statement only keeps
definitions out of a proof that does not need them.

Where the code and its own comments disagree, the model follows the code:

* The header of `npc_move_update.rs` (lines 1-18) speaks of 13..24 bytes and 16 reserved bits; the code (lines 140-154)
  accepts 16..24 bytes and reads 32. Its final test for a cursor past the end cannot fire.
* With all six optional fields a movement packet needs 194 bits, and 24 bytes hold 192, so the last field always reads as
  zero: `NpcMove.WhichMasksFit`, `NpcMove.FullMaskReadsNoDeltaZ`.
* The one-shot flag of the self tracker never decides anything (`SelfTrackerLaws.FlagDecidesNothing`), and the guard that
  would keep a held packet across an adoption never finds one (`SelfTrackerLaws.AdoptionLeavesNothingHeld`).
* The separate tests of three item fields never decide (`ItemPacket.EmittedWhen`).
* The accessor for the four spare bits of a position update reads the top of the heading
  (`PackedPosition.Unused2ReadsHeading`).
* The key that suppresses repeated narrations joins name and text with U+0001. `LootTrackerLaws.SameKeyWhen` says exactly
  when two narrations share a key, `LootTrackerLaws.KeysExact` that the key is exact where no name holds U+0001, and
  `LootTrackerLaws.TwoLinesOneKey` shows two lines of different items of which the second is dropped.
* The mask does not know character literals or raw strings. `MaskRust.CharLiteral` and `MaskRust.RawString` say exactly
  which of them leave the code behind them alone, `MaskRust.ApartExactly` says it for any text, and
  `MaskRust.OtherLiteralsHideCode` shows the two shortest that do not. A brace in a character literal counts as code.
* The score of a chat record is summed with a saturating product and a plain sum. The model lets the sum wrap, as a build
  without overflow checks does; a build with them stops there. `UcsChat.ScoreExactWhen` says exactly when the number is
  right, `UcsChat.FlagLostWhen` which digit takes a score back to zero.
* A line that puts neither a number nor an article before its item loses the item's first word where that word is one:
  `LootText.BareReadsBack`, and `LootText.NumberTaken` for the item "10 Dose X" and its like.

## Model

| member | source | states |
|---|---|---|
| LootTrackerLaws.NothingStranded | seq-backend-eql/src/loot_track.rs:307-437 | in every reachable state no waiting narration could be joined with a waiting confirmation; an unknown id waiting on one side means the other side is empty, and the waiting ids are disjoint |
| LootTrackerLaws.RunSettled | seq-backend-eql/src/loot_track.rs:357-437 | the invariant behind it is kept over any run, zone changes and resets included |
| LootTrackerLaws.MatchPrefers | seq-backend-eql/src/loot_track.rs:542-571 | a match prefers the longest waiting half of the same id, then the longest waiting unknown one; an unknown id takes the longest waiting of all |
| LootTrackerLaws.FlushIsStableSort | seq-backend-eql/src/loot_track.rs:507-540 | a flush empties both queues and emits their rows as one time-sorted permutation that keeps the order of equal times |
| LootTrackerLaws.RunBalance | seq-backend-eql/src/loot_track.rs:291-437 | over any run without an explicit reset, whatever a joined row inherits from its halves is conserved: taken in equals emitted plus waiting, for any way of counting |
| LootTrackerLaws.NarrationsConserved | seq-backend-eql/src/loot_track.rs:307-366 | every accepted narration is in exactly one emitted row or still waits |
| LootTrackerLaws.ConfirmationsConserved | seq-backend-eql/src/loot_track.rs:374-437 | every accepted confirmation and coin pile, with its sequence, its coin and its corpse, is in exactly one emitted row or still waits |
| LootTrackerLaws.QuantitiesConserved | seq-backend-eql/src/loot_track.rs:374-437 | where every item confirmation tells a quantity, the quantities too are in exactly one emitted row or waiting confirmation |
| LootTrackerLaws.HeadCount | seq-backend-eql/src/loot_track.rs:291-540 | accepted narrations plus accepted item confirmations equal twice the joined rows, plus the unjoined rows, plus both queues |
| LootTrackerLaws.SequenceAtMostOnce | seq-backend-eql/src/loot_track.rs:291-437 | during one stay in a zone, up to and including what leaving it flushes, at most one row carries a given nonzero sequence |
| LootTrackerLaws.OneRowPerSequence | seq-backend-eql/src/loot_track.rs:291-437 | during one stay in a zone, up to and including what leaving it flushes, no two rows carry the same nonzero sequence |
| LootTrackerLaws.RowsKeepTheirZone | seq-backend-eql/src/loot_track.rs:289-303 | in every reachable state what waits names the zone the tracker is in, and every row a step emits names the zone before the step, even one that leaves it |
| LootTrackerLaws.SameKeyWhen | seq-backend-eql/src/loot_track.rs:331-334 | two narrations share a key exactly when they are the same, or one's name is the other's plus U+0001 and more, with the texts shifted by it |
| LootTrackerLaws.KeysExact | seq-backend-eql/src/loot_track.rs:331-334 | where no name holds U+0001, only the same narration shares a key |
| LootTrackerLaws.TwoLinesOneKey | seq-backend-eql/src/loot_track.rs:331-334 | two lines that parse to different items share a key, so the second is dropped as a repeat, in any state that lets the first in |
| LootTrackerLaws.ZoneChangeStartsOver | seq-backend-eql/src/loot_track.rs:291-303 | entering another zone leaves nothing waiting, nothing remembered and nothing learned |
| LootRows.RowsTellTheirEvents | seq-backend-eql/src/loot_track.rs:307-586 | every row of any run is a narration joined with a confirmation, either of them alone, a coin pile or a window item, with all eighteen fields as the events of the run and the zone they arrived in say; and so is everything that waits |
| LootRows.EitherOrderSameRow | seq-backend-eql/src/loot_track.rs:307-437 | a narration and a confirmation meant for each other give the same one row in either order: the confirmed item and quantity where not zero, the confirmed corpse, coin and sequence, the rest as narrated |
| LootRows.DroppedExactlyWhen | seq-backend-eql/src/loot_track.rs:331-476 | during a stay a transaction is dropped exactly when an earlier one was the same (by sequence, else by six fields), a narration when it is no loot line or repeats one, and a window item is shown exactly the first time |
| LootRows.LearnedId | seq-backend-eql/src/loot_track.rs:322-456 | during a stay a narration without a linked id gets the id that the last window item of its name taught, and none where none did |
| LootRows.ZoneRule | seq-backend-eql/src/loot_track.rs:291-303 | the rows and all ten fields after a zone event, for no name, the same name and another one |
| LootRows.ResetRule | seq-backend-eql/src/loot_track.rs:273-282 | a reset keeps the looter alone, a new looter changes nothing else |
| LootPairing.FirstInFirstOut | seq-backend-eql/src/loot_track.rs:307-437 | from any settled state with known ids and over any run with known ids, for every item the joined rows are its narrations zipped with its confirmations in order, those already waiting first, and the rest still waits in order |
| LootPairing.JoinsCommute | seq-backend-eql/src/loot_track.rs:357-436 | in every settled state a narration and a confirmation can be joined in either order exactly when they do not clash: same nonzero id while an unknown half waits on a side where no half of that id does |
| LootPairing.StepsCommute | seq-backend-eql/src/loot_track.rs:307-437 | in every settled state a narration-side event and a transaction commute exactly unless both are accepted and bring halves that clash |
| LootPairing.MergeIsCanonical | seq-backend-eql/src/loot_track.rs:307-437 | without a clash any interleaving does what all narrations first and all transactions after them would do |
| LootPairing.InterleavingDoesNotMatter | seq-backend-eql/src/loot_track.rs:307-437 | without a clash any two interleavings of the same two sides end in the same state and emit the same rows |
| LootPairing.OrderIsFreeWithoutClash | seq-backend-eql/src/loot_track.rs:307-437 | at every point of two sides the way they came to interleave makes no difference exactly when no two of their events clash |
| LootPairing.KnownNeverClash | seq-backend-eql/src/loot_track.rs:307-437 | where every id is known nothing clashes, so the order is free |
| LootPairing.UnknownIdsMatter | seq-backend-eql/src/loot_track.rs:560-571 | a clash in full: the confirmation of a known item is spent on the unknown narration exactly if it comes before that item's own |
| LootTracker.LootTracker.constructor | seq-backend-eql/src/loot_track.rs:267-270 | a new tracker is empty |
| LootTracker.LootTracker.ResetAll | seq-backend-eql/src/loot_track.rs:273-278 | everything is dropped except the looter's name |
| LootTracker.LootTracker.SetLooterName | seq-backend-eql/src/loot_track.rs:280-282 | only the looter's name changes |
| LootTracker.LootTracker.FlushPending | seq-backend-eql/src/loot_track.rs:507-540 | draining the two queues, and sorting with the specified stable sort, does what the specified flush step does |
| LootTracker.LootTracker.EnterZone | seq-backend-eql/src/loot_track.rs:291-303 | flush with the old zone's name, forget the old zone if the name differs, then take the new name; an empty name only flushes |
| LootTracker.LootTracker.OnLootMessage | seq-backend-eql/src/loot_track.rs:307-367 | colour, parse, repeat and id lookup decide as specified, and the row is joined or queued; what the row says is `LootRows.RowsTellTheirEvents` |
| LootTracker.LootTracker.OnLootTransaction | seq-backend-eql/src/loot_track.rs:374-437 | repeats are dropped, a coin pile never takes a narration, an item confirmation is joined or queued; what the row says is `LootRows.RowsTellTheirEvents` |
| LootTracker.LootTracker.OnLootDropItem | seq-backend-eql/src/loot_track.rs:445-483 | the id is learned even from a repeated window item, the row appears once per corpse and item |
| LootText.AutoLineRoundTrip | seq-backend-eql/src/loot_track.rs:97-140 | an auto-loot line with a number, an article or nothing before its item gives back count, item, mob and outcome, exactly when " " + mob has no " from " and a bare item's first word is no count; an unknown tail makes the line unrecognised |
| LootText.KeptLineRoundTrip | seq-backend-eql/src/loot_track.rs:97-140 | the kept form gives back count, item and mob under the same condition, and always lands in the inventory |
| LootText.FromIsLast | seq-backend-eql/src/loot_track.rs:113-119 | the last " from " is the one before the mob exactly when the mob brings no other |
| LootText.SaleRoundTrip | seq-backend-eql/src/loot_track.rs:142-147 | a sale line gives back everything it says, with the copper total of its piles, exactly under the same condition |
| LootText.StorageRoundTrip | seq-backend-eql/src/loot_track.rs:148-151 | a storage line gives back the place it names, without "your" and full stops, and the rest, exactly under the same condition |
| LootText.FateRoundTrip | seq-backend-eql/src/loot_track.rs:142-165 | kept, destroyed, dropped, upgraded and stored items give back just that, and the rest of the line, exactly under the same condition |
| LootText.TailsKnown | seq-backend-eql/src/loot_track.rs:142-165 | no other tail is recognised |
| LootText.CoinsInCopper | seq-backend-eql/src/loot_track.rs:181-210 | a platinum is 1000 copper, a gold 100, a silver 10 |
| LootText.GroupingKey | seq-backend-eql/src/loot_track.rs:213-226 | article, corpse suffix and case make no difference to the grouping key: it is the name alone in lower case |
| LootText.ParseMoneyToCopper | seq-backend-eql/src/loot_track.rs:190-210 | the loop with its pending number and saturating sum gives the unbounded copper total of the words, cut off at the largest u32 |
| LootText.MoneyReadsBack | seq-backend-eql/src/loot_track.rs:188-210 | any list of piles in any denomination order, with commas or "and" between them, reads back as its true total, cut off at the largest u32 |
| LootText.DecimalParses | seq-backend-eql/src/loot_track.rs:171-173 | a number in decimal, with a plus sign or without, parses to itself, and to nothing when it is past u32 |
| LootText.CountReadsBack | seq-backend-eql/src/loot_track.rs:168-179 | a leading number or article is split off and the item is left whole; a bare item is left whole exactly when its first word is neither |
| LootText.BareReadsBack | seq-backend-eql/src/loot_track.rs:168-179 | an item with nothing before it is left whole exactly when it is one word or its first word is no u32, "a" or "an" |
| LootText.NumberTaken | seq-backend-eql/src/loot_track.rs:168-174 | a bare item that starts with a number is read as that many of the rest |
| LootText.InstanceIsKnownSuffix | seq-backend-eql/src/loot_track.rs:229-238 | the instance is raid, multi or solo exactly when that suffix ends the zone name, and base and instance put together again are the name |
| SelfTrackerLaws.IdentityInvariant | seq-backend-eql/src/self_track.rs:108-247 | in every reachable state an adopted id leaves no provisional one, its twin is another id within 16, and at most two ids count as the player |
| SelfTrackerLaws.RunSound | seq-backend-eql/src/self_track.rs:128-305 | the full invariant on the six fields holds after every run |
| SelfTrackerLaws.SpawnRule | seq-backend-eql/src/self_track.rs:211-247 | a record is adopted exactly when its id is not zero, both names are the same non-empty text, and no id within 16 is adopted; it is the twin when one is; with all six fields after it |
| SelfTrackerLaws.PositionRule | seq-backend-eql/src/self_track.rs:163-193 | which position report adopts provisionally and which names the twin, with the fields after it |
| SelfTrackerLaws.StatRule | seq-backend-eql/src/self_track.rs:257-291 | which packet is the player's, which names the player and which is kept, with the three gauges each in its place and the fields after it |
| SelfTrackerLaws.DrainRule | seq-backend-eql/src/self_track.rs:136-304 | what the two drains give and leave, and what a reset leaves |
| SelfTrackerLaws.IdsHaveSources | seq-backend-eql/src/self_track.rs:136-291 | after any run the adopted id is that of a record under the player's own name, the provisional id one of a position report, and the twin one that a record, a report or a wide packet named, all since the last reset |
| SelfTrackerLaws.WhoChangesSelfId | seq-backend-eql/src/self_track.rs:163-247 | only a reset, or a record of the new id whose name is the player's, changes the adopted id |
| SelfTrackerLaws.AdoptionLeavesNothingHeld | seq-backend-eql/src/self_track.rs:224-240 | an adoption in any reachable state leaves no held packet, and none was held for the id being adopted |
| SelfTrackerLaws.HeldIsNewest | seq-backend-eql/src/self_track.rs:257-305 | after any history the slot holds exactly the newest packet kept since the last adoption, drain or reset, and is empty when there is none |
| SelfTrackerLaws.HandedOverOnce | seq-backend-eql/src/self_track.rs:257-304 | over any run a drain hands over the newest packet kept before it, gauge by gauge, whose id counts as the player by then, and one kept after every earlier drain that gave anything |
| SelfTrackerLaws.ClaimsOnce | seq-backend-eql/src/self_track.rs:262-283 | between two resets the stat channel names the player at most once |
| SelfTrackerLaws.FlagDecidesNothing | seq-backend-eql/src/self_track.rs:122-126 | forgetting the one-shot flag before every step changes no reply and no other field of any run |
| SelfTrackerLaws.EveryAdoptionAccountedFor | seq-backend-eql/src/self_track.rs:163-241 | over any run each reported adoption of an id is handed back, promoted or lost, or the id is still provisional or waits to be handed back |
| SelfTrackerLaws.DrainingHostGetsAll | seq-backend-eql/src/self_track.rs:163-241 | with a host that drains after each observation the adopted ids are, in order, the drained ones, then the promoted or the provisional one |
| SelfTracker.SelfTracker.constructor | seq-backend-eql/src/self_track.rs:128-131 | a new tracker knows nothing |
| SelfTracker.SelfTracker.ResetAll | seq-backend-eql/src/self_track.rs:136-138 | a reset keeps nothing |
| SelfTracker.SelfTracker.ObserveSelfPos | seq-backend-eql/src/self_track.rs:163-178 | a position report teaches the twin, or leads to a provisional adoption, as specified |
| SelfTracker.SelfTracker.AdoptProvisional | seq-backend-eql/src/self_track.rs:180-193 | a new provisional id retires the one before it |
| SelfTracker.SelfTracker.TakeRetiredProvisional | seq-backend-eql/src/self_track.rs:198-200 | the retired id is handed over and forgotten |
| SelfTracker.SelfTracker.ObserveSpawn | seq-backend-eql/src/self_track.rs:211-247 | no match, adoption or twin, with the new state of all six fields |
| SelfTracker.SelfTracker.ObserveStatSync | seq-backend-eql/src/self_track.rs:257-291 | own packet, claim, hold or neither, with the new state |
| SelfTracker.SelfTracker.TakePendingVitals | seq-backend-eql/src/self_track.rs:296-304 | the held packet is released or left, with the new state |
| UcsChat.RoundTrip | seq-backend-eql/src/ucs_chat.rs:82-176 | any list of well-formed records, concatenated and enciphered, decodes to exactly that list; the run shown is the longest printable end of the header and the whole channel |
| UcsChat.RunIsChannel | seq-backend-eql/src/ucs_chat.rs:160-164 | where the header ends on an unprintable byte the run is exactly the channel |
| UcsChat.TrailingRun | seq-backend-eql/src/ucs_chat.rs:160-164 | the loop gives the longest printable end of the field |
| UcsChat.FramesDecode | seq-backend-eql/src/ucs_chat.rs:82-176 | any list of framed records, whatever their fields hold, decodes to exactly what is made of each: none hides, splits or alters another |
| UcsChat.KeptWhen | seq-backend-eql/src/ucs_chat.rs:125-136 | a framed record of plain text is kept exactly when one to 32 bytes stand behind the last dot of its sender field |
| UcsChat.Latin1IsUtf8 | seq-backend-eql/src/ucs_chat.rs:51-53 | the text kept of a byte is the UTF-8 form of that Latin-1 character |
| UcsChat.AccentedPasses | seq-backend-eql/src/ucs_chat.rs:51-62 | printable Latin-1 text passes exactly when its accented capitals are at most fifteen in a hundred of its UTF-8 bytes |
| UcsChat.ScoreExactWhen | seq-backend-eql/src/ucs_chat.rs:138-146 | the loop's number is the one spelled exactly when that fits 64 bits |
| UcsChat.FlagLostWhen | seq-backend-eql/src/ucs_chat.rs:138-147 | a score above zero goes back to zero exactly at 1844674407370955161 with a six, or above it with a one |
| UcsChat.PlainInvertsCipher | seq-backend-eql/src/ucs_chat.rs:86-91 | de-obfuscation inverts the sender's chained XOR on every byte string |
| UcsChat.XorIsBitwise | seq-backend-eql/src/ucs_chat.rs:88-91 | each bit of the result is set exactly where one operand's is and the other's is not |
| UcsChat.ParseUcsChat | seq-backend-eql/src/ucs_chat.rs:82-176 | the scan that jumps from trailer to trailer finds what looking at every position would find |
| UcsChat.ScanRecords | seq-backend-eql/src/ucs_chat.rs:93-176 | the same for the plain buffer, with the trailers' markers never overlapping |
| UcsChat.DecodeRecord | seq-backend-eql/src/ucs_chat.rs:102-173 | the backward walk over three fields, with every early exit |
| UcsChat.FieldStartAt | seq-backend-eql/src/ucs_chat.rs:64-70 | the start of the NUL-free run that ends at a position |
| UcsChat.FieldsFound | seq-backend-eql/src/ucs_chat.rs:102-123 | from its trailer a record's three fields are found again, whatever surrounds the record |
| UcsChat.ReadScore | seq-backend-eql/src/ucs_chat.rs:138-147 | the digit loop decides whether the score is there and not zero |
| NpcMove.BitStream.ReadUint | seq-backend-eql/src/npc_move_update.rs:86-127 | the byte-wise reader returns exactly the integer its bits spell, most significant first, and moves past them, or returns zero and stays |
| NpcMove.BitStream.ReadInt | seq-backend-eql/src/npc_move_update.rs:129-137 | a sign bit and a magnitude |
| NpcMove.ReadsConcatenate | seq-backend-eql/src/npc_move_update.rs:86-127 | two reads in a row spell the two parts of one longer read |
| NpcMove.ParseNpcMoveUpdate | seq-backend-eql/src/npc_move_update.rs:140-205 | every payload of 16 to 24 bytes parses to the meaning of its fields, every other length is an error |
| NpcMove.CastLossless | seq-backend-eql/src/npc_move_update.rs:187-204 | after its shift every field fits the type it is cast to |
| NpcMove.FieldsReadBack | seq-backend-eql/src/npc_move_update.rs:156-181 | reading undoes writing for every set of optional fields, whatever follows |
| NpcMove.ParseInvertsWriter | seq-backend-eql/src/npc_move_update.rs:140-205 | parsing a written packet that fits its bytes gives each field: coordinates in eighths, deltas in quarters, both rounded down, the heading as it is, what was not sent as zero with its flag off |
| NpcMove.WhichMasksFit | seq-backend-eql/src/npc_move_update.rs:140-181 | every set of optional fields fits 24 bytes except all six together |
| NpcMove.FullMaskReadsNoDeltaZ | seq-backend-eql/src/npc_move_update.rs:86-90 | with all six flagged the last field of any accepted payload reads as zero |
| BuffList.ParseInvertsEncode | seq-backend-eql/src/lib.rs:1328-1380 | exactly the encodings of entry lists are accepted, and each gives back its list |
| BuffList.HostGetsBuffs | seq-backend-eql/src/lib.rs:1328-1380 | the host gets the spawn and per buff the spell, the signed ticks, the slot and the caster that were encoded; what is no encoding is an error that names the length |
| BuffList.PrefixFree | seq-backend-eql/src/lib.rs:1372-1376 | no accepted packet extends another |
| BuffList.ParseBuffList | seq-backend-eql/src/lib.rs:1328-1380 | the entry loop gives the parsed entries without the ignored fields, or the same error |
| GuildRoster.ParseInvertsEncode | seq-backend-eql/src/guild_roster.rs:115-167 | exactly the encodings of rosters are accepted, and each gives back its roster |
| GuildRoster.HostGetsRoster | seq-backend-eql/src/guild_roster.rs:115-167 | the host gets the guild and per member the nine fields that were encoded, each under its own name; what is no encoding is an error whose position, length or count is so |
| GuildRoster.PrefixFree | seq-backend-eql/src/guild_roster.rs:158-166 | no accepted roster extends another: more bytes are a count mismatch |
| GuildRoster.ParseGuildMemberList | seq-backend-eql/src/guild_roster.rs:115-167 | the member loop gives the parsed members without the ignored fields, or the same error |
| GuildRoster.ReadMember | seq-backend-eql/src/guild_roster.rs:127-143 | one member read field by field, or the first error |
| GuildRoster.Cursor.Text | seq-backend-eql/src/guild_roster.rs:103-112 | a length-prefixed text and the cursor past it, or an error |
| Profile.FindProfileNameBlock | seq-backend-eql/src/lib.rs:293-324 | the least offset that carries the signature, and none only when there is none |
| Profile.WrittenBlockIsFound | seq-backend-eql/src/lib.rs:293-324 | a block written anywhere carries the signature exactly when its buffer spells a name |
| Profile.WellFormedRecovered | seq-backend-eql/src/lib.rs:514-614 | a well-formed section list, whatever follows it, is walked to exactly its two tables |
| Profile.AbilitiesRecovered | seq-backend-eql/src/lib.rs:577-600 | the ability table is found whatever follows it, a cut skill table included |
| Profile.FoundMeansWellFormed | seq-backend-eql/src/lib.rs:514-614 | skills are found only in bytes that are the encoding of a well-formed list with those tables |
| Profile.SkipSections | seq-backend-eql/src/lib.rs:514-575 | the walk over the counted and fixed sections stops at the first overrun and otherwise ends behind them |
| Profile.PlayerProfile.WalkSkills | seq-backend-eql/src/lib.rs:514-614 | ids and values are those of the whole ability table or untouched, spent is their sum mod 2^32, skills are untouched or the first min(count, 100) |
| Profile.PlayerProfile.PushAas | seq-backend-eql/src/lib.rs:577-596 | ids, values and the wrapped sum of the values of a table of any size |
| Profile.PlayerProfile.PushSkills | seq-backend-eql/src/lib.rs:598-613 | the first hundred of any number of skills |
| ItemPacket.SerialsApart | seq-backend-eql/src/item_packet.rs:146-156 | two serial positions are at least 17 bytes apart |
| ItemPacket.StartsComplete | seq-backend-eql/src/item_packet.rs:180-182 | the scan lists exactly the serial positions, in wire order and spaced |
| ItemPacket.FewItems | seq-backend-eql/src/item_packet.rs:176-251 | a payload holds at most one item per 17 bytes |
| ItemPacket.EveryRecordListed | seq-backend-eql/src/item_packet.rs:184-247 | there are as many items as positions that emit one, and each stands at the index that counts the emitting positions before it |
| ItemPacket.FullRecordsReadBack | seq-backend-eql/src/item_packet.rs:176-251 | a header, bare references and full records in any order parse to exactly the full records, each with all its fields |
| ItemPacket.EmittedWhen | seq-backend-eql/src/item_packet.rs:184-223 | an item is emitted exactly when its name and lore text are terminated, the name is not empty, and the whole stat block is there |
| ItemPacket.NoDefaults | seq-backend-eql/src/item_packet.rs:158-249 | every field of an emitted item is the bytes at its own offset from the serial or from the end of the two texts; no default is ever used |
| ItemPacket.ParseItemPacket | seq-backend-eql/src/item_packet.rs:176-251 | the scan and the record loop give the items of all serial positions in order; fewer than four bytes are an error |
| PackedPosition.SignExtendIs | seq-backend-eql/src/eqstructs.rs:23-27 | for every width the double shift gives the signed value of the low bits, whatever lies above |
| PackedPosition.ReadersAgree | seq-backend-eql/src/lib.rs:734-742 | the word reader is the sign-extended low 19 bits in eighths, and its cast to i16 loses nothing |
| PackedPosition.EighthsReadBack | seq-backend-eql/src/lib.rs:734-742 | the reader inverts the times-8 encoding on all of i16, under any upper bits |
| PackedPosition.FieldAlone | seq-backend-eql/src/bindings.rs:806-838 | a bit field is read back from any surrounding bits |
| PackedPosition.MobReadsBack | seq-backend-eql/src/mob_update.rs:31-60 | every coordinate and the heading come back, whatever the other fields and the gap hold |
| PackedPosition.Unused2ReadsHeading | seq-backend-eql/src/bindings.rs:835-844 | the accessor for the spare bits is a function of the heading alone |
| PackedPosition.Unused2RightWhen | seq-backend-eql/src/bindings.rs:835-844 | it is the signed spare nibble exactly where the spare bits repeat the top of the heading |
| PackedPosition.PlayerReadsBack | seq-backend-eql/src/player_spawn_pos.rs:101-138 | the unaligned coordinates and the 11-bit heading come back from any surrounding bits |
| Links.CleanLinks | seq-backend-eql/src/links.rs:38-56 | the loop over the shrinking rest is the recursive cleaning |
| Links.Clean | seq-backend-eql/src/links.rs:38-64 | the result is no longer than the text and has no marker |
| Links.CleanIsIdempotent | seq-backend-eql/src/links.rs:38-56 | marker-free text is left alone, so cleaning twice is cleaning once |
| Links.CleanConcat | seq-backend-eql/src/links.rs:38-56 | cleaning distributes over concatenation when the left part has an even number of markers |
| Links.LineReadsBack | seq-backend-eql/src/links.rs:38-64 | a line of text, item links and spell links shows exactly its text and the linked names |
| Links.OpenLinkStays | seq-backend-eql/src/links.rs:49-52 | a marker that nothing closes is dropped and the text behind it stays |
| Links.NamelessLink | seq-backend-eql/src/links.rs:59-64 | a link without a caret that is too short for an item header, or cuts a character, shows nothing |
| MaskRust.MaskSource | tools/event_coverage.py:56-116 | the in-place loop over the character list computes the mask |
| MaskRust.MaskHidesEverything | tools/event_coverage.py:56-116 | the length is kept, characters change only to blanks, and no quote or comment opener is left |
| MaskRust.MaskIsIdempotent | tools/event_coverage.py:56-116 | masking twice is masking once; a text is its own mask exactly when it has no opener |
| MaskRust.MaskShowsOnlyCode | tools/event_coverage.py:56-116 | a text of code, line comments, nested block comments and string literals, the last one possibly still open, shows exactly its code |
| MaskRust.ApartExactly | tools/event_coverage.py:56-116 | what follows a text is masked as if it stood alone exactly when the lexer leaves the text in code, not in a comment, a literal or half a pair |
| MaskRust.CharLiteral | tools/event_coverage.py:75-78 | a character literal, escapes included, leaves the code behind it alone exactly when it is not a quote |
| MaskRust.RawString | tools/event_coverage.py:101-111 | a raw string without a quote inside leaves the code behind it alone exactly when its body would do for an ordinary literal, every backslash having something to escape |
| MaskRust.OtherLiteralsHideCode | tools/event_coverage.py:75-78 | the character literal of a quote and the raw string of a backslash blank whatever code follows without a further quote |
| MaskRust.BracedBody | tools/event_coverage.py:119-137 | the body of the first brace pair after the marker, or the right one of three errors |
| MaskRust.BodyOfPieces | tools/event_coverage.py:119-137 | code, comments and string literals between two braces are the first one's body exactly when the code alone is balanced, and the body shows that code with the rest blanked |
| MaskRust.CloseOf | tools/event_coverage.py:127-137 | the depth count finds the closing brace exactly when there is one, with depth at least one before it |
| MaskRust.BodyIsUnique | tools/event_coverage.py:127-137 | an opening brace has at most one body |
| EventBatch.Lossless | seq-bridge/src/lib.rs:2479-2489 | every index is valid for its kind, and the event list is rebuilt from the batch alone |
| EventBatch.EventsCarried | seq-bridge/src/lib.rs:2492-3665 | each event's reference names its kind and leads to a payload with every field in its place, an absent option being a flag that is off and a zero or empty text |
| EventBatch.RefOf | seq-bridge/src/lib.rs:2466-2489 | one reference per event in order, its index counting the earlier events of its vector, leading to that event |
| EventBatch.NoSlotTwice | seq-bridge/src/lib.rs:2787-2796 | no payload is referenced twice, even where two kinds share a vector |
| EventBatch.EverySlotReferenced | seq-bridge/src/lib.rs:3169-3178 | every payload in every vector is referenced by some event |
| EventBatch.IndicesFit | seq-bridge/src/lib.rs:2466-2476 | every index of an accepted batch is a u32 |
| EventBatch.SessionDecodeBatch.PushRef | seq-bridge/src/lib.rs:2466-2476 | an index that is not a u32 is refused, where the source stops the program |
| EventBatch.SessionDecodeBatch.TranslateEvent | seq-bridge/src/lib.rs:2492-3665 | the payload goes to the end of its vector and a reference to it to the end of the list |
| EventBatch.TranslateEvents | seq-bridge/src/lib.rs:2479-2489 | the whole list is flattened exactly when no vector outgrows its u32 indices |

## Left out

- EventBatch.SessionDecodeBatch.TranslateEvent: ten kinds stand for the ninety-eight of the source (both pairs that share a vector, nested options, a member list, plain payloads); the other arms repeat the same shapes.
- EventBatch.TranslateEvents: for lists of those ten kinds.
- EventBatch.Lossless: for lists of those ten kinds.
- EventBatch.EventsCarried: for lists of those ten kinds.
- GuildRoster.ParseGuildMemberList: texts stay bytes; the lossy UTF-8 conversion is not modelled.
- GuildRoster.Cursor.Text: the text stays bytes, for the same reason.
- GuildRoster.HostGetsRoster: texts stay bytes, for the same reason.
- BuffList.ParseBuffList: caster names stay bytes, for the same reason.
- BuffList.HostGetsBuffs: caster names stay bytes, for the same reason.
- ItemPacket.ParseItemPacket: names and serials stay bytes, for the same reason.
- ItemPacket.FullRecordsReadBack: names and serials stay bytes; a piece holds no second serial, and a reference is long enough to hold the NUL that makes it one.
- UcsChat.RoundTrip: for well-formed records only, which is what a chat line is: NUL-free four-byte header, non-empty printable ASCII fields, none starting with the trailer's marker, a sender without dots of at most 32 bytes, a score that fits 64 bits. `UcsChat.FramesDecode` covers any fields, and `UcsChat.ParseUcsChat` all bytes.
- UcsChat.ReadScore: the sum wraps, as said above; a build with overflow checks stops instead.
- LootTracker.LootTracker.OnLootMessage: mob names are lower-cased in ASCII only.
- LootTracker.LootTracker.OnLootDropItem: corpse names are lower-cased in ASCII only.
- LootText.GroupingKey: lower case in ASCII only.
- LootTrackerLaws.QuantitiesConserved: a confirmation with quantity zero leaves the narrated quantity standing, so a row alone does not say whose quantity it has; `LootRows.RowsTellTheirEvents` covers that case.
- LootTracker.LootTracker.FlushPending: the source sorts with the library's stable sort, the model with an insertion sort proved stable.
- LootPairing.FirstInFirstOut: for known ids, since with an unknown one a half of one item may join a half of another; what then still holds is in the conservation laws and in `LootPairing.OrderIsFreeWithoutClash`.
- NpcMove.ParseInvertsWriter: the writer writes zero with a clear sign bit; a negative zero on the wire also reads as zero (`NpcMove.BitStream.ReadInt`).
- Profile.FindProfileNameBlock: the tail behind the name block, the fixed-offset stats and the money fields of the profile are field copies and are not modelled.
- `observe_window_snapshot` of the loot tracker: a set insertion.
- `parse_stat_sync`, the spawn-record walk and `first_item_link`: bounds-checked field reads, or a search for one link.
- `parse_ucs_channels` and `primary_class`: short searches with no law beyond their bodies.
- Fixed-layout packets, opcode dispatch, the foreign-function bridge and feature selection.
- IEEE meaning of floats.
- Saturation of `usize` arithmetic, which 64-bit offsets and 32-bit counts never reach.
- The parts of the coverage tool that read files, TOML or JSON.
