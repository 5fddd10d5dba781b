# CheeseTracker

A Dafny model of the parts of CheeseTracker below its user interface that decide what a song is and how it is played,
with proofs about them. `dafny verify dfyconfig.toml` checks the project.

**Compressed samples.** A destructive dword reader takes bits out of a block (`BitReader`); two decoders read codes of
changing width and integrate the deltas (`SampleLoader`). They refine a decoder over plain bit sequences
(`SampleDecoder`), and an encoder (`SampleEncoder`) shows that the decoder reaches every sample. `SampleWidths` gives
the format in numbers, changes of width included.

**Patterns.** `PatternStore` is the sparse pattern with its one-cell write-back cache; it behaves as an array of 64
columns (`PatternRuns`). `PatternCodec` describes the packed format that .ct and .it files share, on plain values;
`PatternSavers` and `PatternUnpacker` are the loops of the savers and loaders, `CodecRoundTrip` shows exactly which
patterns survive, `PatternFiles` the same on the pattern store itself, `PatternFormat` what the bytes are, and
`PackedLength` how long a packed pattern can be.

**Playing.** `Orders` is the order list and the walk over it, `PlayPosition` what one tick does to the position,
`SongLength` when a song ends, and `BackwardJumps` which songs that jump back do. `PatternLoops` says exactly when a row
with pattern loops leads to a row that exists, and `MarkedLoops` which songs with loops are always played safely.
`RowCommands` says where each command leads, `PendingJumps` is about jumps that are overtaken by hand. `PlayerEngine` is
the player that does it in place, and `PlayerRuns` plays whole songs on it. `Portamento` follows the periods of a
channel and `Levels` its volumes and pannings, `Slides` where its slides end: three separate views of one channel, since
none of them depends on the others.

**Editing.** `Blocks` says what each block command does to a column and how the commands undo each other, `Sheets` what
it does to a whole pattern, the rows past its end included, which cursor and selection may reach when the pattern
changes under them. `EditorColumns` has the loops, in place and through the pattern's cache. `FieldEntry` says what
typing does to a cell, `Cursors` where the cursor goes, `TypedFields` and `TypingRuns` that what was typed is what is
there, `EditMeaning` what the blocks' cells are, `EditorUndo` is the undo list, and `PatternEditor` the editor that puts
them together on the patterns of a song. `EditorRuns` follows whole sessions on plain values and shows that whatever is
made with the editor survives a .ct file; `EditorSessions` shows that the editor's methods do what a session's commands
do and runs whole sessions on it, and `EditedSongs` goes from a new song through a session to a file and back.

**Instruments.** `Instruments` saves an instrument together with its samples and loads it into another song.

Every method is proved against a function on plain values, and the properties are lemmas about these functions. C's
arithmetic is written out where it matters: bytes and dwords wrap, division truncates (`Division`), shifts are shifts.

What came out that a reader of the code might not expect:

- A compressed sample whose last block ends the file does not load: the end of the file counts as reached as soon as
  nothing is left to read (`SampleEncoder.EverySampleLoads`).
- Setting a shorter pattern length does not truncate a column that has anything to cut off
  (`PatternStore.TruncatesOnlyWhenNothingToCut`).
- The .it pair loses notes with Z commands only when a second Z command doubles the parameter of the first
  (`CodecRoundTrip.ItRoundTrip`); patterns of up to 157 rows fit the 16-bit length (`PackedLength.SixteenBitsIff`).
- `get_next_order` never returns -1, so the code for a deleted order list is unreachable (`Orders.GetNextOrder`).
- After its end a song starts over at order 0 without looking at it: if order 0 is a separator, the player asks for a
  pattern that does not exist (`SongLength.PlaysForEverIff`).
- A pattern loop marked on the last row of a pattern leads to row -1 (`PatternLoops.LoopLeavesThePattern`); with loops
  marked properly every row played exists (`MarkedLoops.WellMarkedSongsAreSafe`).
- `goto_next_order` and `goto_previous_order` leave a pending jump in place (`PlayPosition.GotoSafeIff`), so that after
  a B command a row can count for another order than its pattern's (`PendingJumps.GotoMixesUpOrders`).
- A song whose first moving command is a B command that jumps back reports its end if and only if that command is on its
  last row (`BackwardJumps.EndReportedIff`).
- With the cursor past the end of a pattern, deleting a row empties the last row of the pattern
  (`EditorColumns.DeleteRow`), and typing changes what is remembered, but no cell (`Sheets.CellAfterWrite`).
- A C command on the last row of a pattern skips an order (`RowCommands.BreakGoesTo`).
- Typing the volume 70 gives 60: a first digit above 6 counts as 6 (`TypedFields.VolumeIsTyped`).
- A volume byte from 125 to 127 sets a negative panning (`Levels.ColumnPanningIff`); cutting a note silences only the
  first layer (`Levels.CutNoteSilencesIff`).
- An instrument mask from 99 to 199 is accepted, but the notes entered with it lose their instrument when saved
  (`FieldEntry.InstrumentMaskLegalIff`).
- Undo writes to the current pattern, whichever pattern the entry was saved from (`EditorUndo.UndoRestoresIff`), and can
  lose the pattern it replaces when the newest entry has the same description (`EditorUndo.UndoSavesIff`).
- A sample that is saved with its instrument but not in use shares its slot with the next one
  (`Instruments.DifferentSlotsIff`).

## Model

| member | source | states |
|---|---|---|
| `BitReader.StreamBit` | cheesetracker/loaders/loader_it_samples.cpp:279-334 | bit k of a block, in the order the reader takes bits, is bit k mod 8 of byte k div 8 |
| `BitReader.ReadWithin` | cheesetracker/loaders/loader_it_samples.cpp:285-304 | masking and shifting the current dword takes the next bits of the stream and leaves the rest of the stream |
| `BitReader.ReadAcross` | cheesetracker/loaders/loader_it_samples.cpp:305-331 | joining the rest of one dword with the low bits of the next one takes the next bits of the stream, without overflow |
| `BitReader.BlockReader.Read` | cheesetracker/loaders/loader_it_samples.cpp:279-334 | every read of up to 30 bits returns the next bits of the block and leaves exactly the remaining stream; no access leaves the buffer while bits are left |
| `BitReader.BlockReader.ReadCurrent` | cheesetracker/loaders/loader_it_samples.cpp:285-304 | the part of a read that the current dword serves |
| `BitReader.BlockReader.ReadNext` | cheesetracker/loaders/loader_it_samples.cpp:305-331 | the part of a read that needs the next dword |
| `SampleDecoder.NarrowCodesAreLegal` | cheesetracker/loaders/loader_it_samples.cpp:417-439 | below the widest mode, every escape names a legal width other than the current one |
| `SampleDecoder.EveryWidthHasOneCode` | cheesetracker/loaders/loader_it_samples.cpp:417-439 | every other legal width is named by exactly one code |
| `SampleLoader.NextCode8` | cheesetracker/loaders/loader_it_samples.cpp:417-464 | the 8-bit branches, with their sign extension by shifts, read each value as the abstract code says |
| `SampleLoader.NextCode16` | cheesetracker/loaders/loader_it_samples.cpp:529-577 | the 16-bit branches read each value as the abstract code says |
| `SampleLoader.SignExtension` | cheesetracker/loaders/loader_it_samples.cpp:456-464 | shifting up and arithmetically down again gives the two's complement value of the width |
| `SampleLoader.IntegrateStep` | cheesetracker/loaders/loader_it_samples.cpp:466-472 | the two running sums hold the prefix sum and the prefix sum of prefix sums of all deltas so far, modulo the sample size |
| `SampleLoader.DecodeInto` | cheesetracker/loaders/loader_it_samples.cpp:399-477 | one block: the samples written are the integrated deltas of the abstract decoding of the block's bits, and nothing else in the buffer changes |
| `SampleLoader.Loader.ReadCompressedBlock` | cheesetracker/loaders/loader_it_samples.cpp:337-364 | a block is its 16-bit size and that many bytes, and needs one more byte behind it in the file |
| `SampleLoader.Loader.LoadCompressed` | cheesetracker/loaders/loader_it_samples.cpp:375-597 | both decoders write exactly the requested samples, those of the abstract decoder over bit sequences, block by block, and fail exactly when it does |
| `SampleEncoder.IntegrateDeltas` | cheesetracker/loaders/loader_it_samples.cpp:466-472 | integrating the differences of a sample sequence, or their differences in IT 2.15 mode, gives the sequence |
| `SampleEncoder.DecodePacked` | cheesetracker/loaders/loader_it_samples.cpp:413-464 | deltas packed at the initial width decode to themselves |
| `SampleEncoder.DecodeEncodedBlock` | cheesetracker/loaders/loader_it_samples.cpp:399-477 | a block written at the initial width has a size that fits the 16-bit field and decodes to the samples it was made from |
| `SampleEncoder.EverySampleLoads` | cheesetracker/loaders/loader_it_samples.cpp:375-597 | the decoders are onto: every sample sequence has a compressed form that loads as exactly that sequence, in both modes, if and only if the file goes on behind it |
| `SampleWidths.DeltaIsRead` | cheesetracker/loaders/loader_it_samples.cpp:413-464 | every delta that fits a width is read back from its bits: all but the least at up to 6 bits, all but k around the middle at medium widths, all samples at the widest one |
| `SampleWidths.ChangeIsRead` | cheesetracker/loaders/loader_it_samples.cpp:413-446 | the bits of every change of width, in numbers: the pattern 10..0 and a number in 3 or 4 bits, one of k codes from 2^(w-1) - k/2 on, or 2^k + w - 1 |
| `SampleWidths.StepsDecode` | cheesetracker/loaders/loader_it_samples.cpp:399-477 | any sequence of deltas and changes of width, from wide to narrow and back, written in these bits decodes to exactly the deltas |
| `SampleWidths.PlannedSampleLoads` | cheesetracker/loaders/loader_it_samples.cpp:375-597 | every sample loads from every way of writing its blocks in these bits, if and only if the file goes on behind it |
| `SampleWidths.SamplesDifferByDeltas` | cheesetracker/loaders/loader_it_samples.cpp:466-472 | each sample differs from the one before it by its delta; in IT 2.15 mode the differences do |
| `SampleWidths.WrapIsSigned` | cheesetracker/loaders/loader_it_samples.cpp:466-472 | sums are kept as signed numbers of the sample size |
| `PatternStore.Pattern.GetNote` | cheesetracker/trackercore/pattern.cpp:142-161 | reading sees the pending cell in the cache, or else the stored one |
| `PatternStore.Pattern.GetNoteRef` | cheesetracker/trackercore/pattern.cpp:163-193 | handing out a reference changes no cell, even though the pending one is written back; out of range the reference stands for no cell |
| `PatternStore.Pattern.WriteRef` | cheesetracker/trackercore/pattern.cpp:163-193 | writing through the last reference changes the one cell it stands for |
| `PatternStore.Pattern.Assign` | cheesetracker/trackercore/pattern.cpp:163-193 | assigning to a reference changes that cell of the 64 by length array and no other, in sight or not; out of range nothing |
| `PatternStore.Pattern.ProcessInsertRequest` | cheesetracker/trackercore/pattern.cpp:75-105 | storing a note, or erasing a cell by an empty note, changes one cell |
| `PatternStore.Pattern.ProcessRetrieveRequest` | cheesetracker/trackercore/pattern.cpp:107-140 | a cell without an entry reads as an empty note |
| `PatternStore.Pattern.SetNewLength` | cheesetracker/trackercore/pattern.cpp:196-250 | cells below both lengths stay, other cells stay or become empty, lengths outside 1..200 change nothing; each column is cut exactly as the erasing loop cuts it |
| `PatternStore.Pattern.TrimColumns` | cheesetracker/trackercore/pattern.cpp:213-244 | the loops over the columns: rows below the bound stay, others stay or become empty, and some cell is left |
| `PatternStore.Pattern.CopyFrom` | cheesetracker/interface_binds/editor_undo.cpp:62-80 | assigning a whole pattern copies its cells, its length and its pending cell |
| `PatternStore.Pattern.EraseFrom` | cheesetracker/trackercore/pattern.cpp:217-243 | the erasing loop removes the rows from the bound on, except the last entry of the column, which it never examines |
| `PatternStore.Pattern.ClearAll` | cheesetracker/trackercore/pattern.cpp:252-266 | every cell is empty and no reference is pending |
| `PatternStore.TruncatesOnlyWhenNothingToCut` | cheesetracker/trackercore/pattern.cpp:217-243 | a shorter length really cuts a column if and only if the column had nothing past the bound |
| `PatternStore.TruncationLeavesARow` | cheesetracker/trackercore/pattern.cpp:217-243 | a concrete column whose row 5 survives setting the length to 3 |
| `PatternStore.RegrownRows` | cheesetracker/trackercore/pattern.cpp:217-243 | shrinking and growing again brings back exactly the last entry of a column |
| `PatternStore.Pattern.InUseUpToPendingCell` | cheesetracker/trackercore/pattern.cpp:57-73 | in_use is wrong by at most the pending cell |
| `PatternRuns.ReadsSeeTheLastWrite` | cheesetracker/trackercore/pattern.cpp:75-266 | over every run of references, writes, length changes and clears, every cell still known to an array of cells reads as the array says |
| `PatternRuns.RunOperations` | cheesetracker/trackercore/pattern.cpp:75-266 | any sequence of operations, run on the pattern itself, leaves what it leaves of the array |
| `PatternRuns.RunAndRead` | cheesetracker/trackercore/pattern.cpp:142-161 | reading a cell after any operations gives what the array says, wherever it is known |
| `PatternRuns.AllKnownAtFixedLength` | cheesetracker/trackercore/pattern.cpp:142-193 | without length changes the array knows every cell, so the pattern is a plain array |
| `PatternRuns.KnownBelowEveryLength` | cheesetracker/trackercore/pattern.cpp:196-250 | a cell below every length set stays known |
| `PatternRuns.LengthsAllowed` | cheesetracker/trackercore/pattern.cpp:196-205 | lengths from 1 to 200 are taken, others leave the length as it was |
| `PatternUnpacker.UnpackCtPattern` | cheesetracker/loaders/loader_ct.cpp:142-247 | the unpacking loop turns a cleared pattern into what the abstract loader makes of the block |
| `PatternUnpacker.UnpackItPattern` | cheesetracker/loaders/loader_it_patterns.cpp:63-189 | the same for one pattern of an .it file, whose header gives the rows; a length outside 1..200 keeps the old one |
| `PatternUnpacker.CellLoader.UnpackRows` | cheesetracker/loaders/loader_ct.cpp:160-245 | the do-while loop with its remembered masks and values follows the abstract loader cell by cell |
| `PatternUnpacker.CellLoader.LoadMarked` | cheesetracker/loaders/loader_ct.cpp:170-245 | one marked cell, with its channel's mask and remembered values |
| `PatternSavers.UpdateCache` | cheesetracker/savers/saver_ct.cpp:85-140 | comparing a note with the channel's cache yields the mask and the next cache of the abstract saver |
| `PatternSavers.CellElements` | cheesetracker/savers/saver_ct.cpp:142-195 | the array elements of a cell are its mark and its field bytes, truncated to bytes when read |
| `PatternSavers.PackCtPattern` | cheesetracker/savers/saver_ct.cpp:42-208 | the nested loops push exactly the abstract packed block |
| `PatternSavers.StoreRows` | cheesetracker/savers/saver_it.cpp:465-605 | the .it packer writes the packed block behind the header and counts its bytes |
| `PatternSavers.PackItPattern` | cheesetracker/savers/saver_it.cpp:433-616 | the file afterwards: header with the back-patched 16-bit length, then the packed block |
| `PatternSavers.LengthFieldIsExact` | cheesetracker/savers/saver_it.cpp:606-616 | the length field says how many bytes follow exactly when that number is below 65536 |
| `PatternSavers.HeaderInBytes` | cheesetracker/savers/saver_it.cpp:464-468 | the eight bytes of the header |
| `PatternFormat.OneRowInBytes` | cheesetracker/savers/saver_ct.cpp:69-207 | byte for byte, in .ct and .it files: what is saved of any pattern with one row of cells; notes as themselves, off as 255, cut as 254, instruments and commands from 1 on, behind channel and mask |
| `PatternFormat.TwoCellsInBytes` | cheesetracker/savers/saver_it.cpp:465-605 | byte for byte: the second cell of a channel, which leaves out what has not changed and the mask if it is the same |
| `PatternFormat.BytesInTwoCells` | cheesetracker/loaders/loader_it_patterns.cpp:100-180 | what the loader makes of any marks, masks and bytes of two cells of a channel, those no saver writes included |
| `FileWriter.Writer.StoreWord` | cheesetracker/trackercore/file_writer.cpp:106-118 | a word is written low byte first over what was at the position |
| `CodecRoundTrip.UnpackPacked` | cheesetracker/loaders/loader_ct.cpp:160-245 | simulation: from any cell on, unpacking what the saver packs restores the remaining cells, with saver's and loader's caches and masks matching, and stops at the end of the block |
| `CodecRoundTrip.CtRoundTrip` | cheesetracker/savers/saver_ct.cpp:69-207 | .ct: for every pattern, loading the saved block gives every cell with its unrepresentable fields emptied and leaves what follows the block; the pattern itself comes back if and only if all cells are legal |
| `CodecRoundTrip.NormalIffLegal` | cheesetracker/loaders/loader_ct.cpp:170-230 | the loader changes a cell exactly if a field is outside what a file can hold |
| `CodecRoundTrip.ItRoundTrip` | cheesetracker/savers/saver_it.cpp:465-605 | .it: the pattern comes back if and only if all cells are legal and no channel has a Z command with parameter p, 0 < p < 127, whose next command is Z with parameter min(2p, 127) |
| `CodecRoundTrip.NoDoublingIff` | cheesetracker/savers/saver_it.cpp:521-545 | the cache-based condition of the .it round trip is the stated condition on consecutive commands |
| `PatternFiles.CopyThroughCt` | cheesetracker/loaders/loader_ct.cpp:142-247 | the .ct saver and loader together, on two patterns: the loaded one equals the saved one if and only if all cells are legal |
| `PatternFiles.CopyThroughIt` | cheesetracker/loaders/loader_it_patterns.cpp:63-189 | the .it saver and loader together, through a file that goes before: the same with the condition on Z commands |
| `PackedLength.LengthBound` | cheesetracker/savers/saver_it.cpp:465-605 | a legal pattern takes at most 417 bytes a row and 32 more |
| `PackedLength.LongGridIsLong` | cheesetracker/savers/saver_it.cpp:465-605 | for every number of rows there is a legal pattern that takes at least 417 bytes a row |
| `PackedLength.SixteenBitsIff` | cheesetracker/savers/saver_it.cpp:606-616 | the 16-bit length field is exact for every legal pattern if and only if the pattern has at most 157 rows |
| `Orders.GetNextOrder` | cheesetracker/trackercore/song.cpp:270-299 | the search finds the next playable order with no empty order in between, or 0, and never reports that there is none |
| `Orders.WalkReturnsIff` | cheesetracker/trackercore/player_data_control.cpp:216-248 | walking on from an order leads back to it if and only if it is order 0, or playable with no empty order before it: exactly then the loop of goto_previous_order ends |
| `Orders.NeverReturns` | cheesetracker/trackercore/player_data_control.cpp:216-248 | from any other order no number of steps leads back |
| `Orders.NextApproaches` | cheesetracker/trackercore/song.cpp:270-299 | short of a later order of the walk, the next order neither passes it nor starts over |
| `Orders.PreviousOrder` | cheesetracker/trackercore/player_data_control.cpp:216-248 | the search ends with an order whose next order is the current one |
| `RowCommands.StartsThere` | cheesetracker/trackercore/player_data_control.cpp:95-125 | playing starts at the row, the order or the pattern asked for, with its first row due |
| `RowCommands.GoesThere` | cheesetracker/trackercore/player_data_control.cpp:196-248 | going to an order by hand moves to its first row, and nothing else |
| `PlayerEngine.Player.HandleTick` | cheesetracker/trackercore/player_data_events.cpp:189-300 | one tick does to position, counters and channels what the abstract tick does |
| `PlayerEngine.Player.PlayRow` | cheesetracker/trackercore/player_data_events.cpp:201-266 | a row that is due is played and the position moves on to the row after it, as the abstract row does |
| `PlayerEngine.Player.RunEffects` | cheesetracker/trackercore/player_data_effects.cpp:767-844 | the commands A, B, C and S change speed, position and loop memory as the abstract effects do |
| `PlayerEngine.Player.DoEffectS` | cheesetracker/trackercore/player_data_effects.cpp:531-653 | S: memory of the parameter, and the pattern loop |
| `PlayerEngine.Player.PreProcessEffects` | cheesetracker/trackercore/player_data_effects.cpp:1165-1185 | the effects of all channels in turn, each seeing the speed the ones before it have set |
| `PlayerEngine.Player.PlayStart` | cheesetracker/trackercore/player_data_control.cpp:95-125 | where playing starts, for each of the four ways to start |
| `PlayerEngine.Player.GotoNextOrder` | cheesetracker/trackercore/player_data_control.cpp:196-215 | the position moves to row 0 of the next order |
| `PlayerEngine.Player.GotoPreviousOrder` | cheesetracker/trackercore/player_data_control.cpp:216-248 | the position moves to an order whose next order is the old one |
| `PlayPosition.RowSafe` | cheesetracker/trackercore/player_data_events.cpp:201-266 | the row played belongs to the pattern the order list names, and the next position is a row that exists |
| `PlayPosition.RowKeepsSafe` | cheesetracker/trackercore/player_data_events.cpp:201-266 | whatever its notes will do, a row that is due leaves the position on a row that exists |
| `PlayPosition.EffectsSafe` | cheesetracker/trackercore/player_data_effects.cpp:767-844 | no mix of A, B and C commands leaves the existing rows |
| `RowCommands.BreakGoesTo` | cheesetracker/trackercore/player_data_effects.cpp:807-836 | C with parameter p leads to row p of the next order's pattern, or row 0 if that is too short; on the last row of a pattern it skips an order |
| `RowCommands.BreakIsPlayed` | cheesetracker/trackercore/player_data_effects.cpp:807-836 | and that row, in that order, is the next one played |
| `RowCommands.JumpGoesTo` | cheesetracker/trackercore/player_data_effects.cpp:784-806 | B leads to the first row of the order asked for, or of the next one that can be played |
| `RowCommands.SpeedBecomes` | cheesetracker/trackercore/player_data_effects.cpp:771-783 | A sets the ticks of a row to its parameter modulo 128, unless that is 0, and leaves the position alone |
| `RowCommands.EmptyPatternWaits` | cheesetracker/trackercore/player_data_events.cpp:201-226 | an order without a pattern is waited at |
| `RowCommands.RowLasts` | cheesetracker/trackercore/player_data_events.cpp:189-300 | a row lasts as many ticks as the speed says |
| `PlayPosition.EveryTickIsSafe` | cheesetracker/trackercore/player_data_events.cpp:189-300 | over all runs: if order 0 is a pattern and the song has no pattern loops, every tick processes a row that exists, from every safe start |
| `PlayPosition.StartIsSafe` | cheesetracker/trackercore/player_data_control.cpp:95-125 | a start is safe if and only if its row exists |
| `PlayPosition.GotoSafeIff` | cheesetracker/trackercore/player_data_control.cpp:196-248 | going to another order is safe if and only if no jump to an order with another pattern is pending: the pending jump is not cancelled |
| `PendingJumps.JumpStaysPending` | cheesetracker/trackercore/player_data_control.cpp:196-248 | in every song whose first row jumps by a B command the jump is pending after one tick, and going to an order is then safe if and only if that order has the pattern the jump leads to |
| `PendingJumps.GotoMixesUpOrders` | cheesetracker/trackercore/player_data_control.cpp:196-248 | a concrete song where going to an order by hand plays a pattern that is not the one of the order it counts for |
| `PatternLoops.TickSafeIff` | cheesetracker/trackercore/player_data_effects.cpp:599-625 | exactly when a row with any commands on any tracks leads to a row that exists: no track jumps back, or the last one that does goes to a row of the pattern; a track jumps back when it runs a loop, by parameter or from memory, whose count is not 1 |
| `PatternLoops.LastJumpDecides` | cheesetracker/trackercore/player_data_effects.cpp:531-844 | of all A, B, C and S commands of a row the last loop that jumps decides the position |
| `MarkedLoops.WellMarkedSongsAreSafe` | cheesetracker/trackercore/player_data_events.cpp:189-300 | over all runs with pattern loops: if every loop is marked above on its own track and pattern, no mark is on a last row or to the right of a B, a C or a running loop, no C skips a mark, and tracks with loops do not recall S commands, then every tick plays a row that exists, from every start |
| `MarkedLoops.EveryTickVisits` | cheesetracker/trackercore/player_data_events.cpp:189-300 | the invariant behind it: since its pattern was entered the position has played every row up to some row, and every loop marked there leads to one of them |
| `MarkedLoops.NoLoopsAreWellMarked` | cheesetracker/trackercore/player_data_effects.cpp:599-625 | songs without loops are a special case |
| `PlayerRuns.PlayTicks` | cheesetracker/trackercore/player_data_events.cpp:189-300 | the player itself, started in place on any row that exists of a song with well-marked loops, plays any number of ticks, and is where the abstract run is |
| `PatternLoops.LoopLeavesThePattern` | cheesetracker/trackercore/player_data_effects.cpp:599-625 | why a mark must not be on the last row: in every song with such a mark, whose loop is run on the first row of the next pattern, the position is at row -1 one tick into that row |
| `PatternLoops.EffectsBut` | cheesetracker/trackercore/player_data_effects.cpp:531-653 | with one S command among commands that leave the position alone, a tick does what the one S effect does |
| `RowCommands.MarkIsTheRow` | cheesetracker/trackercore/player_data_effects.cpp:599-625 | SB0 marks its row, or row -1 on the last row of a pattern |
| `RowCommands.LoopGoesBack` | cheesetracker/trackercore/player_data_effects.cpp:599-625 | SBx goes back to the marked row unless its count has come to 1 |
| `RowCommands.LoopRepeats` | cheesetracker/trackercore/player_data_effects.cpp:599-625 | so it goes back exactly x times, falls through once, and starts over |
| `SongLength.SkippingAddsNoRows` | cheesetracker/trackercore/song.cpp:270-299 | the rows of the order walk add up to the rows of the playable orders before the first empty one |
| `SongLength.EndsAfter` | cheesetracker/trackercore/player_data_events.cpp:201-266 | from any row of any playable order: without jumps, loops and speed changes the end of the song is reported exactly speed * (rows left - 1) + 1 ticks later, and stays reported |
| `SongLength.SongLength` | cheesetracker/trackercore/player_data_events.cpp:189-300 | played from the start, the end is reported from tick speed * (R - 1) + 1 on, where R is the number of rows of the playable orders before the first empty one |
| `PlayerRuns.PlayToEnd` | cheesetracker/trackercore/player_data_events.cpp:189-300 | the player itself, run until it reports the end of a song without jumps, loops and changes of speed, stops after exactly speed * (R - 1) + 1 ticks |
| `SongLength.EffectsKeepEnd` | cheesetracker/trackercore/player_data_effects.cpp:767-844 | no effect reports or takes back the end of the song |
| `BackwardJumps.EndReportedIff` | cheesetracker/trackercore/player_data_effects.cpp:784-806 | a song whose first moving command is a B back to an order no later than its own reports its end after some number of ticks if and only if that command is on the last row of the song |
| `BackwardJumps.NeverReportsEnd` | cheesetracker/trackercore/player_data_effects.cpp:784-806 | the first half of it: if the jump is not on the last row of the song, no number of ticks reports the end |
| `BackwardJumps.LastRowReportsEnd` | cheesetracker/trackercore/player_data_events.cpp:230-262 | the step of the other half: on the last row of the song the end is reported, whatever commands the row has |
| `SongLength.PlaysForEverIff` | cheesetracker/trackercore/player_data_events.cpp:230-262 | a song without jumps, loops and speed changes plays existing rows for ever if and only if its order 0 is a pattern or the empty order; after the end it starts over at order 0 whatever that is |
| `Portamento.OneSlide` | cheesetracker/trackercore/player_data_effects.cpp:144-176 | one tick of the slide moves a period towards its target by four times the speed without passing it |
| `Portamento.GlideClosedForm` | cheesetracker/trackercore/player_data_effects.cpp:144-176 | over any run of ticks, with and without G and across rows: the distance to the target is what it was less what the run has travelled, or zero; it never changes sign, and the pitch stays when G ends |
| `Portamento.SteadyTravel` | cheesetracker/trackercore/player_data_effects.cpp:873-905 | with a constant parameter a run of k sliding ticks travels 4 * speed * k |
| `Portamento.NewSpeedTravels` | cheesetracker/trackercore/player_data_effects.cpp:873-905 | a new parameter is the speed from then on |
| `Portamento.Channel.PitchSlideToNote` | cheesetracker/trackercore/player_data_effects.cpp:144-176 | all layers slide as the one-layer function says, unsigned and 16-bit arithmetic included |
| `Portamento.Channel.ProcessTick` | cheesetracker/trackercore/player_data_effects.cpp:1165-1192 | a tick with or without G, including the memory of the speed and the return to the auxiliary period |
| `Levels.StaysInRangeIff` | cheesetracker/trackercore/player_data_effects.cpp:178-530 | every event keeps volumes, pannings, global volume and tempo in range if and only if it is not a volume byte of 125, 126 or 127; the methods of the channel promise the same of what they do in place |
| `Levels.EveryRunIsInRange` | cheesetracker/trackercore/player_data_effects.cpp:178-530 | over all runs without such bytes everything stays in range |
| `Levels.ColumnPanningIff` | cheesetracker/trackercore/player_data_notes.cpp:268-292 | the volume column sets a legal panning exactly from byte 128 on |
| `Levels.OutputNeedsNoClamp` | cheesetracker/trackercore/player_data_effects.cpp:1201-1217 | the output volume is between 0 and 256 before its clamp |
| `Levels.ResetIsInRange` | cheesetracker/trackercore/player_data.cpp:116-147 | the levels after a reset are in range for settings in range |
| `Levels.CutNoteSilencesIff` | cheesetracker/trackercore/player_data_notes.cpp:96-100 | cutting a note silences the channel if and only if all layers but the first were silent before |
| `Levels.Channel.CutNotes` | cheesetracker/trackercore/player_data_notes.cpp:96-100 | the loop over the layers silences the first one every time |
| `Levels.Channel.DoVolumeSlide` | cheesetracker/trackercore/player_data_effects.cpp:237-270 | the slide in every layer, on the ticks its nibbles choose |
| `Slides.VolumeOfTicks` | cheesetracker/trackercore/player_data_effects.cpp:237-270 | where a volume is after n ticks of a row with Dxy: min(64, v + x(n-1)), max(0, v - y(n-1)), or one step on the first tick |
| `Slides.RowOfVolumeSlide` | cheesetracker/trackercore/player_data_effects.cpp:237-270 | the same in every layer, and nothing else changes |
| `Slides.SlideIsMonotone` | cheesetracker/trackercore/player_data_effects.cpp:237-270 | on the way it never turns around |
| `Slides.PanOfTicks` | cheesetracker/trackercore/player_data_effects.cpp:203-235 | the panning after n ticks of Pxy: four times y to the right or four times x to the left on every tick, or once |
| `Slides.RowOfPanSlide` | cheesetracker/trackercore/player_data_effects.cpp:203-235 | the same in every layer; the channel follows the first |
| `Slides.SurroundSlides` | cheesetracker/trackercore/player_data_effects.cpp:203-235 | a surround panning slides from the center |
| `Slides.ChannelVolumeOfTicks` | cheesetracker/trackercore/player_data_effects.cpp:272-299 | the channel volume after n ticks of Nxy |
| `Slides.RowOfChannelVolumeSlide` | cheesetracker/trackercore/player_data_effects.cpp:272-299 | nothing else changes |
| `Slides.GlobalVolumeOfTicks` | cheesetracker/trackercore/player_data_effects.cpp:459-486 | the global volume after n ticks of Wxy |
| `Slides.RowOfGlobalVolumeSlide` | cheesetracker/trackercore/player_data_effects.cpp:459-486 | nothing else changes |
| `Slides.TempoOfTicks` | cheesetracker/trackercore/player_data_effects.cpp:1053-1084 | the tempo after n ticks of T |
| `Slides.RowOfTempoEffect` | cheesetracker/trackercore/player_data_effects.cpp:1053-1084 | nothing else changes |
| `Slides.RetriggerTable` | cheesetracker/trackercore/player_data_effects.cpp:394-457 | what each of the sixteen slides of Q does to a volume, in numbers |
| `Slides.WaveShape` | cheesetracker/trackercore/player_data_effects.cpp:301-347 | the four waves of the tremolo over a period |
| `Slides.SineShape` | cheesetracker/trackercore/player_data_effects.cpp:301-347 | the sine rises to 255 and falls symmetrically |
| `Slides.TremoloMoves` | cheesetracker/trackercore/player_data_effects.cpp:301-347 | the volume moves by the wave times the depth, divided by 128 |
| `Slides.SignedByteIs` | cheesetracker/trackercore/player_data_effects.cpp:301-347 | positions and counters wrap around as signed bytes |
| `Slides.FinePositions` | cheesetracker/trackercore/player_data_effects.cpp:577-588 | the sixteen panning positions rise from left through the center to right |
| `Slides.LayersAreSet` | cheesetracker/trackercore/player_data_effects.cpp:178-201 | what the effects that set a level make of a layer |
| `Slides.ControlsAreSet` | cheesetracker/trackercore/player_data_effects.cpp:985-1130 | what they make of the channel and the song |
| `Slides.NoteStarts` | cheesetracker/trackercore/player_data_notes.cpp:138-262 | the volume a note starts with, or keeps |
| `Slides.StartPanningIs` | cheesetracker/trackercore/player_data_notes.cpp:138-262 | the panning a note starts with: default, separation and chance |
| `Slides.ColumnPanningIs` | cheesetracker/trackercore/player_data_notes.cpp:268-292 | volume bytes from 128 to 192 set 255/64 of the distance from 128, rounded down |
| `Slides.OutputVolumeIs` | cheesetracker/trackercore/player_data_effects.cpp:1201-1217 | full volumes make 256, and the output is proportional to each factor |
| `Slides.ResetIs` | cheesetracker/trackercore/player_data.cpp:116-147 | the levels after a reset |
| `Levels.Channel.DoPanSlide` | cheesetracker/trackercore/player_data_effects.cpp:203-235 | the panning slide in every layer, and the channel's panning after it |
| `Levels.Channel.DoRetrig` | cheesetracker/trackercore/player_data_effects.cpp:394-457 | when a note is started again, by the counter and the remembered speed, and what that does to the volumes |
| `Levels.Channel.DoChannelVolumeSlide` | cheesetracker/trackercore/player_data_effects.cpp:272-299 | the channel volume slide |
| `Levels.Channel.DoTremolo` | cheesetracker/trackercore/player_data_effects.cpp:301-347 | the wave at the tremolo's position and depth moves the tick's volume, limited on the side it moves to; the position goes on as a signed byte |
| `Levels.Channel.DoTremor` | cheesetracker/trackercore/player_data_effects.cpp:178-201 | tremor plays some ticks and silences some, as the remembered parameter and the counter say |
| `Levels.Channel.EndOwnVolume` | cheesetracker/trackercore/player_data_effects.cpp:1194-1196 | without an effect of its own the tick's volume is the auxiliary one |
| `Levels.Channel.DoGlobalVolumeSlide` | cheesetracker/trackercore/player_data_effects.cpp:459-486 | the global volume slide |
| `Levels.Channel.DoPanbrello` | cheesetracker/trackercore/player_data_effects.cpp:488-530 | panbrello leaves surround layers alone |
| `Levels.Channel.DoTempo` | cheesetracker/trackercore/player_data_effects.cpp:1053-1084 | the tempo set on the first tick or slid on the others |
| `Levels.Channel.ProcessVolumeColumn` | cheesetracker/trackercore/player_data_notes.cpp:268-292 | the volume column sets volumes and pannings |
| `Levels.Channel.StartNotes` | cheesetracker/trackercore/player_data_notes.cpp:138-262 | the volume and panning a new note starts with |
| `Instruments.SavedInstrumentSoundsTheSame` | cheesetracker/loaders/loader_ct.cpp:41-140 | saving an instrument and loading it into a song with enough free slots: every note of every layer gets an equal sample, entries without a sample become empty, different samples get different slots, and no sample in use is overwritten, if all its samples are in use |
| `Instruments.EnoughSlotsIff` | cheesetracker/loaders/loader_ct.cpp:57-75 | loading finds a slot for every sample exactly when there are as many free slots as samples |
| `Instruments.DifferentSlotsIff` | cheesetracker/loaders/loader_ct.cpp:57-75 | different samples get different slots if and only if all of them but the last were in use when saved |
| `Instruments.SavedTablesFit` | cheesetracker/savers/saver_ct.cpp:283-312 | the saved tables keep their shape and fit into bytes |
| `Instruments.CopyInstrument` | cheesetracker/loaders/loader_ct.cpp:41-140 | the saver and the loader together, on instruments and sample slots: every note of every layer of the copy finds an equal sample, and the samples in use are left alone |
| `Instruments.BuildTable` | cheesetracker/savers/saver_ct.cpp:217-238 | the translation table lists every sample used once, in the order of first use |
| `Instruments.FlatIsInOrder` | cheesetracker/savers/saver_ct.cpp:217-238 | sample numbers are gathered layer by layer, and within a layer note by note |
| `Instruments.TableIsByFirstUse` | cheesetracker/savers/saver_ct.cpp:217-238 | of two samples in the table the one used first comes first |
| `Instruments.GetDdsFromInstrument` | cheesetracker/savers/saver_ct.cpp:210-341 | what is saved of an instrument, with renumbered samples or without samples |
| `Instruments.SetDdsToInstrument` | cheesetracker/loaders/loader_ct.cpp:41-140 | what loading makes of it, in the instrument and in the song's sample slots |
| `Instruments.LoadSamples` | cheesetracker/loaders/loader_ct.cpp:57-75 | every sample goes to the first slot not in use by then |
| `Instruments.SlotsAreTakenInTurn` | cheesetracker/loaders/loader_ct.cpp:57-75 | the samples of a file take the free slots in turn and leave none out |
| `Instruments.FindUnusedSampleSlot` | cheesetracker/trackercore/song.cpp:436-446 | the first slot not in use |
| `EditorColumns.InsertRow` | cheesetracker/interface_binds/editor_commands.cpp:232-246 | the rows below the cursor move down in place, the last one is lost; past the end nothing happens |
| `EditorColumns.DeleteRow` | cheesetracker/interface_binds/editor_commands.cpp:248-265 | the rows below the cursor move up in place and the last row is emptied; with the cursor past the end the last row is emptied all the same |
| `Blocks.DeleteUndoesInsert` | cheesetracker/interface_binds/editor_commands.cpp:232-265 | deleting after inserting restores all rows but the last, wherever the cursor is; inserting after deleting restores all but the one deleted |
| `EditorColumns.CopyColumn` | cheesetracker/interface_binds/editor_selection.cpp:323-341 | a clipboard column becomes the selected rows, in sight or past the end, whatever it held |
| `EditorColumns.PasteOverColumn` | cheesetracker/interface_binds/editor_selection.cpp:343-365 | a column pasted over, cut to the pattern's length |
| `EditorColumns.PasteMixColumn` | cheesetracker/interface_binds/editor_selection.cpp:367-394 | only empty cells take the pasted notes |
| `EditorColumns.PasteIntoColumn` | cheesetracker/interface_binds/editor_selection.cpp:396-425 | the overlapping move through the cache yields old[..y] + clip + old[y..], cut to length |
| `EditorColumns.ExpandColumn` | cheesetracker/interface_binds/editor_selection.cpp:514-544 | row b + k is found at b + 2k, with empty rows between: no row is overwritten before it is read, and no row past the end is read |
| `EditorColumns.ShrinkColumn` | cheesetracker/interface_binds/editor_selection.cpp:546-570 | row b + 2k is found at b + k, also where it was past the end, the rest of the selection is empty |
| `Sheets.CellAfterWrite` | cheesetracker/trackercore/pattern.cpp:163-193 | what is read after a write through a reference: in sight the note written, past the end of the pattern still the old cell, and the pattern is as it was |
| `Sheets.EditedInside` | cheesetracker/interface_binds/editor_selection.cpp:204-597 | an edit of a selection inside the pattern depends on nothing past its end |
| `Blocks.ExpandThenShrink` | cheesetracker/interface_binds/editor_selection.cpp:514-570 | expanding and shrinking one selection restores its first (e - b) / 2 rows and empties the rest of it |
| `Blocks.ShrinkThenExpand` | cheesetracker/interface_binds/editor_selection.cpp:514-570 | shrinking and expanding keeps every second row of the part that was not cleared |
| `Blocks.PasteUndoesCut` | cheesetracker/interface_binds/editor_selection.cpp:244-394 | cutting a block and pasting it back, overwriting or mixing, gives the column again |
| `Blocks.LowerUndoesRaiseIff` | cheesetracker/interface_binds/editor_selection.cpp:204-242 | lowering a raised block restores it if and only if it held no highest note |
| `Blocks.RampIsMonotone` | cheesetracker/interface_binds/editor_selection.cpp:262-317 | a ramp starts and ends with the values it is drawn between, stays between them and never turns back |
| `EditMeaning.OutsideStays` | cheesetracker/interface_binds/editor_selection.cpp:204-597 | cells outside the selection stay, those under an expanded block apart |
| `EditMeaning.ExpandMoves` | cheesetracker/interface_binds/editor_selection.cpp:514-544 | row k of the block moves to row 2k, with empty rows between |
| `EditMeaning.ShrinkMoves` | cheesetracker/interface_binds/editor_selection.cpp:546-570 | row 2k moves to row k, for the first half; the rest is empty |
| `EditMeaning.ChangesEach` | cheesetracker/interface_binds/editor_selection.cpp:204-597 | the other edits change each selected cell by itself |
| `EditMeaning.ParametersRamp` | cheesetracker/interface_binds/editor_selection.cpp:262-289 | each parameter is exactly on the way from the first to the last, rounded towards the first; nothing else of the cell changes |
| `EditMeaning.VolumesRamp` | cheesetracker/interface_binds/editor_selection.cpp:291-317 | the same for volumes if the first and the last are plain |
| `EditMeaning.RaisedAndLowered` | cheesetracker/trackercore/note.h:72-84 | raising and lowering n times goes n semitones, up to the highest note or down to the lowest |
| `EditMeaning.ScalingTakesPercent` | cheesetracker/interface_binds/editor_selection.cpp:427-467 | the percentage of a volume, rounded down and at most 64; a note without one counts as 64 |
| `EditMeaning.MasksAndStrays` | cheesetracker/interface_binds/editor_selection.cpp:469-597 | instruments are set where there are any, volumes everywhere; only volumes nothing plays are wiped |
| `EditMeaning.CopiedCells` | cheesetracker/interface_binds/editor_selection.cpp:323-341 | each cell of the clipboard is the selection's at the same place |
| `EditMeaning.PastedAt` | cheesetracker/interface_binds/editor_selection.cpp:343-425 | each cell after each of the three pastes |
| `EditMeaning.RowsMove` | cheesetracker/interface_binds/editor_commands.cpp:232-265 | each cell after inserting and after deleting a row |
| `EditorColumns.RampVolumesColumn` | cheesetracker/interface_binds/editor_selection.cpp:291-317 | the volume ramp of one column, only between plain volumes |
| `EditorColumns.RampParametersColumn` | cheesetracker/interface_binds/editor_selection.cpp:262-289 | the parameter ramp of one column |
| `PatternEditor.Editor.EditSelection` | cheesetracker/interface_binds/editor_selection.cpp:204-597 | the pattern afterwards is the edited one: the edit reaches exactly the selected columns and rows in sight; it may read rows past the end, which a stale selection covers |
| `PatternEditor.Editor.SelectionCopy` | cheesetracker/interface_binds/editor_selection.cpp:323-341 | the clipboard takes the size of the selection and its cells; an empty selection resizes it all the same |
| `Sheets.ClipIsTheSelection` | cheesetracker/interface_binds/editor_selection.cpp:323-341 | after copying, the columns that a paste uses are exactly the selected cells: nothing the clipboard held before is in sight |
| `PatternEditor.Editor.SelectionZap` | cheesetracker/interface_binds/editor_selection.cpp:244-260 | the clipboard is the selection as it was, the selection is empty, the pattern was saved for undo |
| `PatternEditor.Editor.SelectionPasteOverwrite` | cheesetracker/interface_binds/editor_selection.cpp:343-365 | the clipboard's columns at the cursor, up to the last column of the pattern; other columns stay |
| `PatternEditor.Editor.SelectionPasteMix` | cheesetracker/interface_binds/editor_selection.cpp:367-394 | the same for mixing |
| `PatternEditor.Editor.SelectionPasteInsert` | cheesetracker/interface_binds/editor_selection.cpp:396-425 | the same for inserting |
| `PatternEditor.Editor.SelectionRaise` | cheesetracker/interface_binds/editor_selection.cpp:204-223 | raises the selection after saving it for undo, or the note at the cursor without saving |
| `PatternEditor.Editor.SelectionLower` | cheesetracker/interface_binds/editor_selection.cpp:225-242 | the same for lowering |
| `PatternEditor.Editor.SelectionVolumeScale` | cheesetracker/interface_binds/editor_selection.cpp:427-467 | volumes scaled in an active selection of two rows or more |
| `PatternEditor.Editor.SelectionExpand` | cheesetracker/interface_binds/editor_selection.cpp:514-544 | expands an active selection of two rows or more |
| `PatternEditor.Editor.SelectionShrink` | cheesetracker/interface_binds/editor_selection.cpp:546-570 | shrinks an active selection of two rows or more |
| `PatternEditor.Editor.SelectionParameterRamp` | cheesetracker/interface_binds/editor_selection.cpp:262-289 | ramps the parameters of an active selection of two rows or more |
| `PatternEditor.Editor.SelectionVolumeRamp` | cheesetracker/interface_binds/editor_selection.cpp:291-317 | ramps its volumes |
| `PatternEditor.Editor.SelectionSetInstrumentMask` | cheesetracker/interface_binds/editor_selection.cpp:469-490 | sets its instruments where there are any |
| `PatternEditor.Editor.SelectionSetVolumeMask` | cheesetracker/interface_binds/editor_selection.cpp:492-512 | sets its volumes |
| `PatternEditor.Editor.SelectionWipeStrayVolumes` | cheesetracker/interface_binds/editor_selection.cpp:572-597 | empties its volumes where no note or instrument uses them |
| `PatternEditor.Editor.PressKeyAtCursor` | cheesetracker/interface_binds/editor_insertion.cpp:285-305 | every key on every place of a cell makes exactly the entry of `FieldEntry.KeyEntry`, or none; the cursor and the selection that follows it under shift move on |
| `FieldEntry.KeysAreEnterable` | cheesetracker/interface_binds/editor_insertion.cpp:74-305 | whatever key is pressed, only what a file can hold is entered; the note is 12 * octave + increment, or the highest one |
| `TypedFields.CommandIsTyped` | cheesetracker/interface_binds/editor_insertion.cpp:247-263 | a letter enters the command it names, which is the one the player plays by that letter |
| `TypedFields.InstrumentIsTyped` | cheesetracker/interface_binds/editor_insertion.cpp:102-143 | two digits give the instrument of that number; 00 gives none |
| `TypedFields.ParameterIsTyped` | cheesetracker/interface_binds/editor_insertion.cpp:265-282 | two hexadecimal digits give the parameter |
| `TypedFields.OctaveIsTyped` | cheesetracker/interface_binds/editor_insertion.cpp:95-100 | a digit gives the octave and keeps the tone |
| `TypedFields.VolumeIsTyped` | cheesetracker/interface_binds/editor_insertion.cpp:149-244 | two digits give the volume or panning typed if and only if that is at most 64 and the old byte was none of 125 to 127; a first digit above 6 counts as 6 |
| `TypedFields.LetterIsTyped` | cheesetracker/interface_binds/editor_insertion.cpp:149-244 | a letter and a digit give that volume command if and only if the old byte was none of 125 to 127 |
| `TypedFields.DigitsKeepEachOther` | cheesetracker/interface_binds/editor_insertion.cpp:149-244 | one digit of a plain volume leaves the other as it was, as far as 64 allows |
| `TypedFields.NoteIsTyped` | cheesetracker/interface_binds/editor_insertion.cpp:74-93 | a key with a note gives the note 12 * octave + increment, or the highest one |
| `TypedFields.PlacesHaveTheirField` | cheesetracker/interface_binds/editor_commands.cpp:270-329 | what is cleared at a place of the cursor is what is typed there |
| `TypedFields.MasksCopyTheCell` | cheesetracker/interface_binds/editor_insertion.cpp:48-381 | reading the masks from a cell and entering its note makes the same cell elsewhere |
| `TypedFields.FieldIsCopied` | cheesetracker/interface_binds/editor_insertion.cpp:321-381 | reading and writing one mask copies that field and no other |
| `TypedFields.ClearUndoesEntryIff` | cheesetracker/interface_binds/editor_commands.cpp:285-329 | clearing an entered note empties the cell again if and only if no parameter came with it |
| `TypedFields.FieldIsCleared` | cheesetracker/interface_binds/editor_commands.cpp:285-329 | clearing a field empties that field and its mask |
| `TypedFields.SwitchesTwice` | cheesetracker/interface_binds/editor_insertion.cpp:308-388 | switches put everything back when used twice; note off and note cut |
| `TypedFields.PastTheEndIsReading` | cheesetracker/interface_binds/editor_insertion.cpp:48-381 | past the end of the pattern, entries remember what reading the cell would |
| `TypingRuns.NotesFillTheColumn` | cheesetracker/interface_binds/editor_insertion.cpp:48-72 | notes typed one after the other fill a column at the cursor's spacing, and no other cell changes |
| `TypingRuns.TypeNotes` | cheesetracker/interface_binds/editor_insertion.cpp:48-72 | the same on the editor itself |
| `PatternEditor.Editor.InsertNoteValueAtCursor` | cheesetracker/interface_binds/editor_insertion.cpp:48-72 | a note takes the remembered fields whose masks are on; the cursor moves down |
| `PatternEditor.Editor.InsertInstrumentAtCursor` | cheesetracker/interface_binds/editor_insertion.cpp:102-143 | one decimal digit of the instrument as shown; the cursor goes to the second digit, or down and back to the first |
| `PatternEditor.Editor.InsertNoteAtCursor` | cheesetracker/interface_binds/editor_insertion.cpp:74-93 | a key with a note enters the note of `FieldEntry.KeyNote`, another key nothing |
| `PatternEditor.Editor.InsertOctaveAtCursor` | cheesetracker/interface_binds/editor_insertion.cpp:95-100 | the octave of a note, if there is one; otherwise the cursor stays |
| `PatternEditor.Editor.InsertCommandAtCursor` | cheesetracker/interface_binds/editor_insertion.cpp:247-263 | the command, remembered with its parameter, and the move down |
| `PatternEditor.Editor.InsertParameterAtCursorField1` | cheesetracker/interface_binds/editor_insertion.cpp:265-271 | the first hexadecimal digit of the parameter, and the move to the second |
| `PatternEditor.Editor.InsertParameterAtCursorField2` | cheesetracker/interface_binds/editor_insertion.cpp:274-282 | the second digit, and the move down and back to the first |
| `PatternEditor.Editor.PressNoteOffAtCursor` | cheesetracker/interface_binds/editor_insertion.cpp:308-319 | note off and the move down, or the switch between volume and panning |
| `PatternEditor.Editor.PressNoteCutAtCursor` | cheesetracker/interface_binds/editor_insertion.cpp:384-388 | note cut, and the move down |
| `PatternEditor.Editor.PressMaskWriteCursor` | cheesetracker/interface_binds/editor_insertion.cpp:321-351 | the remembered value goes to the field, and the cursor down |
| `PatternEditor.Editor.GetMaskFromCursor` | cheesetracker/interface_binds/editor_insertion.cpp:353-381 | the field goes to the remembered value; no cell changes although some fields are read through the note reference, which past the end is empty |
| `PatternEditor.Editor.InsertVolumeAtCursorField1` | cheesetracker/interface_binds/editor_insertion.cpp:149-197 | the first place of the volume: a digit or a command letter, and the move to the second; another letter does nothing |
| `PatternEditor.Editor.InsertVolumeAtCursorField2` | cheesetracker/interface_binds/editor_insertion.cpp:199-244 | the second place of the volume, and the move down and back to the first |
| `PatternEditor.Editor.ClearFieldAtCursor` | cheesetracker/interface_binds/editor_commands.cpp:285-329 | clearing a field, what is remembered of it, and the move down |
| `PatternEditor.Editor.ToggleMaskAtCursor` | cheesetracker/interface_binds/editor_commands.cpp:270-283 | the mask of the field is switched |
| `PatternEditor.Editor.CursorMoveDown` | cheesetracker/interface_binds/editor_commands.cpp:58-75 | down by an amount, at most to the last row; a cursor past the end comes back to it |
| `PatternEditor.Editor.CursorMoveFieldRight` | cheesetracker/interface_binds/editor_commands.cpp:95-116 | to the next place of a cell, or the next column; with shift held a whole column |
| `PatternEditor.Editor.CursorMoveFieldLeft` | cheesetracker/interface_binds/editor_commands.cpp:118-138 | the way back |
| `PatternEditor.Editor.ShiftSelectionUpdate` | cheesetracker/interface_binds/editor_selection.cpp:184-195 | with shift held the selection reaches from where shift was pressed to the cursor, normalized |
| `Cursors.EntryMovesInside` | cheesetracker/interface_binds/editor_insertion.cpp:48-403 | no entry takes the cursor off the columns, or past the end of a pattern it was in |
| `Cursors.FieldLeftUndoesRightIff` | cheesetracker/interface_binds/editor_commands.cpp:95-138 | the two moves undo each other if and only if the cursor is not at the outermost place |
| `Cursors.TwoDigitsAdvance` | cheesetracker/interface_binds/editor_insertion.cpp:102-143 | typing both digits brings the cursor back to the first, one step further down |
| `Cursors.NormalizedIsStable` | cheesetracker/interface_binds/editor_selection.cpp:40-64 | a normalized selection has its corners in order and lies in the pattern, is empty if and only if it lay wholly past the end, and is not changed by normalizing again |
| `Cursors.NormalizedHolds` | cheesetracker/interface_binds/editor_selection.cpp:40-64 | a normalized selection holds exactly the cells between its corners that are in the pattern |
| `Cursors.CursorGoesAlong` | cheesetracker/interface_binds/editor_commands.cpp:95-138 | without shift the cursor goes along all places of all columns one by one, up to the first and the last |
| `Cursors.ShiftGoesByColumns` | cheesetracker/interface_binds/editor_commands.cpp:77-138 | with shift it goes by columns |
| `Cursors.EntryMoves` | cheesetracker/interface_binds/editor_insertion.cpp:48-403 | where each entry takes the cursor |
| `Cursors.ShiftSelects` | cheesetracker/interface_binds/editor_selection.cpp:184-195 | with shift held, exactly the cells between where it was pressed and the cursor are selected |
| `PatternEditor.Editor.CursorInsert` | cheesetracker/interface_binds/editor_commands.cpp:232-246 | a row inserted in the cursor's column, without saving for undo |
| `PatternEditor.Editor.CursorDelete` | cheesetracker/interface_binds/editor_commands.cpp:248-265 | a row deleted in the cursor's column, without saving for undo; past the end the last row is emptied |
| `PatternEditor.Editor.UndoAt` | cheesetracker/interface_binds/editor_undo.cpp:71-84 | undo puts an entry in place of the current pattern, whichever it was saved from, and pushes the pattern it replaces unless its description repeats; the other patterns stay, and so do cursor and selection |
| `PatternEditor.Editor.CursorGotoPattern` | cheesetracker/interface_binds/editor_commands.cpp:220-230 | another pattern becomes the current one and is pushed under the number of the one before; the selection is normalized for it, the cursor stays |
| `PatternEditor.Editor.SetCurrentPattern` | cheesetracker/interface_binds/editor.h:276-276 | another pattern becomes the current one, and nothing else changes |
| `PatternEditor.Editor.NormalizeSelection` | cheesetracker/interface_binds/editor_selection.cpp:40-64 | the corners of the selection in order, its last row inside the pattern |
| `PatternEditor.Editor.SetInstrumentMaskValue` | cheesetracker/interface_binds/editor.cpp:107-110 | any instrument number is remembered |
| `EditorUndo.UndoList.PushPattern` | cheesetracker/interface_binds/editor_undo.cpp:40-69 | the newest entry is a copy of the pattern in storage of its own; a repeated description adds nothing; the oldest of ten entries goes |
| `EditorUndo.UndoList.UndoIndex` | cheesetracker/interface_binds/editor_undo.cpp:71-84 | pattern and list after undoing any entry |
| `EditorUndo.ListIsNewestDistinct` | cheesetracker/interface_binds/editor_undo.cpp:40-69 | after any run of pushes the list holds the ten newest of those whose description differs from the one before |
| `EditorUndo.PatternNames` | cheesetracker/interface_binds/editor_commands.cpp:224-227 | how a pattern is named when it is left |
| `EditorUndo.DecimalIsRead` | cheesetracker/interface_binds/editor_commands.cpp:224-227 | its number is printed in decimal digits that read back as the number |
| `EditorUndo.UndoToggles` | cheesetracker/interface_binds/editor_undo.cpp:71-84 | undoing the newest entry n times gives the current pattern for even n and the saved one for odd n |
| `EditorUndo.UndoSkipsRepeats` | cheesetracker/interface_binds/editor_undo.cpp:40-84 | after any number of edits of one kind, one undo gives the pattern from before the first of them |
| `EditorUndo.UndoSavesIff` | cheesetracker/interface_binds/editor_undo.cpp:71-84 | undoing entry k saves the replaced pattern as the newest entry if and only if the newest one does not already have the description that would get, or is that very entry; otherwise the list stays as it is |
| `EditorUndo.UndoLosesThePattern` | cheesetracker/interface_binds/editor_undo.cpp:71-84 | a list of two entries where undoing the second loses the pattern as it is |
| `EditorUndo.UndoRestoresIff` | cheesetracker/interface_binds/editor_undo.cpp:71-84 | an entry restores the pattern it was saved from if and only if that is the current one, or has not changed since |
| `FieldEntry.EntryKeepsLegal` | cheesetracker/interface_binds/editor_insertion.cpp:48-403 | everything that can be entered keeps the cell and the remembered values within what a file can hold |
| `FieldEntry.MasksPastAreLegal` | cheesetracker/interface_binds/editor_insertion.cpp:48-403 | with the cursor past the end nothing is written, but what is remembered is read there, and stays legal |
| `FieldEntry.InstrumentMaskLegalIff` | cheesetracker/interface_binds/editor.cpp:107-110 | the instrument mask accepts values up to 199; the next note is legal if and only if the mask is below 99 or empty |
| `FieldEntry.UnitsRange` | cheesetracker/interface_binds/editor_insertion.cpp:149-180 | the second digit of any volume byte, those between the kinds included, where it wraps below zero |
| `EditorRuns.ScalingKeepsLegal` | cheesetracker/interface_binds/editor_selection.cpp:427-467 | scaling by a percentage of at least 0 keeps volumes legal |
| `EditorRuns.ScalingLegalIff` | cheesetracker/interface_binds/editor_selection.cpp:427-467 | for percentages from -100 on: scaling keeps every legal volume legal if and only if the percentage is not negative |
| `EditorRuns.StepIsLegal` | cheesetracker/interface_binds/editor_selection.cpp:204-597 | every editor command, anywhere in the columns and at any row, and every change of pattern or of any pattern's length, keeps all patterns, the clipboard, the remembered values and the undo list legal |
| `Sheets.SetLengthResizes` | cheesetracker/trackercore/pattern.cpp:196-250 | a new length keeps, hides, shows again or loses cells, and makes none |
| `EditorRuns.EditedPatternsSurviveSaving` | cheesetracker/savers/saver_ct.cpp:42-208 | every pattern of every song made by any run of editor commands from empty patterns, with cursor and selection past the end too, comes back unchanged from a .ct file |
| `EditorSessions.EditStep` | cheesetracker/interface_binds/editor_selection.cpp:204-597 | simulation: each block command of the editor, in place, is the session's command on its patterns and undo list |
| `EditorSessions.TypeStep` | cheesetracker/interface_binds/editor_insertion.cpp:48-403 | each entry at the cursor likewise |
| `EditorSessions.MaskStep` | cheesetracker/interface_binds/editor_commands.cpp:270-283 | the masks likewise |
| `EditorSessions.CopyStep` | cheesetracker/interface_binds/editor_selection.cpp:323-341 | copying likewise |
| `EditorSessions.CutStep` | cheesetracker/interface_binds/editor_selection.cpp:244-260 | cutting likewise |
| `EditorSessions.PasteStep` | cheesetracker/interface_binds/editor_selection.cpp:343-425 | pasting likewise, in all three ways |
| `EditorSessions.InsertStep` | cheesetracker/interface_binds/editor_commands.cpp:232-246 | inserting a row likewise |
| `EditorSessions.DeleteStep` | cheesetracker/interface_binds/editor_commands.cpp:248-265 | deleting a row likewise |
| `EditorSessions.UndoStep` | cheesetracker/interface_binds/editor_undo.cpp:71-84 | undo likewise, in whichever pattern is the current one |
| `EditorSessions.GotoStep` | cheesetracker/interface_binds/editor_commands.cpp:220-230 | changing the pattern likewise |
| `EditorSessions.ShowStep` | cheesetracker/interface_binds/editor.h:276-276 | showing another pattern likewise |
| `EditorSessions.SaveStep` | cheesetracker/interface_binds/editor_undo.cpp:35-38 | saving the pattern for undo likewise |
| `EditorSessions.ResizeStep` | cheesetracker/interface__QT/pattern_edit_widget.cpp:196-203 | a new length of any pattern likewise |
| `EditorSessions.SetPatternLen` | cheesetracker/interface__QT/pattern_edit_widget.cpp:183-210 | the loop that resizes the current pattern and the next ones is the session of their new lengths, as far as there are patterns |
| `EditorSessions.Run` | cheesetracker/interface_binds/editor_selection.cpp:204-597 | any sequence of commands, run on the editor in place, leads from the patterns, clipboard, remembered values and undo list before it to those after it as the session does |
| `EditedSongs.EditSaveAndLoad` | cheesetracker/savers/saver_ct.cpp:42-208 | from the start: a new song is edited in place by any commands, a pattern of it saved by the .ct saver and loaded by the loader, and the loaded pattern is the edited one |

## Left out

- BitReader.BlockReader.Read: requires at most 30 bits, which the original's shifts can mask, and that they are left; past the end of a block the original reads dwords it does not own.
- SampleLoader.Loader.LoadCompressed: requires that no block runs out of bits or names a width beyond the widest mode, where the original's shifts are undefined; after a file error it does not say what was written so far.
- The error flag of the file reader: the end of the file is the only error modelled.
- PatternStore.Pattern.ClearAll: does not model `note_count`, which the original never resets, and which nothing here reads.
- PatternUnpacker.UnpackCtPattern: requires a block as long as its rows need; on a shorter one the original asserts or reads past the array.
- PatternUnpacker.UnpackItPattern: likewise requires the pattern's data to be in the file.
- PlayPosition.EveryTickIsSafe: excludes pattern loops (SBx); with them safety is a question of the marks, which `MarkedLoops` answers. A row outside its pattern is not modelled, so a run stops before it.
- MarkedLoops.WellMarkedSongsAreSafe: a condition on the song that is enough; whether an ill-marked loop is ever reached depends on the whole run, and `PatternLoops.TickSafeIff` decides it row by row.
- BackwardJumps.EndReportedIff: songs where a C command or a pattern loop comes before the jump are not covered.
- PlayerEngine.Player.GotoPreviousOrder: requires an order that is on the walk; for any other one the original does not end.
- PlayerEngine.Player.RunEffects: the row check of a C command counts a pattern number that does not exist as a pattern without rows, where the original asserts.
- Portamento.GlideClosedForm: assumes periods below 65536, as the period tables give them, and no other effect on the periods in the same run.
- Levels.EveryRunIsInRange: random numbers and remembered parameters are arbitrary values in their ranges; the single assignments of M, V, X, S8x, S9x and SCx are in the abstract events only.
- Levels.Channel.DoPanbrello: the wave, its depth and its position are one arbitrary amount, since the result is clamped.
- Levels.Channel.DoRetrig: the kick that restarts the sample.
- Levels.Channel.StartNotes: the settings of the sample and the instrument, and the random numbers, are parameters.
- Portamento.Channel.ProcessTick: the other effects on the periods, and the two further commands that slide to a note (L and the volume column).
- EditorRuns.ScalingLegalIff: percentages below -100, some of which happen to wrap around to legal volumes only; the dialogs offer 0 to 200.
- EditorRuns.EditedPatternsSurviveSaving: entered notes are below 120, instrument masks below 99 or empty, and volumes scaled by percentages from 0 on, as the dialogs give them.
- Instruments.SetDdsToInstrument: without a free slot it reports failure, where the original writes to a slot before the first; only the sample tables and samples of an instrument are modelled, and a sample's name, settings and data are opaque.
- Instruments.GetDdsFromInstrument: the note table, envelopes and other fields of an instrument are copied one by one in the original and left out.
- PatternEditor.Editor.PressKeyAtCursor: the keyboard layout, which gives the note of a key, and the octave are parameters.
- EditorSessions.Run: a command names the cursor or the selection it works at; between commands they are set, not moved, and redrawing is left out.
- File handles, compression of .ct files and the packed variables they store: a file is a sequence of bytes, a packed array a sequence of integers.
- Voices, mixing, envelopes, filters, new note actions, vibrato, arpeggio and plain pitch slides.
- Locks: everything is single-threaded.
- Order list editing, the other ways of moving the cursor and of marking blocks, sample editing, the XM, S3M and WAV loaders and the Qt interface: none of the modelled parts uses them.
