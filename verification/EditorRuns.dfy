/** Whole sessions of the editor, on all patterns of a song: whatever is made with it survives a .ct file. */
module EditorRuns {
  import opened BitMath
  import opened Division
  import opened Notes
  import opened PatternStore
  import opened Blocks
  import opened Sheets
  import opened EditorUndo
  import opened FieldEntry
  import opened Cursors
  import opened PatternCodec
  import opened CodecRoundTrip
  import opened Orders

  datatype BlockCommand =
    | Raise
    | Lower
    | ScaleVolumes(percent: int)
    | SetInstrumentMask
    | SetVolumeMask
    | WipeStrayVolumes
    | ExpandBlock
    | ShrinkBlock
    | RampParameterColumn
    | RampVolumeColumn

  datatype Command =
    | TypeAt(x: int, y: int, entry: Entry)
    | EditArea(area: Area, block: BlockCommand)
    | CopyArea(area: Area)
    | CutArea(area: Area)
    | PasteAt(x: int, y: int, paste: Paste)
    | InsertRowAt(x: int, y: int)
    | DeleteRowAt(x: int, y: int)
    | UndoEntry(k: int)
    | GotoPattern(p: int)
    | ShowPattern(p: int)
    | SavePattern(reason: string)
    | Resize(p: int, length: u8)

  /** The patterns and the one being edited, the clipboard, the remembered values and the undo list. */
  datatype Work = Work(
    sheets: seq<Sheet>, current: int, clip: Sheet, clipWidth: int, masks: Masks, saved: History<Sheet>)

  ghost function Now(w: Work): Sheet
    requires 0 <= w.current < |w.sheets|
  {
    w.sheets[w.current]
  }

  ghost function WithSheet(w: Work, s: Sheet): Work
    requires 0 <= w.current < |w.sheets|
  {
    w.(sheets := w.sheets[w.current := s])
  }

  function EditOf(block: BlockCommand, m: Masks): Edit {
    match block
    case Raise => Change(RaisedNote)
    case Lower => Change(LoweredNote)
    case ScaleVolumes(percent) => Change(Scaling(percent))
    case SetInstrumentMask => Change(InstrumentMasking(m.lastInstrument))
    case SetVolumeMask => Change(VolumeMasking(m.lastVolume))
    case WipeStrayVolumes => Change(StrayVolumeWiped)
    case ExpandBlock => Expand
    case ShrinkBlock => Shrink
    case RampParameterColumn => RampParameters
    case RampVolumeColumn => RampVolumes
  }

  /** Only notes can be raised or lowered in a single row. */
  predicate Applies(block: BlockCommand, area: Area) {
    block.Raise? || block.Lower? || area.firstRow < area.lastRow
  }

  function Reason(block: BlockCommand): string {
    match block
    case Raise => "Raise notes on selection"
    case Lower => "Lower notes on selection"
    case ScaleVolumes(_) => "Selection volume scale"
    case SetInstrumentMask => "Selection set instrument mask"
    case SetVolumeMask => "Selection set volume mask"
    case WipeStrayVolumes => "Selection wipe stray volumes"
    case ExpandBlock => "Selection Expand x 2"
    case ShrinkBlock => "Selection Shrink x 2"
    case RampParameterColumn => "Selection ramp parameter column"
    case RampVolumeColumn => "Selection ramp volume column"
  }

  function PasteReason(paste: Paste): string {
    match paste
    case Overwrite => "Paste (overwriting)"
    case Mix => "Paste (mix)"
    case Insert => "Paste (inserting)"
  }

  ghost function Saved(w: Work, reason: string): (v: Work)
    requires 0 <= w.current < |w.sheets|
    ensures v == w.(saved := v.saved)
  {
    w.(saved := Pushed(w.saved, Snapshot(reason, w.current, Now(w))))
  }

  /**
   * What can be asked of the editor: anything within the columns of a pattern. Rows past its end are allowed, since the
   * cursor and the selection stay when the pattern changes under them.
   */
  predicate Possible(command: Command) {
    match command
    case TypeAt(x, y, entry) => CursorOk(x, y) && Enterable(entry)
    case EditArea(area, block) => AreaOk(area) && (block.ScaleVolumes? ==> 0 <= block.percent)
    case CopyArea(area) => AreaOk(area)
    case CutArea(area) => AreaOk(area)
    case PasteAt(x, y, _) => CursorOk(x, y)
    case InsertRowAt(x, y) => CursorOk(x, y)
    case DeleteRowAt(x, y) => CursorOk(x, y)
    case UndoEntry(_) => true
    case GotoPattern(_) => true
    case ShowPattern(p) => 0 <= p < MAX_PATTERNS
    case SavePattern(_) => true
    case Resize(p, _) => 0 <= p < MAX_PATTERNS
  }

  predicate CursorOk(x: int, y: int) {
    0 <= x < PATTERN_WIDTH && 0 <= y
  }

  function Width(area: Area): int {
    area.lastColumn - area.firstColumn + 1
  }

  ghost function AfterTyping(w: Work, x: int, y: int, entry: Entry): Work
    requires 0 <= w.current < |w.sheets|
  {
    var slot := TypedSlot(Now(w), x, y, w.masks, entry);
    WithSheet(w, WithCell(Now(w), x, y, slot.cell)).(masks := slot.masks)
  }

  ghost function AfterEdit(w: Work, area: Area, block: BlockCommand): Work
    requires 0 <= w.current < |w.sheets|
  {
    var v := Saved(w, Reason(block));
    if Applies(block, area) then WithSheet(v, EditedSheet(Now(w), area, EditOf(block, w.masks))) else v
  }

  ghost function AfterPaste(w: Work, x: int, y: nat, paste: Paste): Work
    requires 0 <= w.current < |w.sheets|
  {
    WithSheet(Saved(w, PasteReason(paste)), PastedSheet(Now(w), ClipColumns(w.clip, w.clipWidth), x, y, paste))
  }

  ghost function AfterUndo(w: Work, k: int): Work
    requires 0 <= w.current < |w.sheets|
  {
    var u := UndoneAt(w.saved, Now(w), k);
    WithSheet(w, u.view).(saved := u.history)
  }

  /** The command leads from one state of the work to the other. Only new lengths leave a choice. */
  ghost predicate Does(w: Work, command: Command, v: Work) {
    && Possible(command) && 0 <= w.current < |w.sheets| == MAX_PATTERNS
    && match command
       case TypeAt(x, y, entry) => v == AfterTyping(w, x, y, entry)
       case EditArea(area, block) => v == AfterEdit(w, area, block)
       case CopyArea(area) =>
         Copies(w.clip, Now(w), area, v.clip) && v == w.(clip := v.clip, clipWidth := Width(area))
       case CutArea(area) =>
         && Copies(w.clip, Now(w), area, v.clip)
         && v == WithSheet(Saved(w, "Selection Zap"), EditedSheet(Now(w), area, Change(Cleared)))
                 .(clip := v.clip, clipWidth := Width(area))
       case PasteAt(x, y, paste) => v == AfterPaste(w, x, y, paste)
       case InsertRowAt(x, y) => v == WithSheet(w, InsertedSheet(Now(w), x, y))
       case DeleteRowAt(x, y) => v == WithSheet(w, DeletedSheet(Now(w), x, y))
       case UndoEntry(k) => v == AfterUndo(w, k)
       case GotoPattern(p) =>
         v == if 0 <= p < MAX_PATTERNS then Saved(w.(current := p), PatternName(w.current)) else w
       case ShowPattern(p) => v == w.(current := p)
       case SavePattern(reason) => v == Saved(w, reason)
       case Resize(p, length) =>
         && |v.sheets| == MAX_PATTERNS && Resizes(w.sheets[p], length, v.sheets[p])
         && v == w.(sheets := w.sheets[p := v.sheets[p]])
  }

  /** The commands, one after the other, lead from one state of the work to the other. */
  ghost predicate Leads(w: Work, commands: seq<Command>, v: Work)
    decreases |commands|
  {
    if |commands| == 0 then v == w
    else
      var before, last := commands[..|commands| - 1], commands[|commands| - 1];
      exists u :: Leads(w, before, u) && Does(u, last, v)
  }

  predicate LegalRows(col: Rows) {
    forall r | 0 <= r < |col| :: Legal(col[r])
  }

  predicate LegalGrid(g: Grid, rows: nat) {
    Shape(g, rows) && forall c | 0 <= c < |g| :: LegalRows(g[c])
  }

  ghost predicate LegalSheet(s: Sheet) {
    && 1 <= s.rows <= MAX_PATTERN_LENGTH && LegalGrid(s.grid, s.rows)
    && forall k | k in s.hidden :: Legal(s.hidden[k])
  }

  ghost predicate LegalWork(w: Work) {
    && 0 <= w.current < |w.sheets| == MAX_PATTERNS
    && (forall p | 0 <= p < |w.sheets| :: LegalSheet(w.sheets[p]))
    && LegalSheet(w.clip)
    && LegalMasks(w.masks)
    && (forall k | 0 <= k < |w.saved| :: LegalSheet(w.saved[k].view))
  }

  ghost predicate KeepsLegal(change: Note -> Note) {
    forall n | Legal(n) :: Legal(change(n))
  }

  lemma ScalingKeepsLegal(n: Note, percent: int)
    requires Legal(n) && 0 <= percent
    ensures Legal(ScaledNote(n, percent))
  {
    hide TruncatingDiv;
    var volume := if n.volume == EMPTY_FIELD then 64 else n.volume as int;
    assert 0 <= volume * percent;
    SmallQuotient(volume * percent, 100);
  }

  /** Some volume is scaled to -2, which wraps around to 254: no volume, and no empty field either. */
  lemma NegativeScaling(percent: int) returns (n: Note)
    requires -100 <= percent < 0
    ensures Legal(n) && !Legal(ScaledNote(n, percent))
  {
    var m := -percent;
    var volume := (199 + m) / m;
    DivisionBounds(199 + m, m);
    DivisionAtMost(199 + m, m, 200) by { RoundedUp(m); }
    assert 200 <= volume * m <= 299;
    n := Note(0, 0, volume, 0, 0);
    assert volume * percent == -(volume * m);
  }

  lemma RoundedUp(m: nat)
    requires 1 <= m
    ensures 199 + m <= 200 * m
  {
  }

  /** Scaling keeps volumes legal exactly for the percentages from 0 on. */
  lemma ScalingLegalIff(percent: int)
    requires -100 <= percent
    ensures (forall n | Legal(n) :: Legal(ScaledNote(n, percent))) <==> 0 <= percent
  {
    if percent < 0 {
      var n := NegativeScaling(percent);
      assert Legal(n) && !Legal(ScaledNote(n, percent));
    } else {
      forall n | Legal(n)
        ensures Legal(ScaledNote(n, percent))
      {
        ScalingKeepsLegal(n, percent);
      }
    }
  }

  lemma BlocksKeepLegal(block: BlockCommand, m: Masks)
    requires LegalMasks(m) && (block.ScaleVolumes? ==> 0 <= block.percent)
    ensures var edit := EditOf(block, m); edit.Change? ==> KeepsLegal(edit.change)
  {
    hide ScaledNote;
    var edit := EditOf(block, m);
    if edit.Change? {
      forall n | Legal(n)
        ensures Legal(edit.change(n))
      {
        if block.ScaleVolumes? {
          ScalingKeepsLegal(n, block.percent);
        }
      }
    }
  }

  lemma RampKeepsLegal(col: Rows, b: int, e: int)
    requires LegalRows(col) && 0 <= b < e < |col|
    ensures LegalRows(RampedVolumes(col, b, e))
  {
    hide RampValue;
    var ramped := RampedVolumes(col, b, e);
    forall r | 0 <= r < |col|
      ensures Legal(ramped[r])
    {
      if Selected(b, e, r) && col[b].volume < 65 && col[e].volume < 65 {
        RampIsMonotone(col[b].volume, col[e].volume, r - b, r - b, e - b);
      }
    }
  }

  lemma EditKeepsLegal(col: Rows, edit: Edit, b: int, e: int)
    requires LegalRows(col) && (edit.Change? ==> KeepsLegal(edit.change))
    ensures LegalRows(Edited(col, edit, b, e)) && |Edited(col, edit, b, e)| == |col|
  {
    if 0 <= b < e < |col| && edit.RampVolumes? {
      RampKeepsLegal(col, b, e);
    }
  }

  lemma PasteKeepsLegal(col: Rows, clip: Rows, y: nat, paste: Paste)
    requires LegalRows(col) && LegalRows(clip)
    ensures LegalRows(Pasted(col, clip, y, paste))
  {
    hide Legal, Pasted;
    PastedCells(col, clip, y, paste);
  }

  lemma CellsAreLegal(s: Sheet, c: int, r: int)
    requires LegalSheet(s)
    ensures Legal(CellOf(s, c, r))
  {
    hide Legal;
    EmptyIsLegal();
    if 0 <= c < |s.grid| && 0 <= r < |s.grid[c]| {
      assert LegalRows(s.grid[c]);
    }
  }

  lemma TallColumnIsLegal(s: Sheet, c: int, height: nat)
    requires LegalSheet(s)
    ensures LegalRows(TallColumn(s, c, height))
  {
    hide Legal, LegalSheet, CellOf;
    forall r | 0 <= r < height
      ensures Legal(TallColumn(s, c, height)[r])
    {
      CellsAreLegal(s, c, r);
    }
  }

  /** A sheet is as legal as its columns. */
  lemma NewGridIsLegal(s: Sheet, g: Grid)
    requires LegalSheet(s) && |g| == PATTERN_WIDTH
    requires forall c | 0 <= c < |g| :: |g[c]| == s.rows && LegalRows(g[c])
    ensures LegalSheet(s.(grid := g))
  {
    hide Legal, LegalRows;
  }

  lemma NewColumnIsLegal(s: Sheet, x: int, col: Rows)
    requires LegalSheet(s) && |col| == s.rows && LegalRows(col)
    ensures LegalSheet(WithColumn(s, x, col))
  {
    hide LegalRows;
    if 0 <= x < |s.grid| {
      NewGridIsLegal(s, s.grid[x := col]);
    }
  }

  lemma EditedColumnIsLegal(s: Sheet, c: int, edit: Edit, first: int, last: int)
    requires LegalSheet(s) && (edit.Change? ==> KeepsLegal(edit.change))
    ensures LegalRows(EditedColumn(s, c, edit, first, last))
  {
    hide Legal, LegalSheet, KeepsLegal, Edited;
    var height := Height(s.rows, last);
    TallColumnIsLegal(s, c, height);
    EditKeepsLegal(TallColumn(s, c, height), edit, first, last);
  }

  lemma EditedSheetIsLegal(s: Sheet, area: Area, edit: Edit)
    requires LegalSheet(s) && (edit.Change? ==> KeepsLegal(edit.change))
    ensures LegalSheet(EditedSheet(s, area, edit))
  {
    hide LegalRows, KeepsLegal, EditedColumn;
    var g := EditedSheet(s, area, edit).grid;
    forall c | 0 <= c < |g|
      ensures LegalRows(g[c]) && |g[c]| == s.rows
    {
      EditedColumnIsLegal(s, c, edit, area.firstRow, area.lastRow);
    }
    NewGridIsLegal(s, g);
  }

  lemma PastedSheetIsLegal(s: Sheet, clip: seq<Rows>, x: int, y: nat, paste: Paste)
    requires LegalSheet(s) && forall c | 0 <= c < |clip| :: LegalRows(clip[c])
    ensures LegalSheet(PastedSheet(s, clip, x, y, paste))
  {
    hide LegalRows, Pasted;
    var g := PastedGrid(s.grid, clip, x, y, paste);
    forall c | 0 <= c < |g|
      ensures LegalRows(g[c]) && |g[c]| == s.rows
    {
      if x <= c < x + |clip| {
        PasteKeepsLegal(s.grid[c], clip[c - x], y, paste);
      }
    }
    NewGridIsLegal(s, g);
  }

  lemma MovedRowsAreLegal(col: Rows, y: nat)
    requires LegalRows(col)
    ensures LegalRows(Inserted(col, y)) && LegalRows(Deleted(col, y))
  {
    hide Legal;
    EmptyIsLegal();
  }

  lemma MovedSheetsAreLegal(s: Sheet, x: int, y: nat)
    requires LegalSheet(s)
    ensures LegalSheet(InsertedSheet(s, x, y)) && LegalSheet(DeletedSheet(s, x, y))
  {
    hide LegalRows, Inserted, Deleted, WithColumn;
    if 0 <= x < |s.grid| {
      MovedRowsAreLegal(s.grid[x], y);
      NewColumnIsLegal(s, x, Inserted(s.grid[x], y));
      NewColumnIsLegal(s, x, Deleted(s.grid[x], y));
    }
  }

  lemma NewCellIsLegal(s: Sheet, x: int, y: int, n: Note)
    requires LegalSheet(s) && (0 <= y < s.rows ==> Legal(n))
    ensures LegalSheet(WithCell(s, x, y, n))
  {
    hide Legal;
    if 0 <= x < |s.grid| && 0 <= y < |s.grid[x]| {
      var col := s.grid[x][y := n];
      assert LegalRows(s.grid[x]);
      NewColumnIsLegal(s, x, col);
    }
  }

  lemma ResizedIsLegal(s: Sheet, length: u8, t: Sheet)
    requires LegalSheet(s) && Resizes(s, length, t)
    ensures LegalSheet(t)
  {
    hide Legal;
    EmptyIsLegal();
    forall c | 0 <= c < PATTERN_WIDTH
      ensures LegalRows(t.grid[c])
    {
      forall r | 0 <= r < t.rows
        ensures Legal(t.grid[c][r])
      {
        assert r < s.rows ==> LegalRows(s.grid[c]);
      }
    }
    forall k | k in t.hidden
      ensures Legal(t.hidden[k])
    {
      assert InRange(k.0, k.1, s.rows) ==> LegalRows(s.grid[k.0]);
    }
  }

  lemma CopyIsLegal(clip: Sheet, s: Sheet, area: Area, after: Sheet)
    requires LegalSheet(clip) && LegalSheet(s) && AreaOk(area) && Copies(clip, s, area, after)
    ensures LegalSheet(after)
  {
    hide LegalRows, Resizes, TallColumn, CellOf;
    var t :| Resizes(clip, ClipLength(area), t) && after == CopiedSheet(t, s, area);
    ResizedIsLegal(clip, ClipLength(area), t);
    ClipLengthFits(clip, area, t);
    if area.firstRow <= area.lastRow {
      forall c | 0 <= c < |after.grid|
        ensures LegalRows(after.grid[c]) && |after.grid[c]| == t.rows
      {
        CopiedColumnIsLegal(s, area.firstColumn + c, area.firstRow, area.lastRow);
      }
      NewGridIsLegal(t, after.grid);
    }
  }

  lemma CopiedColumnIsLegal(s: Sheet, c: int, first: int, last: int)
    requires LegalSheet(s) && 0 <= first <= last
    ensures LegalRows(CopiedColumn(s, c, first, last)) && |CopiedColumn(s, c, first, last)| == last - first + 1
  {
    hide Legal, LegalSheet;
    TallColumnIsLegal(s, c, last + 1);
  }

  lemma SavedIsLegal(w: Work, reason: string)
    requires LegalWork(w)
    ensures LegalWork(Saved(w, reason)) && Now(Saved(w, reason)) == Now(w)
  {
    hide LegalSheet;
  }

  lemma WithSheetIsLegal(w: Work, s: Sheet)
    requires LegalWork(w) && LegalSheet(s)
    ensures LegalWork(WithSheet(w, s))
  {
    hide LegalSheet;
  }

  lemma TypingIsLegal(w: Work, x: int, y: int, entry: Entry)
    requires LegalWork(w) && Enterable(entry) && CursorOk(x, y)
    ensures LegalWork(AfterTyping(w, x, y, entry))
  {
    hide Entered, MasksPast, Legal, LegalSheet, WithCell, CellOf;
    var s := Now(w);
    var slot := Slot(CellOf(s, x, y), w.masks);
    CellsAreLegal(s, x, y);
    EntryKeepsLegal(slot, entry);
    MasksPastAreLegal(slot, entry);
    var after := TypedSlot(s, x, y, w.masks, entry);
    NewCellIsLegal(s, x, y, after.cell);
    WithSheetIsLegal(w, WithCell(s, x, y, after.cell));
  }

  lemma EditIsLegal(w: Work, area: Area, block: BlockCommand)
    requires LegalWork(w) && (block.ScaleVolumes? ==> 0 <= block.percent)
    ensures LegalWork(AfterEdit(w, area, block))
  {
    hide LegalSheet, Legal, EditedSheet, KeepsLegal, Saved, EditOf;
    SavedIsLegal(w, Reason(block));
    BlocksKeepLegal(block, w.masks);
    EditedSheetIsLegal(Now(w), area, EditOf(block, w.masks));
    WithSheetIsLegal(Saved(w, Reason(block)), EditedSheet(Now(w), area, EditOf(block, w.masks)));
  }

  lemma CutIsLegal(w: Work, area: Area, clip: Sheet)
    requires LegalWork(w) && AreaOk(area) && Copies(w.clip, Now(w), area, clip)
    ensures
      var v := WithSheet(Saved(w, "Selection Zap"), EditedSheet(Now(w), area, Change(Cleared)));
      LegalWork(v.(clip := clip, clipWidth := Width(area)))
  {
    hide LegalSheet, Legal, EditedSheet, KeepsLegal, Saved, Copies;
    SavedIsLegal(w, "Selection Zap");
    ClearingKeepsLegal();
    EditedSheetIsLegal(Now(w), area, Change(Cleared));
    WithSheetIsLegal(Saved(w, "Selection Zap"), EditedSheet(Now(w), area, Change(Cleared)));
    CopyIsLegal(w.clip, Now(w), area, clip);
  }

  lemma ClearingKeepsLegal()
    ensures KeepsLegal(Cleared)
  {
  }

  lemma PasteIsLegal(w: Work, x: int, y: nat, paste: Paste)
    requires LegalWork(w)
    ensures LegalWork(AfterPaste(w, x, y, paste))
  {
    hide Legal, LegalRows, PastedSheet, Saved;
    SavedIsLegal(w, PasteReason(paste));
    var clip := ClipColumns(w.clip, w.clipWidth);
    PastedSheetIsLegal(Now(w), clip, x, y, paste);
    WithSheetIsLegal(Saved(w, PasteReason(paste)), PastedSheet(Now(w), clip, x, y, paste));
  }

  lemma UndoIsLegal(w: Work, k: int)
    requires LegalWork(w)
    ensures LegalWork(AfterUndo(w, k))
  {
    hide LegalSheet;
  }

  lemma NewLengthIsLegal(w: Work, p: int, length: u8, t: Sheet)
    requires LegalWork(w) && 0 <= p < |w.sheets| && Resizes(w.sheets[p], length, t)
    ensures LegalWork(w.(sheets := w.sheets[p := t]))
  {
    hide LegalSheet, Resizes;
    ResizedIsLegal(w.sheets[p], length, t);
  }

  lemma StepIsLegal(w: Work, command: Command, v: Work)
    requires LegalWork(w) && Does(w, command, v)
    ensures LegalWork(v)
  {
    hide LegalSheet, Legal, AfterTyping, AfterEdit, AfterPaste, AfterUndo, EditedSheet, InsertedSheet, DeletedSheet,
      Saved, Copies, Resizes, Enterable;
    match command {
      case TypeAt(x, y, entry) =>
        TypingIsLegal(w, x, y, entry);
      case EditArea(area, block) =>
        EditIsLegal(w, area, block);
      case CopyArea(area) =>
        CopyIsLegal(w.clip, Now(w), area, v.clip);
      case CutArea(area) =>
        CutIsLegal(w, area, v.clip);
      case PasteAt(x, y, paste) =>
        PasteIsLegal(w, x, y, paste);
      case InsertRowAt(x, y) =>
        MovedSheetsAreLegal(Now(w), x, y);
        WithSheetIsLegal(w, InsertedSheet(Now(w), x, y));
      case DeleteRowAt(x, y) =>
        MovedSheetsAreLegal(Now(w), x, y);
        WithSheetIsLegal(w, DeletedSheet(Now(w), x, y));
      case UndoEntry(k) =>
        UndoIsLegal(w, k);
      case GotoPattern(p) =>
        if 0 <= p < MAX_PATTERNS {
          SavedIsLegal(w.(current := p), PatternName(w.current));
        }
      case ShowPattern(p) =>
      case SavePattern(reason) =>
        SavedIsLegal(w, reason);
      case Resize(p, length) =>
        NewLengthIsLegal(w, p, length, v.sheets[p]);
    }
  }

  /** A run goes on by one command. */
  lemma LeadsOn(w: Work, commands: seq<Command>, u: Work, command: Command, v: Work)
    requires Leads(w, commands, u) && Does(u, command, v)
    ensures Leads(w, commands + [command], v)
  {
    hide Does;
    var longer := commands + [command];
    assert longer[..|longer| - 1] == commands;
  }

  /** A new song: its patterns are empty. */
  ghost predicate NewWork(w: Work) {
    && 0 <= w.current < |w.sheets| == MAX_PATTERNS && EmptySheet(w.clip) && w.clipWidth == 0
    && w.masks == FIRST_MASKS && w.saved == []
    && forall p | 0 <= p < |w.sheets| :: EmptySheet(w.sheets[p])
  }

  ghost predicate EmptySheet(s: Sheet) {
    && 1 <= s.rows <= MAX_PATTERN_LENGTH && s.grid == EmptyGrid(s.rows)
    && forall k | k in s.hidden :: s.hidden[k] == EMPTY
  }

  lemma {:induction false} RunIsLegal(w: Work, commands: seq<Command>, v: Work)
    requires LegalWork(w) && Leads(w, commands, v)
    ensures LegalWork(v)
    decreases |commands|
  {
    hide LegalWork, Does, Possible;
    if |commands| == 0 {
    } else {
      var before, last := commands[..|commands| - 1], commands[|commands| - 1];
      var u :| Leads(w, before, u) && Does(u, last, v);
      RunIsLegal(w, before, u);
      StepIsLegal(u, last, v);
    }
  }

  /**
   * Every pattern of every song that can be made with the editor, saved to a .ct file and loaded into an empty pattern,
   * is the same.
   */
  lemma EditedPatternsSurviveSaving(w: Work, commands: seq<Command>, v: Work, p: int, tail: seq<u8>)
    requires NewWork(w) && Leads(w, commands, v) && 0 <= p < |v.sheets|
    ensures var s := v.sheets[p];
      && Shape(s.grid, s.rows)
      && Unpack(false, s.rows, Fresh(), EmptyGrid(s.rows), 0, PackGrid(false, s.grid, s.rows) + tail)
         == Unpacked(s.grid, tail)
  {
    hide Unpack, Pack, Possible, Legal;
    NewWorkIsLegal(w);
    RunIsLegal(w, commands, v);
    var s := v.sheets[p];
    assert LegalSheet(s);
    assert AllLegal(s.grid) by {
      forall c, r | 0 <= c < |s.grid| && 0 <= r < |s.grid[c]|
        ensures Legal(s.grid[c][r])
      {
        assert LegalRows(s.grid[c]);
      }
    }
    CtRoundTrip(s.grid, s.rows, tail);
  }

  lemma NewWorkIsLegal(w: Work)
    requires NewWork(w)
    ensures LegalWork(w)
  {
    hide Legal;
    EmptyIsLegal();
    forall p | 0 <= p < |w.sheets|
      ensures LegalSheet(w.sheets[p])
    {
      assert EmptySheet(w.sheets[p]);
    }
    assert LegalSheet(w.clip);
    assert LegalMasks(FIRST_MASKS) by { FirstMasksAreLegal(); }
  }

  lemma FirstMasksAreLegal()
    ensures LegalMasks(FIRST_MASKS)
  {
  }
}
