/** The pattern editor: typing at the cursor, and block commands that save the pattern for undo and edit it in place. */
module PatternEditor {
  import opened BitMath
  import opened Division
  import opened Notes
  import opened Options
  import opened PatternStore
  import opened Blocks
  import opened Sheets
  import opened EditorColumns
  import opened EditorUndo
  import opened FieldEntry
  import opened Cursors
  import opened Orders

  /** What an entry at the cursor finds. */
  datatype Finding = Finding(sheet: Sheet, x: int, y: int, masks: Masks, entries: History<View>)

  class Editor {
    const patterns: seq<Pattern>
    var pattern: Pattern
    const clipboard: Pattern
    const undo: UndoList
    var currentPattern: int
    var clipboardWidth: int
    var cursorX: int
    var cursorY: int
    var cursorField: int
    var cursorSpacing: int
    var selectionActive: bool
    var selectionBeginX: int
    var selectionBeginY: int
    var selectionEndX: int
    var selectionEndY: int
    var shiftSelectionInProgress: bool
    var shiftSelectionBeginX: int
    var shiftSelectionBeginY: int
    var masks: Masks

    /** The selection, which in a shorter pattern may reach past its end. */
    function Selection(): Area
      reads this`selectionBeginX, this`selectionEndX, this`selectionBeginY, this`selectionEndY
    {
      Area(selectionBeginX, selectionEndX, selectionBeginY, selectionEndY)
    }

    function Here(): Place
      reads this
    {
      Place(cursorX, cursorY, cursorField, selectionActive, Selection())
    }

    function ShiftHeld(): Shift
      reads this`shiftSelectionInProgress, this`shiftSelectionBeginX, this`shiftSelectionBeginY
    {
      if shiftSelectionInProgress then Some((shiftSelectionBeginX, shiftSelectionBeginY)) else None
    }

    ghost function Others(): set<Pattern>
      reads this`pattern
    {
      set p | p in patterns && p != pattern
    }

    /** The pattern being edited is the current one of the song's; the others have nothing to do with it. */
    ghost predicate InSong()
      reads this`pattern, this`currentPattern, undo`owned, Others()
    {
      && |patterns| == MAX_PATTERNS && 0 <= currentPattern < MAX_PATTERNS && patterns[currentPattern] == pattern
      && (forall i, j | 0 <= i < j < MAX_PATTERNS :: patterns[i] != patterns[j])
      && (forall p | p in Others() :: p.Valid() && p != clipboard && p !in undo.owned)
    }

    /** Cursor and selection may be past the end of the pattern, which undo and new lengths change under them. */
    ghost predicate Valid()
      reads this, pattern, clipboard, undo, undo.buffer, undo.owned, Others()
    {
      && InSong() && pattern.Valid() && clipboard.Valid() && undo.Valid()
      && pattern != clipboard && pattern !in undo.owned && clipboard !in undo.owned
      && PlaceOk(Here()) && ShiftOk(ShiftHeld()) && 0 <= cursorSpacing && clipboardWidth <= PATTERN_WIDTH
    }

    /** Starts with the first pattern of the song. */
    constructor (patterns: seq<Pattern>)
      requires |patterns| == MAX_PATTERNS && (forall p | p in patterns :: p.Valid())
      requires forall i, j | 0 <= i < j < MAX_PATTERNS :: patterns[i] != patterns[j]
      ensures this.patterns == patterns && currentPattern == 0 && masks == FIRST_MASKS && !selectionActive
      ensures Valid() && fresh(clipboard) && fresh(undo) && fresh(undo.buffer) && undo.owned == []
      ensures clipboardWidth == 0 && undo.undoMax == -1 && forall k :: clipboard.Cells()[k] == EMPTY
    {
      hide Pattern.Valid, UndoList.Valid;
      this.patterns := patterns;
      pattern := patterns[0];
      clipboard := new Pattern();
      undo := new UndoList();
      currentPattern, clipboardWidth, cursorX, cursorY, cursorField, cursorSpacing := 0, 0, 0, 0, 0, 1;
      selectionActive, shiftSelectionInProgress := false, false;
      selectionBeginX, selectionBeginY, selectionEndX, selectionEndY := 0, 0, 0, 0;
      shiftSelectionBeginX, shiftSelectionBeginY := 0, 0;
      masks := FIRST_MASKS;
    }

    /** The pattern was pushed to the undo list. */
    twostate predicate Saved(reason: string)
      reads this, pattern, clipboard, undo, undo.buffer, undo.owned, Others()
    {
      && Valid() && old(undo.Valid())
      && undo.Entries() == Pushed(old(undo.Entries()), Snapshot(reason, old(currentPattern), old(pattern.State())))
    }

    method PushCurrentPattern(reason: string)
      requires Valid()
      modifies undo, undo.buffer
      ensures Saved(reason)
    {
      hide Pattern.Valid, Pattern.Grid, Pattern.Hidden, Pattern.State, UndoList.Valid, UndoList.Entries, Pushed;
      undo.PushPattern(currentPattern, pattern, reason);
      assert forall p | p in Others() :: p.Valid() && p !in undo.owned;
    }

    lemma CurrentShape()
      requires Valid()
      ensures Shaped(SheetFrom(pattern)) && 1 <= pattern.length as int <= MAX_PATTERN_LENGTH
      ensures SheetFrom(pattern).rows == pattern.length as int
    {
      hide Pattern.Grid, Pattern.Hidden;
      pattern.GridShape();
    }

    /** The columns that pasting uses. */
    ghost function Clip(): seq<Rows>
      reads this`clipboardWidth, clipboard
    {
      ClipColumns(SheetFrom(clipboard), clipboardWidth)
    }

    /** The edit column by column. */
    method EditSelection(edit: Edit)
      requires Valid() && (edit.Change? || selectionBeginY < selectionEndY)
      modifies pattern
      ensures Valid() && SelectionEdited(edit)
    {
      hide Pattern.Valid, SheetFrom, UndoList.Valid, EditedSheet, EditedColumn, Holds, WithColumn;
      ghost var before, area := SheetFrom(pattern), Selection();
      CurrentShape();
      EditedNowhere(before, area.(lastColumn := selectionBeginX - 1), edit);
      if selectionBeginX <= selectionEndX {
        for j := selectionBeginX to selectionEndX + 1
          invariant Valid() && SheetFrom(pattern) == EditedSheet(before, area.(lastColumn := j - 1), edit)
        {
          EditedNextColumn(before, area, edit, j);
          ghost var now := SheetFrom(pattern);
          EditColumn(pattern, j, selectionBeginY, selectionEndY, edit);
          HeldSheet(pattern, now, j, EditedColumn(now, j, edit, selectionBeginY, selectionEndY));
        }
      } else {
        EditedNowhere(before, area, edit);
      }
    }

    twostate predicate SelectionEdited(edit: Edit)
      reads this, pattern
    {
      SheetFrom(pattern) == EditedSheet(old(SheetFrom(pattern)), Selection(), edit)
    }

    twostate predicate PatternUnchanged()
      reads this, pattern
    {
      SheetFrom(pattern) == old(SheetFrom(pattern))
    }

    /** A command that needs an active selection of two rows. */
    method EditBlock(reason: string, edit: Edit)
      requires Valid()
      modifies pattern, undo, undo.buffer
      ensures Saved(reason)
      ensures if selectionActive && selectionBeginY < selectionEndY then SelectionEdited(edit) else PatternUnchanged()
    {
      hide Pattern.Valid, SheetFrom, Pattern.State, UndoList.Valid, UndoList.Entries, EditedSheet, Pushed;
      PushCurrentPattern(reason);
      ghost var entries := undo.Entries();
      if selectionActive && selectionBeginY < selectionEndY {
        EditSelection(edit);
      }
      assert undo.Entries() == entries;
    }

    method SelectionParameterRamp()
      requires Valid()
      modifies pattern, undo, undo.buffer
      ensures Saved("Selection ramp parameter column")
      ensures if selectionActive && selectionBeginY < selectionEndY
        then SelectionEdited(RampParameters) else PatternUnchanged()
    {
      EditBlock("Selection ramp parameter column", RampParameters);
    }

    method SelectionVolumeRamp()
      requires Valid()
      modifies pattern, undo, undo.buffer
      ensures Saved("Selection ramp volume column")
      ensures if selectionActive && selectionBeginY < selectionEndY
        then SelectionEdited(RampVolumes) else PatternUnchanged()
    {
      EditBlock("Selection ramp volume column", RampVolumes);
    }

    method SelectionVolumeScale(percent: int)
      requires Valid()
      modifies pattern, undo, undo.buffer
      ensures Saved("Selection volume scale")
      ensures if selectionActive && selectionBeginY < selectionEndY
        then SelectionEdited(Change(Scaling(percent))) else PatternUnchanged()
    {
      EditBlock("Selection volume scale", Change(Scaling(percent)));
    }

    method SelectionSetInstrumentMask()
      requires Valid()
      modifies pattern, undo, undo.buffer
      ensures Saved("Selection set instrument mask")
      ensures if selectionActive && selectionBeginY < selectionEndY
        then SelectionEdited(Change(InstrumentMasking(masks.lastInstrument))) else PatternUnchanged()
    {
      EditBlock("Selection set instrument mask", Change(InstrumentMasking(masks.lastInstrument)));
    }

    method SelectionSetVolumeMask()
      requires Valid()
      modifies pattern, undo, undo.buffer
      ensures Saved("Selection set volume mask")
      ensures if selectionActive && selectionBeginY < selectionEndY
        then SelectionEdited(Change(VolumeMasking(masks.lastVolume))) else PatternUnchanged()
    {
      EditBlock("Selection set volume mask", Change(VolumeMasking(masks.lastVolume)));
    }

    method SelectionExpand()
      requires Valid()
      modifies pattern, undo, undo.buffer
      ensures Saved("Selection Expand x 2")
      ensures if selectionActive && selectionBeginY < selectionEndY then SelectionEdited(Expand) else PatternUnchanged()
    {
      EditBlock("Selection Expand x 2", Expand);
    }

    method SelectionShrink()
      requires Valid()
      modifies pattern, undo, undo.buffer
      ensures Saved("Selection Shrink x 2")
      ensures if selectionActive && selectionBeginY < selectionEndY then SelectionEdited(Shrink) else PatternUnchanged()
    {
      EditBlock("Selection Shrink x 2", Shrink);
    }

    method SelectionWipeStrayVolumes()
      requires Valid()
      modifies pattern, undo, undo.buffer
      ensures Saved("Selection wipe stray volumes")
      ensures if selectionActive && selectionBeginY < selectionEndY
        then SelectionEdited(Change(StrayVolumeWiped)) else PatternUnchanged()
    {
      EditBlock("Selection wipe stray volumes", Change(StrayVolumeWiped));
    }

    /** Raise or lower: the selection if there is one, or else the note at the cursor, which is not saved for undo. */
    method ShiftNotes(reason: string, shift: Note -> Note)
      requires Valid()
      modifies pattern, undo, undo.buffer
      ensures Valid()
      ensures selectionActive ==> Saved(reason) && SelectionEdited(Change(shift))
      ensures !selectionActive ==>
        && undo.Entries() == old(undo.Entries())
        && var s := old(SheetFrom(pattern));
           SheetFrom(pattern) == WithCell(s, cursorX, cursorY, shift(CellOf(s, cursorX, cursorY)))
    {
      hide Pattern.Valid, Pattern.State, SheetFrom, UndoList.Valid, UndoList.Entries, EditedSheet, Pushed;
      if selectionActive {
        PushCurrentPattern(reason);
        ghost var entries := undo.Entries();
        EditSelection(Change(shift));
        assert undo.Entries() == entries;
      } else {
        var note := CursorNote();
        SetCursorNote(shift(note));
      }
    }

    /** The clipboard may refuse its new length; then it stays as it is. */
    method SizeClipboard()
      requires Valid()
      modifies clipboard, this`clipboardWidth
      ensures Valid() && undo.Entries() == old(undo.Entries()) && clipboardWidth == selectionEndX - selectionBeginX + 1
      ensures PatternUnchanged() && Resizes(old(SheetFrom(clipboard)), ClipLength(Selection()), SheetFrom(clipboard))
    {
      hide Pattern.Valid, Pattern.State, SheetFrom, SheetOf, Resizes, UndoList.Valid, UndoList.Entries;
      clipboardWidth := selectionEndX - selectionBeginX + 1;
      ghost var before := clipboard.State();
      StateIsSheet(clipboard);
      LengthInView(clipboard);
      clipboard.SetNewLength((selectionEndY - selectionBeginY + 1) % 0x100);
      StateIsSheet(clipboard);
      SetLengthResizes(before, ClipLength(Selection()), clipboard.State());
    }

    /** Copies what is selected, in sight or not. An empty selection copies nothing, but resizes the clipboard. */
    method SelectionCopy()
      requires Valid()
      modifies clipboard, this`clipboardWidth
      ensures Valid() && undo.Entries() == old(undo.Entries()) && clipboardWidth == selectionEndX - selectionBeginX + 1
      ensures PatternUnchanged()
      ensures Copies(old(SheetFrom(clipboard)), SheetFrom(pattern), Selection(), SheetFrom(clipboard))
    {
      hide Pattern.Valid, SheetFrom, CopiedSheet, CopiedColumn, Holds, WithColumn, Resizes, UndoList.Valid,
        UndoList.Entries;
      SizeClipboard();
      ghost var sized, area, copied := SheetFrom(clipboard), Selection(), SheetFrom(pattern);
      ClipLengthFits(old(SheetFrom(clipboard)), area, sized);
      RowsAreLength(clipboard);
      if selectionBeginX <= selectionEndX && selectionBeginY <= selectionEndY {
        CopiedNowhere(sized, copied, area.(lastColumn := selectionBeginX - 1));
        for i := selectionBeginX to selectionEndX + 1
          invariant Valid() && undo.Entries() == old(undo.Entries())
          invariant clipboardWidth == selectionEndX - selectionBeginX + 1 && SheetFrom(pattern) == copied
          invariant clipboard.length as int == selectionEndY - selectionBeginY + 1
          invariant SheetFrom(clipboard) == CopiedSheet(sized, copied, area.(lastColumn := i - 1))
        {
          CopiedNextColumn(sized, copied, area, i);
          ghost var now := SheetFrom(clipboard);
          CopyColumn(pattern, clipboard, i, selectionBeginY, selectionEndY, i - selectionBeginX);
          HeldSheet(clipboard, now, i - selectionBeginX,
                    CopiedColumn(copied, i, selectionBeginY, selectionEndY));
        }
      } else {
        CopiedNowhere(sized, copied, area);
      }
    }

    /** Cuts the selection: it goes to the clipboard and leaves empty cells. */
    method SelectionZap()
      requires Valid()
      modifies pattern, clipboard, this`clipboardWidth, undo, undo.buffer
      ensures Saved("Selection Zap") && SelectionEdited(Change(Cleared))
      ensures clipboardWidth == selectionEndX - selectionBeginX + 1
      ensures Copies(old(SheetFrom(clipboard)), old(SheetFrom(pattern)), Selection(), SheetFrom(clipboard))
    {
      hide Pattern.Valid, Pattern.State, SheetFrom, UndoList.Valid, UndoList.Entries, EditedSheet, Pushed, Copies;
      PushCurrentPattern("Selection Zap");
      ghost var entries := undo.Entries();
      SelectionCopy();
      assert undo.Entries() == entries;
      EditSelection(Change(Cleared));
      assert undo.Entries() == entries;
    }

    /** The loop over the columns, up to the last column of the pattern. */
    method PasteColumns(paste: Paste)
      requires Valid()
      modifies pattern
      ensures Valid() && ClipPasted(paste)
    {
      hide Pattern.Valid, SheetFrom, UndoList.Valid, PastedSheet, Pasted, Holds, WithColumn;
      ghost var before, clip := SheetFrom(pattern), Clip();
      CurrentShape();
      ClipShape();
      PastedNowhere(before, cursorX, cursorY, paste);
      var limitX := cursorX + clipboardWidth - 1;
      if limitX > PATTERN_WIDTH - 1 {
        limitX := PATTERN_WIDTH - 1;
      }
      if cursorX <= limitX {
        for i := cursorX to limitX + 1
          invariant Valid() && SheetFrom(pattern) == PastedSheet(before, clip[..i - cursorX], cursorX, cursorY, paste)
        {
          PastedNextColumn(before, clip, cursorX, cursorY, paste, i - cursorX);
          ghost var now := SheetFrom(pattern);
          PasteColumn(pattern, clipboard, i, cursorY, i - cursorX, paste);
          HeldSheet(pattern, now, i, Pasted(now.grid[i], clip[i - cursorX], cursorY, paste));
        }
      }
      ghost var pasted := if cursorX <= limitX then limitX + 1 - cursorX else 0;
      if pasted < |clip| {
        PastedAsFarAsFits(before, clip, cursorX, cursorY, paste, pasted);
      } else {
        assert clip[..pasted] == clip;
      }
    }

    lemma ClipShape()
      requires Valid()
      ensures Shaped(SheetFrom(clipboard)) && |Clip()| == if clipboardWidth < 0 then 0 else clipboardWidth
      ensures forall c | 0 <= c < clipboardWidth :: Clip()[c] == SheetFrom(clipboard).grid[c]
    {
      hide Pattern.Grid, Pattern.Hidden;
      clipboard.GridShape();
    }

    /** The clipboard is pasted at the cursor. */
    method SelectionPaste(reason: string, paste: Paste)
      requires Valid()
      modifies pattern, undo, undo.buffer
      ensures Saved(reason) && ClipPasted(paste)
    {
      hide Pattern.Valid, Pattern.State, SheetFrom, UndoList.Valid, UndoList.Entries, Pushed, PastedSheet;
      PushCurrentPattern(reason);
      ghost var entries := undo.Entries();
      PasteColumns(paste);
      assert undo.Entries() == entries;
    }

    twostate predicate ClipPasted(paste: Paste)
      requires 0 <= cursorY
      reads this, pattern, clipboard
    {
      SheetFrom(pattern) == PastedSheet(old(SheetFrom(pattern)), Clip(), cursorX, cursorY, paste)
    }

    method SelectionPasteOverwrite()
      requires Valid()
      modifies pattern, undo, undo.buffer
      ensures Saved("Paste (overwriting)") && ClipPasted(Overwrite)
    {
      SelectionPaste("Paste (overwriting)", Overwrite);
    }

    method SelectionPasteMix()
      requires Valid()
      modifies pattern, undo, undo.buffer
      ensures Saved("Paste (mix)") && ClipPasted(Mix)
    {
      SelectionPaste("Paste (mix)", Mix);
    }

    method SelectionPasteInsert()
      requires Valid()
      modifies pattern, undo, undo.buffer
      ensures Saved("Paste (inserting)") && ClipPasted(Insert)
    {
      SelectionPaste("Paste (inserting)", Insert);
    }

    /** Makes room at the cursor; not saved for undo. */
    method CursorInsert()
      requires Valid()
      modifies pattern
      ensures Valid() && undo.Entries() == old(undo.Entries())
      ensures SheetFrom(pattern) == InsertedSheet(old(SheetFrom(pattern)), cursorX, cursorY)
    {
      hide Pattern.Valid, SheetFrom, InsertedSheet, UndoList.Valid, UndoList.Entries;
      InsertRow(pattern, cursorX, cursorY);
    }

    /** Past the end of the pattern, the last row is emptied. */
    method CursorDelete()
      requires Valid()
      modifies pattern
      ensures Valid() && undo.Entries() == old(undo.Entries())
      ensures SheetFrom(pattern) == DeletedSheet(old(SheetFrom(pattern)), cursorX, cursorY)
    {
      hide Pattern.Valid, SheetFrom, DeletedSheet, UndoList.Valid, UndoList.Entries;
      DeleteRow(pattern, cursorX, cursorY);
    }

    /** Puts the corners of the selection in order, and the last row inside the pattern. */
    method NormalizeSelection()
      modifies this`selectionBeginX, this`selectionBeginY, this`selectionEndX, this`selectionEndY
      ensures Selection() == Normalized(old(Selection()), pattern.length)
    {
      if selectionBeginX > selectionEndX {
        selectionBeginX, selectionEndX := selectionEndX, selectionBeginX;
      }
      if selectionBeginY > selectionEndY {
        selectionBeginY, selectionEndY := selectionEndY, selectionBeginY;
      }
      if selectionBeginY < 0 {
        selectionBeginY := 0;
      }
      if selectionEndY > pattern.length as int - 1 {
        selectionEndY := pattern.length as int - 1;
      }
    }

    /**
     * Goes to another pattern, which is saved for undo under the number of the one before it. The cursor stays, even if
     * the pattern is too short for it.
     */
    method CursorGotoPattern(p: int)
      requires Valid()
      modifies this`currentPattern, this`pattern, undo, undo.buffer
      modifies this`selectionBeginX, this`selectionBeginY, this`selectionEndX, this`selectionEndY
      ensures Valid()
      ensures !(0 <= p < MAX_PATTERNS) ==>
        currentPattern == old(currentPattern) && Here() == old(Here()) && undo.Entries() == old(undo.Entries())
      ensures 0 <= p < MAX_PATTERNS ==>
        && currentPattern == p && pattern == patterns[p]
        && Selection() == Normalized(old(Selection()), pattern.length)
        && undo.Entries() ==
           Pushed(old(undo.Entries()), Snapshot(PatternName(old(currentPattern)), p, old(patterns[p].State())))
    {
      hide Pattern.Valid, Pattern.State, UndoList.Valid, UndoList.Entries, Pushed, Normalized, PlaceOk;
      if p < 0 || p >= MAX_PATTERNS {
        return;
      }
      var reason := PatternName(currentPattern);
      SetCurrentPattern(p);
      PushCurrentPattern(reason);
      FitSelection();
    }

    method FitSelection()
      requires Valid()
      modifies this`selectionBeginX, this`selectionBeginY, this`selectionEndX, this`selectionEndY
      ensures Valid() && Selection() == Normalized(old(Selection()), pattern.length)
    {
      hide Pattern.Valid, UndoList.Valid, Normalized;
      CurrentLength();
      NormalizedIsStable(Selection(), pattern.length);
      NormalizeSelection();
    }

    /** The selection stays, even if the pattern is too short for it. */
    method SetCurrentPattern(p: int)
      requires Valid() && 0 <= p < MAX_PATTERNS
      modifies this`currentPattern, this`pattern
      ensures Valid() && currentPattern == p && pattern == patterns[p]
    {
      hide Pattern.Valid, UndoList.Valid, PlaceOk;
      assert forall q | q in patterns :: q == pattern || q in Others();
      assert patterns[p] in patterns;
      currentPattern := p;
      pattern := patterns[p];
      assert forall q | q in Others() :: q.Valid() && q != clipboard && q !in undo.owned;
    }

    /** Undoes entry k in the current pattern, whichever it was saved from. The cursor may then be past its end. */
    method UndoAt(k: int)
      requires Valid()
      modifies pattern, undo, undo.buffer
      ensures Valid()
      ensures Undone(pattern.State(), undo.Entries()) == UndoneAt(old(undo.Entries()), old(pattern.State()), k)
      ensures forall p | p in Others() :: p.State() == old(p.State())
    {
      hide Pattern.Valid, Pattern.State, UndoList.Valid, UndoList.Entries, UndoneAt;
      undo.UndoIndex(k, pattern);
      assert forall p | p in Others() :: p.Valid() && p !in undo.owned;
    }

    /** The selection from where shift was pressed to the cursor. */
    method SelectFromShift()
      requires pattern.Valid() && PlaceOk(Here()) && ShiftOk(ShiftHeld()) && shiftSelectionInProgress
      modifies this`selectionActive, this`selectionBeginX, this`selectionBeginY, this`selectionEndX, this`selectionEndY
      ensures PlaceOk(Here()) && Here() == Following(old(Here()), ShiftHeld(), pattern.length)
    {
      hide Pattern.Valid, Normalized;
      selectionActive := true;
      selectionBeginX := shiftSelectionBeginX;
      selectionBeginY := shiftSelectionBeginY;
      selectionEndX := cursorX;
      selectionEndY := cursorY;
      CurrentLength();
      NormalizedIsStable(Selection(), pattern.length);
      NormalizeSelection();
    }

    method ShiftSelectionUpdate()
      requires Valid()
      modifies this`selectionActive, this`selectionBeginX, this`selectionBeginY, this`selectionEndX, this`selectionEndY
      ensures Valid() && Here() == Following(old(Here()), ShiftHeld(), pattern.length)
    {
      hide Pattern.Valid, UndoList.Valid, Normalized, PlaceOk;
      if shiftSelectionInProgress {
        SelectFromShift();
      }
    }

    lemma CurrentLength()
      requires pattern.Valid()
      ensures 1 <= pattern.length as int <= MAX_PATTERN_LENGTH
    {
    }

    method CursorMoveDown(amount: nat)
      requires Valid()
      modifies this`cursorY
      modifies this`selectionActive, this`selectionBeginX, this`selectionBeginY, this`selectionEndX, this`selectionEndY
      ensures Valid() && Here() == DownBy(old(Here()), amount, ShiftHeld(), pattern.length)
    {
      hide Pattern.Valid, UndoList.Valid, Following;
      CurrentLength();
      cursorY := cursorY + amount;
      if cursorY > pattern.length as int - 1 {
        cursorY := pattern.length as int - 1;
      }
      ShiftSelectionUpdate();
    }

    method CursorMoveLeft(amount: nat)
      requires Valid()
      modifies this`cursorX
      modifies this`selectionActive, this`selectionBeginX, this`selectionBeginY, this`selectionEndX, this`selectionEndY
      ensures Valid() && Here() == LeftBy(old(Here()), amount, ShiftHeld(), pattern.length)
    {
      hide Pattern.Valid, UndoList.Valid, Following;
      cursorX := cursorX - amount;
      if cursorX < 0 {
        cursorX := 0;
      }
      ShiftSelectionUpdate();
    }

    method CursorMoveRight(amount: nat)
      requires Valid()
      modifies this`cursorX
      modifies this`selectionActive, this`selectionBeginX, this`selectionBeginY, this`selectionEndX, this`selectionEndY
      ensures Valid() && Here() == RightBy(old(Here()), amount, ShiftHeld(), pattern.length)
    {
      hide Pattern.Valid, UndoList.Valid, Following;
      cursorX := cursorX + amount;
      if cursorX >= PATTERN_WIDTH {
        cursorX := PATTERN_WIDTH - 1;
      }
      ShiftSelectionUpdate();
    }

    method CursorMoveFieldRight()
      requires Valid()
      modifies this`cursorX, this`cursorField
      modifies this`selectionActive, this`selectionBeginX, this`selectionBeginY, this`selectionEndX, this`selectionEndY
      ensures Valid() && Here() == FieldRight(old(Here()), ShiftHeld(), pattern.length)
    {
      hide Pattern.Valid, UndoList.Valid;
      if shiftSelectionInProgress {
        CursorMoveRight(1);
        return;
      }
      if cursorField + 1 >= FIELDS_MAX {
        if cursorX == PATTERN_WIDTH - 1 {
          cursorField := FIELDS_MAX - 1;
        } else {
          CursorMoveRight(1);
          cursorField := 0;
        }
      } else {
        cursorField := cursorField + 1;
      }
      ShiftSelectionUpdate();
    }

    method CursorMoveFieldLeft()
      requires Valid()
      modifies this`cursorX, this`cursorField
      modifies this`selectionActive, this`selectionBeginX, this`selectionBeginY, this`selectionEndX, this`selectionEndY
      ensures Valid() && Here() == FieldLeft(old(Here()), ShiftHeld(), pattern.length)
    {
      hide Pattern.Valid, UndoList.Valid;
      if shiftSelectionInProgress {
        CursorMoveLeft(1);
        return;
      }
      if cursorField - 1 < 0 {
        if cursorX == 0 {
          cursorField := 0;
        } else {
          CursorMoveLeft(1);
          cursorField := FIELDS_MAX - 1;
        }
      } else {
        cursorField := cursorField - 1;
      }
      ShiftSelectionUpdate();
    }

    method CursorMoveDownLeft()
      requires Valid()
      modifies this`cursorX, this`cursorY, this`cursorField
      modifies this`selectionActive, this`selectionBeginX, this`selectionBeginY, this`selectionEndX, this`selectionEndY
      ensures Valid()
      ensures Here() ==
        FieldLeft(DownBy(old(Here()), cursorSpacing, ShiftHeld(), pattern.length), ShiftHeld(), pattern.length)
    {
      hide Pattern.Valid, UndoList.Valid, DownBy, FieldLeft, PlaceOk;
      CursorMoveDown(cursorSpacing);
      CursorMoveFieldLeft();
    }

    /** Puts the cursor somewhere, with nothing selected. */
    method PlaceCursor(x: int, y: int, place: int)
      requires Valid() && 0 <= x < PATTERN_WIDTH && 0 <= y && 0 <= place < FIELDS_MAX
      modifies this`cursorX, this`cursorY, this`cursorField, this`selectionActive
      ensures Valid() && cursorX == x && cursorY == y && cursorField == place && !selectionActive
    {
      hide Pattern.Valid, UndoList.Valid;
      cursorX, cursorY, cursorField, selectionActive := x, y, place, false;
    }

    method MarkArea(area: Area)
      requires Valid() && AreaOk(area)
      modifies this`selectionActive
      modifies this`selectionBeginX, this`selectionBeginY, this`selectionEndX, this`selectionEndY
      ensures Valid() && selectionActive && Selection() == area
    {
      hide Pattern.Valid, UndoList.Valid;
      selectionActive := true;
      selectionBeginX, selectionEndX := area.firstColumn, area.lastColumn;
      selectionBeginY, selectionEndY := area.firstRow, area.lastRow;
    }

    method CursorNote() returns (n: Note)
      requires Valid()
      ensures Valid() && n == CellOf(SheetFrom(pattern), cursorX, cursorY)
    {
      n := Cell(pattern, cursorX, cursorY);
    }

    /** Writes the cell through the pattern's note reference. */
    method SetCursorNote(n: Note)
      requires Valid()
      modifies pattern
      ensures Valid() && undo.Entries() == old(undo.Entries()) && pattern.length == old(pattern.length)
      ensures SheetFrom(pattern) == WithCell(old(SheetFrom(pattern)), cursorX, cursorY, n)
    {
      hide Pattern.Valid, SheetFrom, UndoList.Valid, UndoList.Entries;
      SetCell(pattern, cursorX, cursorY, n);
    }

    /** The cell the pattern's note reference stands for; past the end of the pattern an empty one. */
    method CursorRef() returns (n: Note)
      requires Valid()
      modifies pattern
      ensures Valid() && undo.Entries() == old(undo.Entries()) && pattern.length == old(pattern.length)
      ensures PatternUnchanged()
      ensures n == if cursorY < pattern.length as int then CellOf(old(SheetFrom(pattern)), cursorX, cursorY) else EMPTY
    {
      hide Pattern.Valid, Pattern.At, SheetFrom, GridOf, HiddenOf, UndoList.Valid, UndoList.Entries, CellOf;
      StateIsSheet(pattern);
      CellIsAt(pattern, cursorX, cursorY);
      pattern.GetNoteRef(cursorX, cursorY);
      StateIsSheet(pattern);
      CellIsAt(pattern, cursorX, cursorY);
      n := pattern.auxNote;
    }

    method SetAndGet(n: Note) returns (seen: Note)
      requires Valid()
      modifies pattern
      ensures Valid() && undo.Entries() == old(undo.Entries()) && pattern.length == old(pattern.length)
      ensures SheetFrom(pattern) == WithCell(old(SheetFrom(pattern)), cursorX, cursorY, n)
      ensures seen == if cursorY < pattern.length as int then n else old(CellOf(SheetFrom(pattern), cursorX, cursorY))
    {
      hide Pattern.Valid, SheetFrom, UndoList.Valid, UndoList.Entries, CellOf, WithCell, PlaceOk;
      CurrentShape();
      HereIsInside();
      CellAfterWrite(SheetFrom(pattern), cursorX, cursorY, n, n);
      SetCursorNote(n);
      seen := CursorNote();
    }

    lemma HereIsInside()
      requires Valid()
      ensures 0 <= cursorX < PATTERN_WIDTH && 0 <= cursorY && 0 <= cursorField < FIELDS_MAX && 0 <= cursorSpacing
      ensures undo.Valid()
    {
    }

    /** What an entry finds: the pattern, the cursor, the remembered values and the undo list. */
    ghost function Found(): Finding
      requires undo.Valid()
      reads this, pattern, undo, undo.buffer, undo.owned
    {
      Finding(SheetFrom(pattern), cursorX, cursorY, masks, undo.Entries())
    }

    /** The cell under the cursor and the remembered values have changed as the entry changes them, and nothing else. */
    ghost predicate Written(f: Finding, entry: Entry)
      reads this`pattern, this`masks, pattern, undo, undo.buffer, undo.owned
    {
      var s := TypedSlot(f.sheet, f.x, f.y, f.masks, entry);
      && undo.Valid() && undo.Entries() == f.entries
      && SheetFrom(pattern) == WithCell(f.sheet, f.x, f.y, s.cell) && masks == s.masks
    }

    /** The entry is written, and the cursor goes on from it. */
    twostate predicate Typed(entry: Entry)
      requires old(undo.Valid())
      reads this, pattern, clipboard, undo, undo.buffer, undo.owned, Others()
    {
      var note := old(CellOf(SheetFrom(pattern), cursorX, cursorY)).note;
      && Valid() && Written(old(Found()), entry)
      && Here() == AfterEntry(old(Here()), entry, note, cursorSpacing, ShiftHeld(), pattern.length)
    }

    lemma WrittenIs(f: Finding, entry: Entry, n: Note)
      requires Shaped(f.sheet) && 0 <= f.x < PATTERN_WIDTH && 0 <= f.y && undo.Valid() && undo.Entries() == f.entries
      requires SheetFrom(pattern) == WithCell(f.sheet, f.x, f.y, n)
      requires Leaves(f.sheet, f.x, f.y, f.masks, entry, n, masks)
      ensures Written(f, entry)
    {
      hide Pattern.Valid, SheetFrom, UndoList.Valid, UndoList.Entries, CellOf, WithCell, TypedSlot;
      LeavesTheSheet(f.sheet, f.x, f.y, f.masks, entry, n, masks);
    }

    method SetMasks(m: Masks)
      requires Valid()
      modifies this`masks
      ensures Valid() && masks == m
    {
      masks := m;
    }

    method Write(n: Note, m: Masks, ghost entry: Entry)
      requires Valid() && Leaves(SheetFrom(pattern), cursorX, cursorY, masks, entry, n, m)
      modifies pattern, this`masks
      ensures Valid() && Written(old(Found()), entry) && pattern.length == old(pattern.length)
    {
      hide Valid, SheetFrom, UndoList.Valid, UndoList.Entries, CellOf, WithCell, TypedSlot, Written;
      CurrentShape();
      HereIsInside();
      ghost var f := Found();
      SetCursorNote(n);
      SetMasks(m);
      WrittenIs(f, entry, n);
    }

    /** An entry that writes nothing here. */
    lemma NothingIsWritten()
      requires Valid()
      ensures WithCell(SheetFrom(pattern), cursorX, cursorY, CellOf(SheetFrom(pattern), cursorX, cursorY)) ==
        SheetFrom(pattern)
    {
      hide Pattern.Valid, SheetFrom, UndoList.Valid, UndoList.Entries, CellOf, WithCell, PlaceOk;
      CurrentShape();
      HereIsInside();
      SameCell(SheetFrom(pattern), cursorX, cursorY);
    }

    method InsertNoteValueAtCursor(value: int)
      requires Valid()
      modifies pattern, this`masks, this`cursorY
      modifies this`selectionActive, this`selectionBeginX, this`selectionBeginY, this`selectionEndX, this`selectionEndY
      ensures Typed(NoteValue(value))
    {
      hide Valid, Written, SheetFrom, UndoList.Valid, UndoList.Entries, CellOf, WithCell, DownBy, FieldLeft, FieldRight;
      CurrentShape();
      HereIsInside();
      ghost var f := Found();
      var n := CursorNote();
      n := n.(note := Byte(value));
      var seen := SetAndGet(n);
      ghost var first := n;
      SetMasks(masks.(lastNote := seen.note));
      if masks.volumeMask {
        n := n.(volume := masks.lastVolume);
      }
      if masks.commandMask {
        n := n.(command := masks.lastCommand, parameter := masks.lastParameter);
      }
      if masks.instrumentMask {
        n := n.(instrument := masks.lastInstrument);
      }
      SetCursorNote(n);
      CellAfterWrite(f.sheet, cursorX, cursorY, first, n);
      WrittenIs(f, NoteValue(value), n);
      CursorMoveDown(cursorSpacing);
    }

    /** A cell without a note has no octave to change. */
    method InsertOctaveAtCursor(octave: u8)
      requires Valid()
      modifies pattern, this`masks, this`cursorY
      modifies this`selectionActive, this`selectionBeginX, this`selectionBeginY, this`selectionEndX, this`selectionEndY
      ensures Typed(Octave(octave))
    {
      hide Valid, Written, SheetFrom, UndoList.Valid, UndoList.Entries, CellOf, WithCell, DownBy, FieldLeft,
        FieldRight, TruncatingMod;
      CurrentShape();
      HereIsInside();
      ghost var f := Found();
      var n := CursorNote();
      if n.note < NOTES {
        Write(n.(note := Byte(octave * 12 + TruncatingMod(n.note, 12))), masks, Octave(octave));
        CursorMoveDown(cursorSpacing);
      } else {
        NothingIsWritten();
        WrittenIs(f, Octave(octave), n);
      }
    }

    method InsertInstrumentAtCursor(instrument: u8, tens: bool)
      requires Valid()
      modifies pattern, this`masks, this`cursorX, this`cursorY, this`cursorField
      modifies this`selectionActive, this`selectionBeginX, this`selectionBeginY, this`selectionEndX, this`selectionEndY
      ensures Typed(if tens then InstrumentTens(instrument) else InstrumentUnits(instrument))
    {
      hide Valid, Written, SheetFrom, UndoList.Valid, UndoList.Entries, CellOf, WithCell, DownBy, FieldLeft,
        FieldRight, TruncatingMod, TruncatingDiv;
      CurrentShape();
      HereIsInside();
      ghost var f := Found();
      var n := CursorNote();
      var shown := if n.instrument == EMPTY_FIELD then 0 else n.instrument as int + 1;
      if tens {
        shown := TruncatingMod(shown, 10) + instrument * 10;
      } else {
        shown := TruncatingDiv(shown, 10) * 10 + instrument;
      }
      if shown == 0 {
        shown := EMPTY_FIELD as int;
      } else {
        if shown > 99 {
          shown := 99;
        }
        shown := shown - 1;
      }
      ghost var entry := if tens then InstrumentTens(instrument) else InstrumentUnits(instrument);
      Write(n.(instrument := Byte(shown)), masks.(lastInstrument := Byte(shown)), entry);
      if tens {
        CursorMoveFieldRight();
      } else {
        CursorMoveDownLeft();
      }
    }

    method InsertVolumeAtCursorField1(volume: char)
      requires Valid()
      modifies pattern, this`masks, this`cursorX, this`cursorField
      modifies this`selectionActive, this`selectionBeginX, this`selectionBeginY, this`selectionEndX, this`selectionEndY
      ensures Typed(VolumeFirst(volume))
    {
      hide Valid, Written, SheetFrom, UndoList.Valid, UndoList.Entries, CellOf, WithCell, DownBy, FieldLeft,
        FieldRight, VolumeUnits, Byte;
      CurrentShape();
      HereIsInside();
      ghost var f := Found();
      var n := CursorNote();
      var rightvol := VolumeUnits(n.volume) as int;
      var v: u8 := 0;
      if '0' <= volume <= '9' {
        v := Byte((volume as int - '0' as int) * 10 + rightvol);
        if v > 64 {
          v := 64;
        }
        if masks.volumePanMode {
          v := Byte(v + 128);
        }
      } else if 'A' <= volume <= 'F' {
        v := Byte(65 + (volume as int - 'A' as int) * 10 + rightvol);
      } else if 'G' <= volume <= 'H' {
        v := Byte(193 + (volume as int - 'G' as int) * 10 + rightvol);
      } else {
        NothingIsWritten();
        WrittenIs(f, VolumeFirst(volume), n);
        return;
      }
      Write(n.(volume := v), masks.(lastVolume := v), VolumeFirst(volume));
      CursorMoveFieldRight();
    }

    method InsertVolumeAtCursorField2(volume: u8)
      requires Valid()
      modifies pattern, this`masks, this`cursorX, this`cursorY, this`cursorField
      modifies this`selectionActive, this`selectionBeginX, this`selectionBeginY, this`selectionEndX, this`selectionEndY
      ensures Typed(VolumeSecond(volume))
    {
      hide Valid, Written, SheetFrom, UndoList.Valid, UndoList.Entries, CellOf, WithCell, DownBy, FieldLeft,
        FieldRight, VolumeTens, Byte;
      CurrentShape();
      HereIsInside();
      ghost var f := Found();
      var n := CursorNote();
      var leftvol := VolumeTens(n.volume);
      var v := Byte(leftvol + volume);
      if leftvol < 65 {
        if v > 64 {
          v := 64;
        }
        if masks.volumePanMode {
          v := Byte(v + 128);
        }
      }
      Write(n.(volume := v), masks.(lastVolume := v), VolumeSecond(volume));
      CursorMoveDownLeft();
    }

    method InsertCommandAtCursor(command: char)
      requires Valid()
      modifies pattern, this`masks, this`cursorY
      modifies this`selectionActive, this`selectionBeginX, this`selectionBeginY, this`selectionEndX, this`selectionEndY
      ensures Typed(Command(command))
    {
      hide Valid, Written, SheetFrom, UndoList.Valid, UndoList.Entries, CellOf, WithCell, DownBy, FieldLeft,
        FieldRight, Byte;
      CurrentShape();
      HereIsInside();
      ghost var f := Found();
      var n := CursorNote();
      if 'A' <= command <= 'Z' {
        n := n.(command := Byte(command as int - 'A' as int));
      } else {
        n := n.(command := Byte(26 + (command as int - '0' as int)));
      }
      var seen := SetAndGet(n);
      SetMasks(masks.(lastCommand := seen.command, lastParameter := seen.parameter));
      WrittenIs(f, Command(command), n);
      CursorMoveDown(cursorSpacing);
    }

    method InsertParameterAtCursorField1(parameter: u8)
      requires Valid()
      modifies pattern, this`masks, this`cursorX, this`cursorField
      modifies this`selectionActive, this`selectionBeginX, this`selectionBeginY, this`selectionEndX, this`selectionEndY
      ensures Typed(ParameterHigh(parameter))
    {
      hide Valid, Written, SheetFrom, UndoList.Valid, UndoList.Entries, CellOf, WithCell, DownBy, FieldLeft,
        FieldRight, Byte;
      CurrentShape();
      HereIsInside();
      ghost var f := Found();
      var n := CursorNote();
      n := n.(parameter := Byte(parameter * 0x10 + n.parameter % 0x10));
      var seen := SetAndGet(n);
      SetMasks(masks.(lastCommand := seen.command, lastParameter := seen.parameter));
      WrittenIs(f, ParameterHigh(parameter), n);
      CursorMoveFieldRight();
    }

    method InsertParameterAtCursorField2(parameter: u8)
      requires Valid()
      modifies pattern, this`masks, this`cursorX, this`cursorY, this`cursorField
      modifies this`selectionActive, this`selectionBeginX, this`selectionBeginY, this`selectionEndX, this`selectionEndY
      ensures Typed(ParameterLow(parameter))
    {
      hide Valid, Written, SheetFrom, UndoList.Valid, UndoList.Entries, CellOf, WithCell, DownBy, FieldLeft,
        FieldRight, Byte;
      CurrentShape();
      HereIsInside();
      ghost var f := Found();
      var n := CursorNote();
      n := n.(parameter := Byte(parameter + n.parameter / 0x10 * 0x10));
      var seen := SetAndGet(n);
      SetMasks(masks.(lastCommand := seen.command, lastParameter := seen.parameter));
      WrittenIs(f, ParameterLow(parameter), n);
      CursorMoveDownLeft();
    }

    /** Where a volume is typed, the key switches between volumes and pannings. */
    method PressNoteOffAtCursor()
      requires Valid()
      modifies pattern, this`masks, this`cursorY
      modifies this`selectionActive, this`selectionBeginX, this`selectionBeginY, this`selectionEndX, this`selectionEndY
      ensures Typed(NoteOff(FieldAt(old(cursorField))))
    {
      hide Valid, Written, SheetFrom, UndoList.Valid, UndoList.Entries, CellOf, WithCell, DownBy, FieldLeft, FieldRight;
      CurrentShape();
      HereIsInside();
      ghost var f := Found();
      var n := CursorNote();
      if cursorField < 2 {
        Write(n.(note := OFF), masks, NoteOff(FieldAt(cursorField)));
        CursorMoveDown(cursorSpacing);
      } else {
        if 3 < cursorField < 6 {
          SetMasks(masks.(volumePanMode := !masks.volumePanMode));
        }
        NothingIsWritten();
        WrittenIs(f, NoteOff(FieldAt(cursorField)), n);
      }
    }

    method PressNoteCutAtCursor()
      requires Valid()
      modifies pattern, this`masks, this`cursorY
      modifies this`selectionActive, this`selectionBeginX, this`selectionBeginY, this`selectionEndX, this`selectionEndY
      ensures Typed(NoteCut)
    {
      hide Valid, Written, SheetFrom, UndoList.Valid, UndoList.Entries, CellOf, WithCell, DownBy, FieldLeft, FieldRight;
      CurrentShape();
      HereIsInside();
      ghost var f := Found();
      var n := CursorNote();
      Write(n.(note := CUT), masks, NoteCut);
      CursorMoveDown(cursorSpacing);
    }

    method PressMaskWriteCursor()
      requires Valid()
      modifies pattern, this`masks, this`cursorY
      modifies this`selectionActive, this`selectionBeginX, this`selectionBeginY, this`selectionEndX, this`selectionEndY
      ensures Typed(WriteMask(FieldAt(old(cursorField))))
    {
      hide Valid, Written, SheetFrom, UndoList.Valid, UndoList.Entries, CellOf, WithCell, DownBy, FieldLeft,
        FieldRight, FieldAt;
      CurrentShape();
      HereIsInside();
      ghost var f := Found();
      var n := CursorNote();
      match FieldAt(cursorField) {
        case NoteField => n := n.(note := masks.lastNote);
        case OctaveField =>
        case InstrumentField => n := n.(instrument := masks.lastInstrument);
        case VolumeField => n := n.(volume := masks.lastVolume);
        case _ => n := n.(parameter := masks.lastParameter, command := masks.lastCommand);
      }
      Write(n, masks, WriteMask(FieldAt(cursorField)));
      CursorMoveDown(cursorSpacing);
    }

    method MasksFrom(n: Note) returns (m: Masks)
      requires Valid()
      ensures Valid() && m == MaskRead(Slot(n, masks), FieldAt(cursorField)).masks
    {
      m := masks;
      match FieldAt(cursorField) {
        case NoteField => m := m.(lastNote := n.note);
        case OctaveField =>
        case InstrumentField => m := m.(lastInstrument := n.instrument);
        case VolumeField => m := m.(lastVolume := n.volume);
        case _ => m := m.(lastParameter := n.parameter, lastCommand := n.command);
      }
    }

    /** A read through the note reference moves the pattern's pending cell, but changes no note. */
    method GetMaskFromCursor()
      requires Valid()
      modifies pattern, this`masks
      ensures Typed(ReadMask(FieldAt(cursorField)))
    {
      hide Valid, Written, SheetFrom, UndoList.Valid, UndoList.Entries, CellOf, WithCell, DownBy, FieldLeft,
        FieldRight, FieldAt, Leaves, MaskRead;
      CurrentShape();
      HereIsInside();
      ghost var f := Found();
      NothingIsWritten();
      var n := CursorNote();
      ghost var cell := n;
      if ByReference(FieldAt(cursorField)) {
        n := CursorRef();
      }
      ReadMaskLeaves(f.sheet, f.x, f.y, f.masks, FieldAt(cursorField), n);
      var m := MasksFrom(n);
      SetMasks(m);
      WrittenIs(f, ReadMask(FieldAt(cursorField)), cell);
    }

    method ClearedNote(cell: Note) returns (n: Note)
      requires Valid()
      ensures Valid() && n == FieldCleared(Slot(cell, masks), FieldAt(cursorField)).cell
    {
      n := cell;
      match FieldAt(cursorField) {
        case NoteField =>
          n := n.(note := EMPTY_FIELD);
          if masks.volumeMask {
            n := n.(volume := EMPTY_FIELD);
          }
          if masks.instrumentMask {
            n := n.(instrument := EMPTY_FIELD);
          }
          if masks.commandMask {
            n := n.(command := EMPTY_FIELD);
          }
        case OctaveField =>
        case InstrumentField => n := n.(instrument := EMPTY_FIELD);
        case VolumeField => n := n.(volume := EMPTY_FIELD);
        case CommandField => n := n.(command := EMPTY_FIELD);
        case ParameterField => n := n.(parameter := 0);
      }
    }

    method RememberCleared(seen: Note)
      requires Valid()
      modifies this`masks
      ensures Valid() && masks == MasksCleared(old(masks), FieldAt(cursorField), seen)
    {
      hide Valid;
      var m := masks;
      match FieldAt(cursorField) {
        case NoteField => m := m.(lastNote := seen.note);
        case OctaveField =>
        case InstrumentField => m := m.(lastInstrument := EMPTY_FIELD);
        case VolumeField => m := m.(lastVolume := EMPTY_FIELD);
        case _ => m := m.(lastCommand := seen.command, lastParameter := seen.parameter);
      }
      SetMasks(m);
    }

    method ClearFieldAtCursor()
      requires Valid()
      modifies pattern, this`masks, this`cursorY
      modifies this`selectionActive, this`selectionBeginX, this`selectionBeginY, this`selectionEndX, this`selectionEndY
      ensures Typed(ClearField(FieldAt(old(cursorField))))
    {
      hide Valid, Written, SheetFrom, UndoList.Valid, UndoList.Entries, CellOf, WithCell, DownBy, FieldLeft,
        FieldRight, FieldAt, Leaves, FieldCleared, MasksCleared;
      CurrentShape();
      HereIsInside();
      ghost var f := Found();
      var n := CursorNote();
      n := ClearedNote(n);
      var seen := SetAndGet(n);
      ClearFieldLeaves(f.sheet, f.x, f.y, f.masks, FieldAt(cursorField), seen);
      RememberCleared(seen);
      WrittenIs(f, ClearField(FieldAt(cursorField)), n);
      CursorMoveDown(cursorSpacing);
    }

    /** The selection is saved and shifted, or else the note at the cursor. */
    twostate predicate NotesShifted(reason: string, shift: Note -> Note, entry: Entry)
      reads this, pattern, clipboard, undo, undo.buffer, undo.owned, Others()
    {
      && old(undo.Valid())
      && if selectionActive then Saved(reason) && SelectionEdited(Change(shift)) else Typed(entry)
    }

    method SelectionRaise()
      requires Valid()
      modifies pattern, undo, undo.buffer
      ensures NotesShifted("Raise notes on selection", RaisedNote, RaiseNote)
    {
      hide Pattern.Valid, Pattern.State, SheetFrom, UndoList.Valid, UndoList.Entries, EditedSheet, Pushed, CellOf,
        WithCell, PlaceOk, Written;
      ghost var f, note := Found(), CellOf(SheetFrom(pattern), cursorX, cursorY);
      CurrentShape();
      HereIsInside();
      ShiftNotes("Raise notes on selection", RaisedNote);
      if !selectionActive {
        WrittenIs(f, RaiseNote, RaisedNote(note));
      }
    }

    method SelectionLower()
      requires Valid()
      modifies pattern, undo, undo.buffer
      ensures NotesShifted("Lower notes on selection", LoweredNote, LowerNote)
    {
      hide Pattern.Valid, Pattern.State, SheetFrom, UndoList.Valid, UndoList.Entries, EditedSheet, Pushed, CellOf,
        WithCell, PlaceOk, Written;
      ghost var f, note := Found(), CellOf(SheetFrom(pattern), cursorX, cursorY);
      CurrentShape();
      HereIsInside();
      ShiftNotes("Lower notes on selection", LoweredNote);
      if !selectionActive {
        WrittenIs(f, LowerNote, LoweredNote(note));
      }
    }

    method ToggleMaskAtCursor()
      requires Valid()
      modifies this`masks
      ensures Valid() && masks == MaskToggled(old(masks), FieldAt(cursorField))
    {
      hide Pattern.Valid, UndoList.Valid;
      match FieldAt(cursorField) {
        case InstrumentField => masks := masks.(instrumentMask := !masks.instrumentMask);
        case VolumeField => masks := masks.(volumeMask := !masks.volumeMask);
        case CommandField => masks := masks.(commandMask := !masks.commandMask);
        case ParameterField => masks := masks.(commandMask := !masks.commandMask);
        case _ =>
      }
    }

    /** Takes any instrument number, also one that no pattern file can hold. */
    method SetInstrumentMaskValue(value: int)
      requires Valid()
      modifies this`masks
      ensures Valid() && masks == old(masks).(lastInstrument := Byte(value))
    {
      masks := masks.(lastInstrument := Byte(value));
    }

    /** The key's note on the keyboard, in the given octave. */
    method InsertNoteAtCursor(increment: nat, octave: nat)
      requires Valid()
      modifies pattern, this`masks, this`cursorY
      modifies this`selectionActive, this`selectionBeginX, this`selectionBeginY, this`selectionEndX, this`selectionEndY
      ensures increment != NO_NOTE ==> Typed(NoteValue(KeyNote(increment, octave)))
      ensures increment == NO_NOTE ==> masks == old(masks) && Here() == old(Here()) && PatternUnchanged() && Valid()
    {
      hide Pattern.Valid, SheetFrom, UndoList.Valid, UndoList.Entries, Typed;
      if increment != NO_NOTE {
        var note := Byte(12 * octave + increment);
        if note >= NOTES {
          note := NOTES - 1;
        }
        InsertNoteValueAtCursor(note as int);
      }
    }

    /** Dispatches a key by the place of the cursor. */
    method PressKeyAtCursor(key: char, increment: nat, octave: nat)
      requires Valid()
      modifies pattern, this`masks, this`cursorX, this`cursorY, this`cursorField
      modifies this`selectionActive, this`selectionBeginX, this`selectionBeginY, this`selectionEndX, this`selectionEndY
      ensures Valid()
      ensures var entry := KeyEntry(old(cursorField), key, increment, octave);
        if entry.Some? then Typed(entry.value) else masks == old(masks) && Here() == old(Here()) && PatternUnchanged()
    {
      hide Pattern.Valid, SheetFrom, UndoList.Valid, UndoList.Entries, Written, AfterEntry, KeyNote;
      if cursorField == 0 {
        InsertNoteAtCursor(increment, octave);
      } else if cursorField == 1 {
        if IsNumber(key) {
          InsertOctaveAtCursor(Number(key));
        }
      } else if cursorField == 2 {
        if IsNumber(key) {
          InsertInstrumentAtCursor(Number(key), true);
        }
      } else if cursorField == 3 {
        if IsNumber(key) {
          InsertInstrumentAtCursor(Number(key), false);
        }
      } else if cursorField == 4 {
        if IsNumber(key) || IsLetter(key) {
          InsertVolumeAtCursorField1(key);
        }
      } else if cursorField == 5 {
        if IsNumber(key) {
          InsertVolumeAtCursorField2(Number(key));
        }
      } else if cursorField == 6 {
        if IsLetter(key) {
          InsertCommandAtCursor(key);
        }
      } else if cursorField == 7 {
        if IsHexNumber(key) {
          InsertParameterAtCursorField1(HexNumber(key));
        }
      } else if IsHexNumber(key) {
        InsertParameterAtCursorField2(HexNumber(key));
      }
    }
  }
}
