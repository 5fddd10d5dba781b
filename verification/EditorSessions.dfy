/** The editor's methods do, in place, what the commands of a session do; so whole sessions can be run on it. */
module EditorSessions {
  import opened BitMath
  import opened PatternStore
  import opened Orders
  import opened Blocks
  import opened Sheets
  import opened EditorUndo
  import opened FieldEntry
  import opened Cursors
  import opened PatternEditor
  import opened EditorRuns

  ghost predicate Totals(h: History<View>) {
    forall i | 0 <= i < |h| :: Total(h[i].view)
  }

  ghost predicate Total(v: View) {
    0 <= v.length && forall k :: k in v.cells
  }

  ghost function SheetSaved(s: Snapshot<View>): Snapshot<Sheet>
    requires Total(s.view)
  {
    Snapshot(s.description, s.index, SheetOf(s.view))
  }

  ghost function SheetsOf(h: History<View>): (saved: History<Sheet>)
    requires Totals(h)
    ensures |saved| == |h|
  {
    seq(|h|, i requires 0 <= i < |h| => SheetSaved(h[i]))
  }

  lemma SheetsOfPushed(h: History<View>, s: Snapshot<View>)
    requires Totals(h) && Total(s.view)
    ensures Totals(Pushed(h, s)) && SheetsOf(Pushed(h, s)) == Pushed(SheetsOf(h), SheetSaved(s))
  {
    hide SheetOf;
  }

  lemma EntriesAreTotal(undo: UndoList)
    requires undo.Valid()
    ensures Totals(undo.Entries())
  {
    hide Pattern.Valid, Pattern.Cells;
    undo.EntriesAre();
    forall i | 0 <= i < |undo.Entries()|
      ensures Total(undo.Entries()[i].view)
    {
      assert undo.Entries()[i].view == undo.owned[i].State();
      StateIsTotal(undo.owned[i]);
    }
  }

  lemma StateIsTotal(p: Pattern)
    ensures Total(p.State())
  {
  }

  /** What the editor has on its desk: every pattern, the clipboard, the remembered values and the undo list. */
  ghost function Desk(e: Editor): (w: Work)
    requires |e.patterns| == MAX_PATTERNS && e.undo.Valid()
    reads e, e.patterns, e.clipboard, e.undo, e.undo.buffer, e.undo.owned
    ensures |w.sheets| == MAX_PATTERNS && forall i | 0 <= i < MAX_PATTERNS :: w.sheets[i] == SheetFrom(e.patterns[i])
    ensures w.current == e.currentPattern && w.masks == e.masks
    ensures w.clip == SheetFrom(e.clipboard) && w.clipWidth == e.clipboardWidth
    ensures Totals(e.undo.Entries()) && w.saved == SheetsOf(e.undo.Entries())
  {
    EntriesAreTotal(e.undo);
    Work(seq(MAX_PATTERNS, i requires 0 <= i < |e.patterns| reads e.patterns => SheetFrom(e.patterns[i])),
         e.currentPattern, SheetFrom(e.clipboard), e.clipboardWidth, e.masks, SheetsOf(e.undo.Entries()))
  }

  /** A desk on which only one of the patterns has changed. */
  lemma OneSheetChanged(before: Work, after: Work, s: Sheet)
    requires 0 <= before.current < |before.sheets| == |after.sheets|
    requires after.current == before.current && after.sheets[after.current] == s
    requires forall i | 0 <= i < |before.sheets| && i != before.current :: after.sheets[i] == before.sheets[i]
    ensures after == WithSheet(before, s)
                     .(masks := after.masks, clip := after.clip, clipWidth := after.clipWidth, saved := after.saved)
  {
    assert after.sheets == before.sheets[before.current := s];
  }

  /** The command has been carried out on the editor. */
  twostate predicate Did(e: Editor, command: Command)
    reads e, e.patterns, e.pattern, e.clipboard, e.undo, e.undo.buffer, e.undo.owned, e.Others()
  {
    old(e.Valid()) && e.Valid() && Does(old(Desk(e)), command, Desk(e))
  }

  /** The pattern that is edited. */
  lemma CurrentSheet(e: Editor)
    requires e.Valid()
    ensures |e.patterns| == MAX_PATTERNS && e.undo.Valid() && e.pattern in e.patterns
    ensures var w := Desk(e); 0 <= w.current < MAX_PATTERNS && Now(w) == SheetFrom(e.pattern)
  {
  }

  /** The undo list after the editor has pushed the pattern. */
  lemma PushIsSaved(before: Work, reason: string, h: History<View>, p: Pattern)
    requires Totals(h) && before.saved == SheetsOf(h)
    requires 0 <= before.current < |before.sheets| && Now(before) == SheetFrom(p)
    ensures var pushed := Pushed(h, Snapshot(reason, before.current, p.State()));
      Totals(pushed) && SheetsOf(pushed) == Saved(before, reason).saved
  {
    hide SheetOf, SheetFrom, Pattern.State, SheetsOf, Pushed;
    StateIsTotal(p);
    StateIsSheet(p);
    SheetsOfPushed(h, Snapshot(reason, before.current, p.State()));
  }

  method InsertStep(e: Editor)
    requires e.Valid()
    modifies e.pattern
    ensures Did(e, InsertRowAt(e.cursorX, e.cursorY))
  {
    hide Pattern.Valid, SheetFrom, SheetOf, Pattern.State, UndoList.Valid, UndoList.Entries, SheetsOf, InsertedSheet;
    CurrentSheet(e);
    ghost var before := Desk(e);
    e.CursorInsert();
    OneSheetChanged(before, Desk(e), SheetFrom(e.pattern));
  }

  method DeleteStep(e: Editor)
    requires e.Valid()
    modifies e.pattern
    ensures Did(e, DeleteRowAt(e.cursorX, e.cursorY))
  {
    hide Pattern.Valid, SheetFrom, SheetOf, Pattern.State, UndoList.Valid, UndoList.Entries, SheetsOf, DeletedSheet;
    CurrentSheet(e);
    ghost var before := Desk(e);
    e.CursorDelete();
    OneSheetChanged(before, Desk(e), SheetFrom(e.pattern));
  }

  method PasteStep(e: Editor, paste: Paste)
    requires e.Valid()
    modifies e.pattern, e.undo, e.undo.buffer
    ensures Did(e, PasteAt(e.cursorX, e.cursorY, paste))
  {
    hide Pattern.Valid, SheetFrom, SheetOf, Pattern.State, UndoList.Valid, UndoList.Entries, SheetsOf, PastedSheet,
      Pushed;
    CurrentSheet(e);
    ghost var before := Desk(e);
    PushIsSaved(before, PasteReason(paste), e.undo.Entries(), e.pattern);
    match paste {
      case Overwrite => e.SelectionPasteOverwrite();
      case Mix => e.SelectionPasteMix();
      case Insert => e.SelectionPasteInsert();
    }
    OneSheetChanged(before, Desk(e), SheetFrom(e.pattern));
  }

  /** The editor's method for a block command. */
  method RunBlock(e: Editor, block: BlockCommand)
    requires e.Valid() && e.selectionActive
    modifies e.pattern, e.undo, e.undo.buffer
    ensures e.Saved(Reason(block))
    ensures if Applies(block, e.Selection()) then e.SelectionEdited(EditOf(block, e.masks)) else e.PatternUnchanged()
  {
    hide Pattern.Valid, SheetFrom, Pattern.State, UndoList.Valid, UndoList.Entries, EditedSheet, Pushed;
    match block {
      case Raise => e.SelectionRaise();
      case Lower => e.SelectionLower();
      case ScaleVolumes(percent) => e.SelectionVolumeScale(percent);
      case SetInstrumentMask => e.SelectionSetInstrumentMask();
      case SetVolumeMask => e.SelectionSetVolumeMask();
      case WipeStrayVolumes => e.SelectionWipeStrayVolumes();
      case ExpandBlock => e.SelectionExpand();
      case ShrinkBlock => e.SelectionShrink();
      case RampParameterColumn => e.SelectionParameterRamp();
      case RampVolumeColumn => e.SelectionVolumeRamp();
    }
  }

  method EditStep(e: Editor, block: BlockCommand)
    requires e.Valid() && e.selectionActive && (block.ScaleVolumes? ==> 0 <= block.percent)
    modifies e.pattern, e.undo, e.undo.buffer
    ensures Did(e, EditArea(e.Selection(), block))
  {
    hide Pattern.Valid, SheetFrom, SheetOf, Pattern.State, UndoList.Valid, UndoList.Entries, SheetsOf, EditedSheet,
      Pushed, EditOf, Reason;
    CurrentSheet(e);
    ghost var before := Desk(e);
    PushIsSaved(before, Reason(block), e.undo.Entries(), e.pattern);
    RunBlock(e, block);
    OneSheetChanged(before, Desk(e), SheetFrom(e.pattern));
  }

  method CopyStep(e: Editor)
    requires e.Valid()
    modifies e.clipboard, e`clipboardWidth
    ensures Did(e, CopyArea(e.Selection()))
  {
    hide Pattern.Valid, SheetFrom, SheetOf, Pattern.State, UndoList.Valid, UndoList.Entries, SheetsOf, Copies;
    CurrentSheet(e);
    ghost var before := Desk(e);
    e.SelectionCopy();
    OneSheetChanged(before, Desk(e), SheetFrom(e.pattern));
  }

  method CutStep(e: Editor)
    requires e.Valid()
    modifies e.pattern, e.clipboard, e`clipboardWidth, e.undo, e.undo.buffer
    ensures Did(e, CutArea(e.Selection()))
  {
    hide Pattern.Valid, SheetFrom, SheetOf, Pattern.State, UndoList.Valid, UndoList.Entries, SheetsOf, Copies,
      EditedSheet, Pushed;
    CurrentSheet(e);
    ghost var before := Desk(e);
    PushIsSaved(before, "Selection Zap", e.undo.Entries(), e.pattern);
    e.SelectionZap();
    OneSheetChanged(before, Desk(e), SheetFrom(e.pattern));
  }

  /** The editor's method for an entry at the cursor; notes are raised and lowered there when nothing is selected. */
  method RunEntry(e: Editor, entry: Entry)
    requires e.Valid() && (entry.RaiseNote? || entry.LowerNote? ==> !e.selectionActive) && Enterable(entry)
    requires !entry.ToggleMask? && !entry.SetInstrument? && FitsPlace(entry, e.cursorField)
    modifies e.pattern, e`masks, e.undo, e.undo.buffer, e`cursorX, e`cursorY, e`cursorField
    modifies e`selectionActive, e`selectionBeginX, e`selectionBeginY, e`selectionEndX, e`selectionEndY
    ensures e.Typed(entry)
  {
    hide Pattern.Valid, SheetFrom, Pattern.State, UndoList.Valid, UndoList.Entries, Editor.Written, AfterEntry;
    match entry {
      case NoteValue(value) => e.InsertNoteValueAtCursor(value);
      case Octave(digit) => e.InsertOctaveAtCursor(digit);
      case InstrumentTens(digit) => e.InsertInstrumentAtCursor(digit, true);
      case InstrumentUnits(digit) => e.InsertInstrumentAtCursor(digit, false);
      case VolumeFirst(key) => e.InsertVolumeAtCursorField1(key);
      case VolumeSecond(digit) => e.InsertVolumeAtCursorField2(digit);
      case Command(key) => e.InsertCommandAtCursor(key);
      case ParameterHigh(digit) => e.InsertParameterAtCursorField1(digit);
      case ParameterLow(digit) => e.InsertParameterAtCursorField2(digit);
      case NoteOff(_) => e.PressNoteOffAtCursor();
      case NoteCut => e.PressNoteCutAtCursor();
      case WriteMask(_) => e.PressMaskWriteCursor();
      case ReadMask(_) => e.GetMaskFromCursor();
      case ClearField(_) => e.ClearFieldAtCursor();
      case RaiseNote => e.SelectionRaise();
      case LowerNote => e.SelectionLower();
    }
  }

  method TypeStep(e: Editor, entry: Entry)
    requires e.Valid() && (entry.RaiseNote? || entry.LowerNote? ==> !e.selectionActive) && Enterable(entry)
    requires !entry.ToggleMask? && !entry.SetInstrument? && FitsPlace(entry, e.cursorField)
    modifies e.pattern, e`masks, e.undo, e.undo.buffer, e`cursorX, e`cursorY, e`cursorField
    modifies e`selectionActive, e`selectionBeginX, e`selectionBeginY, e`selectionEndX, e`selectionEndY
    ensures Did(e, TypeAt(old(e.cursorX), old(e.cursorY), entry))
  {
    hide Pattern.Valid, SheetFrom, SheetOf, Pattern.State, UndoList.Valid, UndoList.Entries, SheetsOf, TypedSlot,
      WithCell, AfterEntry;
    CurrentSheet(e);
    ghost var before := Desk(e);
    RunEntry(e, entry);
    OneSheetChanged(before, Desk(e), SheetFrom(e.pattern));
  }

  function OnlyMasks(m: Masks, entry: Entry): Masks {
    match entry
    case ToggleMask(field) => MaskToggled(m, field)
    case SetInstrument(value) => m.(lastInstrument := Byte(value))
    case _ => m
  }

  lemma MasksOnly(w: Work, x: int, y: int, entry: Entry)
    requires (entry.ToggleMask? || entry.SetInstrument?) && Possible(TypeAt(x, y, entry))
    requires 0 <= w.current < |w.sheets| == MAX_PATTERNS && Shaped(Now(w))
    ensures Does(w, TypeAt(x, y, entry), w.(masks := OnlyMasks(w.masks, entry)))
  {
    hide CellOf, WithCell, MaskToggled;
    SameCell(Now(w), x, y);
    assert w.sheets[w.current := Now(w)] == w.sheets;
  }

  /** The entries that change what the editor remembers, and no cell. */
  method MaskStep(e: Editor, entry: Entry)
    requires e.Valid() && (entry.ToggleMask? || entry.SetInstrument?) && Enterable(entry)
    requires FitsPlace(entry, e.cursorField)
    modifies e`masks
    ensures Did(e, TypeAt(e.cursorX, e.cursorY, entry))
  {
    hide Pattern.Valid, SheetFrom, SheetOf, Pattern.State, UndoList.Valid, UndoList.Entries, SheetsOf, Editor.Valid,
      Does, MaskToggled;
    CurrentSheet(e);
    e.CurrentShape();
    e.HereIsInside();
    ghost var before := Desk(e);
    MasksOnly(before, e.cursorX, e.cursorY, entry);
    if entry.ToggleMask? {
      e.ToggleMaskAtCursor();
    } else {
      e.SetInstrumentMaskValue(entry.value);
    }
    CurrentSheet(e);
    assert Desk(e).sheets == before.sheets;
  }

  method UndoStep(e: Editor, k: int)
    requires e.Valid()
    modifies e.pattern, e.undo, e.undo.buffer
    ensures Did(e, UndoEntry(k))
  {
    hide Pattern.Valid, SheetFrom, SheetOf, Pattern.State, UndoList.Valid, UndoList.Entries, SheetsOf, UndoneAt;
    CurrentSheet(e);
    ghost var before, h, view := Desk(e), e.undo.Entries(), e.pattern.State();
    StateIsTotal(e.pattern);
    StateIsSheet(e.pattern);
    e.UndoAt(k);
    StateIsSheet(e.pattern);
    SheetsOfUndone(h, view, k);
    OneSheetChanged(before, Desk(e), SheetFrom(e.pattern));
  }

  lemma SheetsOfUndone(h: History<View>, view: View, k: int)
    requires Totals(h) && Total(view)
    ensures var u, v := UndoneAt(h, view, k), UndoneAt(SheetsOf(h), SheetOf(view), k);
      Total(u.view) && Totals(u.history) && v.view == SheetOf(u.view) && v.history == SheetsOf(u.history)
  {
    hide SheetOf, Pushed, Total;
    if 0 <= k < |h| {
      SheetsOfPushed(h, Snapshot(Redo(h[k].description), h[k].index, view));
    }
  }

  method GotoStep(e: Editor, p: int)
    requires e.Valid()
    modifies e`currentPattern, e`pattern, e.undo, e.undo.buffer
    modifies e`selectionBeginX, e`selectionBeginY, e`selectionEndX, e`selectionEndY
    ensures Did(e, GotoPattern(p))
  {
    hide Pattern.Valid, SheetFrom, SheetOf, Pattern.State, UndoList.Valid, UndoList.Entries, SheetsOf, Pushed,
      Normalized;
    CurrentSheet(e);
    ghost var before := Desk(e);
    if 0 <= p < MAX_PATTERNS {
      PushIsSaved(before.(current := p), PatternName(e.currentPattern), e.undo.Entries(), e.patterns[p]);
    }
    e.CursorGotoPattern(p);
    assert Desk(e).sheets == before.sheets;
  }

  method ShowStep(e: Editor, p: int)
    requires e.Valid() && 0 <= p < MAX_PATTERNS
    modifies e`currentPattern, e`pattern
    ensures Did(e, ShowPattern(p))
  {
    hide Pattern.Valid, SheetFrom, SheetOf, Pattern.State, UndoList.Valid, UndoList.Entries, SheetsOf;
    CurrentSheet(e);
    ghost var before := Desk(e);
    e.SetCurrentPattern(p);
    assert Desk(e).sheets == before.sheets;
  }

  method SaveStep(e: Editor, reason: string)
    requires e.Valid()
    modifies e.undo, e.undo.buffer
    ensures Did(e, SavePattern(reason))
  {
    hide Pattern.Valid, SheetFrom, SheetOf, Pattern.State, UndoList.Valid, UndoList.Entries, SheetsOf, Pushed;
    CurrentSheet(e);
    ghost var before := Desk(e);
    PushIsSaved(before, reason, e.undo.Entries(), e.pattern);
    e.PushCurrentPattern(reason);
    assert Desk(e).sheets == before.sheets;
  }

  /** Sets the length of any pattern of the song, current or not; the cursor stays. */
  method ResizeStep(e: Editor, p: int, length: u8)
    requires e.Valid() && 0 <= p < MAX_PATTERNS
    modifies e.patterns[p]
    ensures Did(e, Resize(p, length))
  {
    hide Pattern.Valid, SheetFrom, SheetOf, Pattern.State, UndoList.Valid, UndoList.Entries, SheetsOf;
    CurrentSheet(e);
    ghost var before := Desk(e);
    ResizePattern(e.patterns[p], length);
    assert Desk(e).sheets == before.sheets[p := SheetFrom(e.patterns[p])];
  }

  method ResizePattern(p: Pattern, length: u8)
    requires p.Valid()
    modifies p
    ensures p.Valid() && Resizes(old(SheetFrom(p)), length, SheetFrom(p))
  {
    hide Pattern.Valid, SheetFrom, SheetOf, Pattern.State, Resizes;
    ghost var before := p.State();
    StateIsSheet(p);
    LengthInView(p);
    p.SetNewLength(length);
    StateIsSheet(p);
    SetLengthResizes(before, length, p.State());
  }

  /** The desk is as it was: only the cursor and the selection have moved. */
  twostate predicate Undisturbed(e: Editor)
    reads e, e.patterns, e.pattern, e.clipboard, e.undo, e.undo.buffer, e.undo.owned, e.Others()
  {
    old(e.Valid()) && e.Valid() && Desk(e) == old(Desk(e))
  }

  method PutCursor(e: Editor, x: int, y: int, place: int)
    requires e.Valid() && CursorOk(x, y) && 0 <= place < FIELDS_MAX
    modifies e`cursorX, e`cursorY, e`cursorField, e`selectionActive
    ensures Undisturbed(e) && e.cursorX == x && e.cursorY == y && e.cursorField == place && !e.selectionActive
  {
    hide Pattern.Valid, SheetFrom, SheetOf, Pattern.State, UndoList.Valid, UndoList.Entries, SheetsOf, Editor.Valid;
    CurrentSheet(e);
    ghost var before := Desk(e);
    e.PlaceCursor(x, y, place);
    CurrentSheet(e);
    assert Desk(e).sheets == before.sheets;
  }

  method Select(e: Editor, area: Area)
    requires e.Valid() && AreaOk(area)
    modifies e`selectionActive, e`selectionBeginX, e`selectionBeginY, e`selectionEndX, e`selectionEndY
    ensures Undisturbed(e) && e.selectionActive && e.Selection() == area
  {
    hide Pattern.Valid, SheetFrom, SheetOf, Pattern.State, UndoList.Valid, UndoList.Entries, SheetsOf, Editor.Valid;
    CurrentSheet(e);
    ghost var before := Desk(e);
    e.MarkArea(area);
    CurrentSheet(e);
    assert Desk(e).sheets == before.sheets;
  }

  /** Carries out a command, with the cursor and the selection put where it is given. */
  method Carry(e: Editor, command: Command)
    requires e.Valid() && Possible(command)
    modifies e, e.patterns, e.clipboard, e.undo, e.undo.buffer
    ensures Did(e, command)
  {
    hide Pattern.Valid, SheetFrom, SheetOf, Pattern.State, UndoList.Valid, UndoList.Entries, SheetsOf, Editor.Valid,
      Desk, Does, AreaOk, Enterable;
    CurrentSheet(e);
    match command {
      case TypeAt(x, y, entry) =>
        PutCursor(e, x, y, PlaceFor(entry));
        if entry.ToggleMask? || entry.SetInstrument? {
          MaskStep(e, entry);
        } else {
          TypeStep(e, entry);
        }
      case EditArea(area, block) =>
        Select(e, area);
        EditStep(e, block);
      case CopyArea(area) =>
        Select(e, area);
        CopyStep(e);
      case CutArea(area) =>
        Select(e, area);
        CutStep(e);
      case PasteAt(x, y, paste) =>
        PutCursor(e, x, y, 0);
        PasteStep(e, paste);
      case InsertRowAt(x, y) =>
        PutCursor(e, x, y, 0);
        InsertStep(e);
      case DeleteRowAt(x, y) =>
        PutCursor(e, x, y, 0);
        DeleteStep(e);
      case UndoEntry(k) => UndoStep(e, k);
      case GotoPattern(p) => GotoStep(e, p);
      case ShowPattern(p) => ShowStep(e, p);
      case SavePattern(reason) => SaveStep(e, reason);
      case Resize(p, length) => ResizeStep(e, p, length);
    }
  }

  /** A whole session, run in place. */
  method Run(e: Editor, commands: seq<Command>)
    requires e.Valid() && forall i | 0 <= i < |commands| :: Possible(commands[i])
    modifies e, e.patterns, e.clipboard, e.undo, e.undo.buffer
    ensures Ran(e, commands)
  {
    hide Pattern.Valid, SheetFrom, SheetOf, Pattern.State, UndoList.Valid, UndoList.Entries, SheetsOf, Editor.Valid,
      Desk, Does, Possible;
    CurrentSheet(e);
    ghost var before := Desk(e);
    assert commands[..0] == [];
    for i := 0 to |commands|
      invariant Ran(e, commands[..i])
    {
      CurrentSheet(e);
      ghost var middle := Desk(e);
      Carry(e, commands[i]);
      CurrentSheet(e);
      LeadsOn(before, commands[..i], middle, commands[i], Desk(e));
      assert commands[..i] + [commands[i]] == commands[..i + 1];
    }
    assert commands[..|commands|] == commands;
  }

  twostate predicate Ran(e: Editor, commands: seq<Command>)
    reads e, e.patterns, e.pattern, e.clipboard, e.undo, e.undo.buffer, e.undo.owned, e.Others()
  {
    old(e.Valid()) && e.Valid() && Leads(old(Desk(e)), commands, Desk(e))
  }

  /** The new lengths of the current pattern and the ones after it, as far as there are patterns. */
  function NewLengths(current: int, count: nat, length: u8): seq<Command>
    requires 0 <= current <= MAX_PATTERNS
  {
    seq(Min(count, MAX_PATTERNS - current), k requires 0 <= k => Resize(current + k, length))
  }

  /** The dialog that resizes the current pattern and the given number of patterns after it. */
  method SetPatternLen(e: Editor, more: nat, length: u8)
    requires e.Valid()
    modifies e.patterns
    ensures 0 <= e.currentPattern < MAX_PATTERNS && Ran(e, NewLengths(e.currentPattern, more + 1, length))
  {
    hide Pattern.Valid, SheetFrom, SheetOf, Pattern.State, UndoList.Valid, UndoList.Entries, SheetsOf, Editor.Valid,
      Desk, Does;
    CurrentSheet(e);
    ghost var before := Desk(e);
    var first := e.currentPattern;
    for i := 0 to more + 1
      invariant e.currentPattern == first && Ran(e, NewLengths(first, i, length))
    {
      if first + i >= MAX_PATTERNS {
        assert NewLengths(first, i, length) == NewLengths(first, more + 1, length);
        return;
      }
      CurrentSheet(e);
      ghost var middle := Desk(e);
      ResizeStep(e, first + i, length);
      CurrentSheet(e);
      LeadsOn(before, NewLengths(first, i, length), middle, Resize(first + i, length), Desk(e));
      assert NewLengths(first, i, length) + [Resize(first + i, length)] == NewLengths(first, i + 1, length);
    }
  }
}
