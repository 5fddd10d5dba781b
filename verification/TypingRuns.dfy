/** Notes typed one after the other: the cursor leads each to a cell of its own. */
module TypingRuns {
  import opened Division
  import opened Options
  import opened PatternStore
  import opened Sheets
  import opened FieldEntry
  import opened Cursors
  import opened EditorUndo
  import opened PatternEditor

  /** The pattern, the cursor and the remembered values. */
  datatype Typist = Typist(sheet: Sheet, place: Place, masks: Masks)

  ghost function Noted(t: Typist, value: int, spacing: int): Typist {
    var slot := TypedSlot(t.sheet, t.place.x, t.place.y, t.masks, NoteValue(value));
    var note := CellOf(t.sheet, t.place.x, t.place.y).note;
    Typist(WithCell(t.sheet, t.place.x, t.place.y, slot.cell),
           AfterEntry(t.place, NoteValue(value), note, spacing, None, t.sheet.rows), slot.masks)
  }

  ghost function AllNoted(t: Typist, values: seq<int>, spacing: int): Typist {
    if |values| == 0 then t else Noted(AllNoted(t, values[..|values| - 1], spacing), values[|values| - 1], spacing)
  }

  lemma NotedCell(t: Typist, value: int, spacing: nat)
    requires Shaped(t.sheet) && 0 <= t.place.x < PATTERN_WIDTH && 0 <= t.place.y < t.sheet.rows && 0 <= value < 120
    ensures
      var u := Noted(t, value, spacing);
      && Shaped(u.sheet) && u.sheet.rows == t.sheet.rows && u.sheet.grid[t.place.x][t.place.y].note as int == value
      && u.place == t.place.(y := if t.place.y + spacing < t.sheet.rows then t.place.y + spacing else t.sheet.rows - 1)
      && forall c, r | 0 <= c < PATTERN_WIDTH && 0 <= r < t.sheet.rows && !(c == t.place.x && r == t.place.y) ::
        u.sheet.grid[c][r] == t.sheet.grid[c][r]
  {
    ByteOf(value);
  }

  /** The row of note i. */
  function RowOf(y: nat, spacing: nat, i: nat): nat {
    ProductGrows(spacing, 0, i);
    y + spacing * i
  }

  lemma RowsGrow(y: nat, spacing: nat, i: nat, j: nat)
    requires i < j && 1 <= spacing
    ensures RowOf(y, spacing, i) < RowOf(y, spacing, j)
    ensures RowOf(y, spacing, i + 1) == RowOf(y, spacing, i) + spacing && RowOf(y, spacing, 0) == y
  {
    ProductGrows(spacing, i + 1, j);
    assert spacing * (i + 1) == spacing * i + spacing;
  }

  /** Notes typed at any spacing fill a column at that spacing, and no other cell changes. */
  lemma {:induction false} NotesFillTheColumn(t: Typist, values: seq<int>, spacing: nat)
    requires Shaped(t.sheet) && 0 <= t.place.x < PATTERN_WIDTH && 0 <= t.place.y && 1 <= spacing && |values| > 0
    requires forall i | 0 <= i < |values| :: 0 <= values[i] < 120
    requires RowOf(t.place.y, spacing, |values| - 1) < t.sheet.rows
    ensures
      var u, next := AllNoted(t, values, spacing), RowOf(t.place.y, spacing, |values|);
      && Shaped(u.sheet) && u.sheet.rows == t.sheet.rows
      && u.place == t.place.(y := if next < t.sheet.rows then next else t.sheet.rows - 1)
      && (forall i | 0 <= i < |values| ::
            RowOf(t.place.y, spacing, i) < u.sheet.rows
            && u.sheet.grid[t.place.x][RowOf(t.place.y, spacing, i)].note as int == values[i])
      && forall c, r | 0 <= c < PATTERN_WIDTH && 0 <= r < t.sheet.rows
           && !(c == t.place.x && exists i | 0 <= i < |values| :: r == RowOf(t.place.y, spacing, i)) ::
        u.sheet.grid[c][r] == t.sheet.grid[c][r]
    decreases |values|
  {
    hide Noted, RowOf;
    var y, n := t.place.y, |values| - 1;
    RowsGrow(y, spacing, n, n + 1);
    var before := AllNoted(t, values[..n], spacing);
    if n == 0 {
      assert before == t by { assert values[..0] == []; }
      RowsGrow(y, spacing, 0, 1);
    } else {
      RowsGrow(y, spacing, n - 1, n);
      NotesFillTheColumn(t, values[..n], spacing);
    }
    forall i | 0 <= i < n
      ensures RowOf(y, spacing, i) < RowOf(y, spacing, n)
    {
      RowsGrow(y, spacing, i, n);
    }
    NotedCell(before, values[n], spacing);
  }

  lemma CellKeepsRows(t: Typist, entry: Entry)
    ensures
      var slot := TypedSlot(t.sheet, t.place.x, t.place.y, t.masks, entry);
      WithCell(t.sheet, t.place.x, t.place.y, slot.cell).rows == t.sheet.rows
  {
  }

  /** The editor itself, with shift not held. */
  method TypeNotes(e: Editor, values: seq<int>)
    requires e.Valid() && !e.shiftSelectionInProgress
    modifies e.pattern, e`masks, e`cursorY
    modifies e`selectionActive, e`selectionBeginX, e`selectionBeginY, e`selectionEndX, e`selectionEndY
    ensures e.Valid()
    ensures Typist(SheetFrom(e.pattern), e.Here(), e.masks) ==
      AllNoted(old(Typist(SheetFrom(e.pattern), e.Here(), e.masks)), values, e.cursorSpacing)
  {
    hide Pattern.Valid, SheetFrom, Editor.Valid, Editor.InSong, UndoList.Valid, UndoList.Entries, TypedSlot, WithCell,
      AfterEntry, CellOf;
    ghost var start := Typist(SheetFrom(e.pattern), e.Here(), e.masks);
    assert values[..0] == [];
    for i := 0 to |values|
      invariant e.Valid()
      invariant Typist(SheetFrom(e.pattern), e.Here(), e.masks) == AllNoted(start, values[..i], e.cursorSpacing)
    {
      e.HereIsInside();
      RowsAreLength(e.pattern);
      ghost var before := Typist(SheetFrom(e.pattern), e.Here(), e.masks);
      CellKeepsRows(before, NoteValue(values[i]));
      e.InsertNoteValueAtCursor(values[i]);
      RowsAreLength(e.pattern);
      assert values[..i + 1][..i] == values[..i];
    }
    assert values[..|values|] == values;
  }
}
