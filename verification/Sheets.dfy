/** A pattern as the editor's commands see it, and what each command makes of it. */
module Sheets {
  import opened BitMath
  import opened Notes
  import opened PatternStore
  import opened PatternCodec
  import opened Blocks
  import opened FieldEntry

  /** What can be seen of a pattern, and the cells past its end, which a longer length may show again. */
  datatype Sheet = Sheet(grid: Grid, rows: nat, hidden: Cells)

  ghost function SheetFrom(p: Pattern): Sheet
    reads p
  {
    Sheet(p.Grid(), p.length as nat, p.Hidden())
  }

  ghost function SheetOf(v: View): Sheet
    requires 0 <= v.length && forall k :: k in v.cells
  {
    Sheet(GridOf(v.cells, v.length), v.length, HiddenOf(v.cells, v.length))
  }

  lemma StateIsSheet(p: Pattern)
    ensures SheetOf(p.State()) == SheetFrom(p)
  {
  }

  /** The rows that can be seen make a whole number of columns. */
  ghost predicate Shaped(s: Sheet) {
    Shape(s.grid, s.rows)
  }

  lemma RowsAreLength(p: Pattern)
    ensures SheetFrom(p).rows == p.length as int
  {
  }

  lemma LengthInView(p: Pattern)
    requires p.Valid()
    ensures 1 <= p.State().length <= MAX_PATTERN_LENGTH
  {
  }

  /** What get_note answers, in sight or not. */
  ghost function CellOf(s: Sheet, c: int, r: int): Note {
    if 0 <= c < |s.grid| && 0 <= r < |s.grid[c]| then s.grid[c][r]
    else if (c, r) in s.hidden then s.hidden[(c, r)]
    else EMPTY
  }

  lemma CellIsAt(p: Pattern, c: int, r: int)
    ensures CellOf(SheetFrom(p), c, r) == p.At(c, r)
  {
    hide Pattern.At;
    assert p.Cells()[(c, r)] == p.At(c, r);
  }

  ghost function WithColumn(s: Sheet, c: int, col: Rows): Sheet {
    if 0 <= c < |s.grid| then s.(grid := s.grid[c := col]) else s
  }

  /** The first rows of a column, whether in sight or not. */
  ghost function TallColumn(s: Sheet, c: int, height: nat): (col: Rows)
    ensures |col| == height && forall r | 0 <= r < height :: col[r] == CellOf(s, c, r)
  {
    seq(height, r requires 0 <= r < height => CellOf(s, c, r))
  }

  /** How many rows an edit of rows up to the given one takes into account. */
  function Height(rows: nat, last: int): nat {
    if last < rows then rows else last + 1
  }

  /** What an edit makes of a column: it reads the selected rows past the end too, but writes none of them. */
  ghost function EditedColumn(s: Sheet, c: int, edit: Edit, first: int, last: int): (col: Rows)
    ensures |col| == s.rows
  {
    Edited(TallColumn(s, c, Height(s.rows, last)), edit, first, last)[..s.rows]
  }

  /** A selection inside the pattern is edited as if nothing were hidden. */
  lemma EditedInside(s: Sheet, c: int, edit: Edit, first: int, last: int)
    requires Shaped(s) && 0 <= c < PATTERN_WIDTH && last < s.rows
    ensures EditedColumn(s, c, edit, first, last) == Edited(s.grid[c], edit, first, last)
  {
    hide Edited;
    assert TallColumn(s, c, s.rows) == s.grid[c];
  }

  ghost function EditedSheet(s: Sheet, area: Area, edit: Edit): Sheet {
    s.(grid := seq(|s.grid|, c requires 0 <= c < |s.grid| =>
      if Selected(area.firstColumn, area.lastColumn, c)
      then EditedColumn(s, c, edit, area.firstRow, area.lastRow)
      else s.grid[c]))
  }

  lemma EditedNowhere(s: Sheet, area: Area, edit: Edit)
    requires area.lastColumn < area.firstColumn
    ensures EditedSheet(s, area, edit) == s
  {
    assert EditedSheet(s, area, edit).grid == s.grid;
  }

  /** The columns are edited one by one, and do not depend on each other. */
  lemma EditedNextColumn(s: Sheet, area: Area, edit: Edit, c: int)
    requires Shaped(s) && 0 <= area.firstColumn <= c < PATTERN_WIDTH
    ensures var before := EditedSheet(s, area.(lastColumn := c - 1), edit);
      && Shaped(before)
      && WithColumn(before, c, EditedColumn(before, c, edit, area.firstRow, area.lastRow)) ==
         EditedSheet(s, area.(lastColumn := c), edit)
  {
    hide Edited;
    var before, after := EditedSheet(s, area.(lastColumn := c - 1), edit), EditedSheet(s, area.(lastColumn := c), edit);
    var height := Height(s.rows, area.lastRow);
    assert TallColumn(before, c, height) == TallColumn(s, c, height);
    assert before.grid[c := after.grid[c]] == after.grid;
  }

  function PastedGrid(g: Grid, clip: seq<Rows>, x: int, y: nat, paste: Paste): Grid {
    seq(|g|, c requires 0 <= c < |g| =>
      if x <= c < x + |clip| then Pasted(g[c], clip[c - x], y, paste) else g[c])
  }

  ghost function PastedSheet(s: Sheet, clip: seq<Rows>, x: int, y: nat, paste: Paste): Sheet {
    s.(grid := PastedGrid(s.grid, clip, x, y, paste))
  }

  lemma PastedNowhere(s: Sheet, x: int, y: nat, paste: Paste)
    ensures PastedSheet(s, [], x, y, paste) == s
  {
    assert PastedGrid(s.grid, [], x, y, paste) == s.grid;
  }

  lemma PastedNextColumn(s: Sheet, clip: seq<Rows>, x: nat, y: nat, paste: Paste, k: nat)
    requires Shaped(s) && x + k < PATTERN_WIDTH && k < |clip|
    ensures var before := PastedSheet(s, clip[..k], x, y, paste);
      && Shaped(before)
      && WithColumn(before, x + k, Pasted(before.grid[x + k], clip[k], y, paste)) ==
         PastedSheet(s, clip[..k + 1], x, y, paste)
  {
    hide Pasted;
    var before, after := PastedGrid(s.grid, clip[..k], x, y, paste), PastedGrid(s.grid, clip[..k + 1], x, y, paste);
    assert before[x + k := after[x + k]] == after;
  }

  /** Columns that do not fit in are left out. */
  lemma PastedAsFarAsFits(s: Sheet, clip: seq<Rows>, x: nat, y: nat, paste: Paste, k: nat)
    requires Shaped(s) && k <= |clip| && PATTERN_WIDTH <= x + k
    ensures PastedSheet(s, clip[..k], x, y, paste) == PastedSheet(s, clip, x, y, paste)
  {
    hide Pasted;
    assert PastedGrid(s.grid, clip[..k], x, y, paste) == PastedGrid(s.grid, clip, x, y, paste);
  }

  ghost function InsertedSheet(s: Sheet, x: int, y: nat): Sheet {
    if 0 <= x < |s.grid| then WithColumn(s, x, Inserted(s.grid[x], y)) else s
  }

  ghost function DeletedSheet(s: Sheet, x: int, y: nat): Sheet {
    if 0 <= x < |s.grid| then WithColumn(s, x, Deleted(s.grid[x], y)) else s
  }

  ghost function WithCell(s: Sheet, x: int, y: int, n: Note): Sheet {
    if 0 <= x < |s.grid| && 0 <= y < |s.grid[x]| then s.(grid := Put(s.grid, x, y, n)) else s
  }

  /** What is read after a write: past the end, still the old cell. */
  lemma CellAfterWrite(s: Sheet, x: int, y: int, n: Note, m: Note)
    requires Shaped(s) && 0 <= x < PATTERN_WIDTH && 0 <= y
    ensures CellOf(WithCell(s, x, y, n), x, y) == if y < s.rows then n else CellOf(s, x, y)
    ensures WithCell(WithCell(s, x, y, n), x, y, m) == WithCell(s, x, y, m)
    ensures s.rows <= y ==> WithCell(s, x, y, n) == s
  {
    if y < s.rows {
      assert s.grid[x][y := n][y := m] == s.grid[x][y := m];
      assert Put(Put(s.grid, x, y, n), x, y, m) == Put(s.grid, x, y, m);
    }
  }

  /** A cell written with what it holds. */
  lemma SameCell(s: Sheet, x: int, y: int)
    requires Shaped(s) && 0 <= x < PATTERN_WIDTH && 0 <= y
    ensures WithCell(s, x, y, CellOf(s, x, y)) == s
  {
    if y < s.rows {
      assert s.grid[x][y := s.grid[x][y]] == s.grid[x];
      assert Put(s.grid, x, y, s.grid[x][y]) == s.grid;
    }
  }

  /** The cell under the cursor and the remembered values after an entry; past the end nothing is written. */
  ghost function TypedSlot(s: Sheet, x: int, y: int, m: Masks, entry: Entry): Slot {
    var slot := Slot(CellOf(s, x, y), m);
    if y < s.rows then Entered(slot, entry) else Slot(slot.cell, MasksPast(slot, entry))
  }

  /** Whether the note and the remembered values are what an entry leaves; past the end the note does not matter. */
  ghost predicate Leaves(s: Sheet, x: int, y: int, m: Masks, entry: Entry, n: Note, after: Masks) {
    var slot := TypedSlot(s, x, y, m, entry);
    after == slot.masks && (y < s.rows ==> n == slot.cell)
  }

  lemma LeavesTheSheet(s: Sheet, x: int, y: int, m: Masks, entry: Entry, n: Note, after: Masks)
    requires Shaped(s) && 0 <= x < PATTERN_WIDTH && 0 <= y && Leaves(s, x, y, m, entry, n, after)
    ensures WithCell(s, x, y, n) == WithCell(s, x, y, TypedSlot(s, x, y, m, entry).cell)
  {
    hide TypedSlot;
    CellAfterWrite(s, x, y, n, n);
    CellAfterWrite(s, x, y, TypedSlot(s, x, y, m, entry).cell, n);
  }

  /** Reading what is remembered from the cell itself or from the reference to it. */
  lemma ReadMaskLeaves(s: Sheet, x: int, y: int, m: Masks, field: Field, seen: Note)
    requires seen == if y < s.rows || !ByReference(field) then CellOf(s, x, y) else EMPTY
    ensures Leaves(s, x, y, m, ReadMask(field), CellOf(s, x, y), MaskRead(Slot(seen, m), field).masks)
  {
    hide CellOf;
  }

  lemma ClearFieldLeaves(s: Sheet, x: int, y: int, m: Masks, field: Field, seen: Note)
    requires var n := FieldCleared(Slot(CellOf(s, x, y), m), field).cell;
      seen == if y < s.rows then n else CellOf(s, x, y)
    ensures Leaves(s, x, y, m, ClearField(field), FieldCleared(Slot(CellOf(s, x, y), m), field).cell,
                   MasksCleared(m, field, seen))
  {
    hide CellOf;
  }

  /** The copied rows of a column, in sight or not. */
  ghost function CopiedColumn(s: Sheet, c: int, first: int, last: int): Rows
    requires 0 <= first <= last
  {
    TallColumn(s, c, last + 1)[first..]
  }

  /** The clipboard after the area of the sheet has been copied to it, column by column. */
  ghost function CopiedSheet(clip: Sheet, s: Sheet, area: Area): Sheet {
    if !(0 <= area.firstRow <= area.lastRow) then clip
    else
      clip.(grid := seq(|clip.grid|, c requires 0 <= c < |clip.grid| =>
        if c <= area.lastColumn - area.firstColumn
        then CopiedColumn(s, area.firstColumn + c, area.firstRow, area.lastRow)
        else clip.grid[c]))
  }

  lemma CopiedNowhere(clip: Sheet, s: Sheet, area: Area)
    requires area.lastColumn < area.firstColumn || area.lastRow < area.firstRow
    ensures CopiedSheet(clip, s, area) == clip
  {
    assert CopiedSheet(clip, s, area).grid == clip.grid;
  }

  lemma CopiedNextColumn(clip: Sheet, s: Sheet, area: Area, c: int)
    requires Shaped(clip) && 0 <= area.firstColumn <= c < PATTERN_WIDTH && 0 <= area.firstRow <= area.lastRow
    ensures var before := CopiedSheet(clip, s, area.(lastColumn := c - 1));
      WithColumn(before, c - area.firstColumn, CopiedColumn(s, c, area.firstRow, area.lastRow)) ==
      CopiedSheet(clip, s, area.(lastColumn := c))
  {
    var before, after := CopiedSheet(clip, s, area.(lastColumn := c - 1)), CopiedSheet(clip, s, area.(lastColumn := c));
    assert before.grid[c - area.firstColumn := CopiedColumn(s, c, area.firstRow, area.lastRow)] == after.grid;
  }

  /** The length the clipboard is given, which the store may refuse. */
  function ClipLength(area: Area): u8 {
    (area.lastRow - area.firstRow + 1) % 0x100
  }

  lemma ClipLengthFits(clip: Sheet, area: Area, sized: Sheet)
    requires Resizes(clip, ClipLength(area), sized)
    ensures Shaped(sized)
    ensures 0 <= area.firstRow <= area.lastRow < MAX_PATTERN_LENGTH ==>
      sized.rows == area.lastRow - area.firstRow + 1
  {
  }

  /** Copying: the clipboard is resized, which may show what it held before, and then filled. */
  ghost predicate Copies(clip: Sheet, s: Sheet, area: Area, after: Sheet) {
    exists t :: Resizes(clip, ClipLength(area), t) && after == CopiedSheet(t, s, area)
  }

  /** The columns that pasting uses. */
  function ClipColumns(clip: Sheet, width: int): seq<Rows> {
    if width < 0 then [] else if width < |clip.grid| then clip.grid[..width] else clip.grid
  }

  /** Nothing of what the clipboard held before is in sight in the columns that were copied. */
  lemma ClipIsTheSelection(clip: Sheet, s: Sheet, area: Area, after: Sheet)
    requires Copies(clip, s, area, after)
    requires 0 <= area.firstColumn <= area.lastColumn < PATTERN_WIDTH
    requires 0 <= area.firstRow <= area.lastRow < MAX_PATTERN_LENGTH
    ensures var columns := ClipColumns(after, area.lastColumn - area.firstColumn + 1);
      && |columns| == area.lastColumn - area.firstColumn + 1
      && forall c | 0 <= c < |columns| ::
        columns[c] == CopiedColumn(s, area.firstColumn + c, area.firstRow, area.lastRow)
    ensures Shaped(after) && after.rows == area.lastRow - area.firstRow + 1
  {
    var t :| Resizes(clip, ClipLength(area), t) && after == CopiedSheet(t, s, area);
    ClipLengthFits(clip, area, t);
  }

  /**
   * What a new length may do: cells below both lengths stay; the others are kept out of sight, shown again, or lost.
   */
  ghost predicate Resizes(s: Sheet, length: u8, t: Sheet) {
    && Shaped(s) && Shaped(t) && t.rows == (if LegalLength(length) then length as nat else s.rows)
    && (forall c, r | InRange(c, r, t.rows) ::
          if r < s.rows then t.grid[c][r] == s.grid[c][r]
          else t.grid[c][r] == EMPTY || ((c, r) in s.hidden && t.grid[c][r] == s.hidden[(c, r)]))
    && (forall k | k in t.hidden ::
          || t.hidden[k] == EMPTY || (k in s.hidden && t.hidden[k] == s.hidden[k])
          || (InRange(k.0, k.1, s.rows) && t.hidden[k] == s.grid[k.0][k.1]))
  }

  /** set_length is such a change. */
  lemma SetLengthResizes(v: View, length: u8, w: View)
    requires (forall k :: k in v.cells && k in w.cells) && 1 <= v.length <= MAX_PATTERN_LENGTH
    requires Step(v, SetLength(length), w)
    ensures 1 <= w.length <= MAX_PATTERN_LENGTH && Resizes(SheetOf(v), length, SheetOf(w))
  {
    var s, t := SheetOf(v), SheetOf(w);
    forall c, r | InRange(c, r, t.rows)
      ensures if r < s.rows then t.grid[c][r] == s.grid[c][r]
              else t.grid[c][r] == EMPTY || ((c, r) in s.hidden && t.grid[c][r] == s.hidden[(c, r)])
    {
      assert t.grid[c][r] == w.cells[(c, r)];
    }
  }
}
