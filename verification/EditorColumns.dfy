/** The loops of the block operations over one column, in place and through the pattern's write-back cache. */
module EditorColumns {
  import opened Notes
  import opened PatternStore
  import opened Blocks
  import opened Sheets

  /** Reads a cell, in sight or not. */
  method Cell(pattern: Pattern, c: int, r: int) returns (n: Note)
    requires pattern.Valid()
    ensures n == CellOf(SheetFrom(pattern), c, r)
  {
    CellIsAt(pattern, c, r);
    n := pattern.GetNote(c, r);
  }

  /** Writes a cell through the pattern's note reference; past the end nothing is written. */
  method SetCell(pattern: Pattern, c: int, r: int, n: Note)
    requires pattern.Valid() && 0 <= c < PATTERN_WIDTH && 0 <= r
    modifies pattern
    ensures pattern.Valid() && pattern.length == old(pattern.length)
    ensures SheetFrom(pattern) == WithCell(old(SheetFrom(pattern)), c, r, n)
  {
    hide Pattern.Valid, Pattern.Grid, Pattern.Cells, Pattern.Hidden, Pattern.At;
    pattern.GridShape();
    pattern.Assign(c, r, n);
  }

  /** The pattern is the sheet with only column c changed, into the given rows. */
  ghost predicate Holds(pattern: Pattern, s: Sheet, c: int, col: Rows)
    reads pattern
  {
    && pattern.Valid() && pattern.length as int == s.rows == |col| && Shaped(s) && 0 <= c < PATTERN_WIDTH
    && SheetFrom(pattern) == WithColumn(s, c, col)
  }

  twostate predicate Becomes(pattern: Pattern, c: int, col: Rows)
    reads pattern
  {
    Holds(pattern, old(SheetFrom(pattern)), c, col)
  }

  lemma HoldsItself(pattern: Pattern, c: int) returns (col: Rows)
    requires pattern.Valid() && 0 <= c < PATTERN_WIDTH
    ensures Shaped(SheetFrom(pattern)) && col == SheetFrom(pattern).grid[c]
    ensures Holds(pattern, SheetFrom(pattern), c, col) && |col| == pattern.length as int == SheetFrom(pattern).rows
  {
    hide Pattern.Valid, Pattern.Grid, Pattern.Hidden;
    pattern.GridShape();
    col := pattern.Grid()[c];
    assert pattern.Grid()[c := col] == pattern.Grid();
  }

  lemma HeldSheet(pattern: Pattern, s: Sheet, c: int, col: Rows)
    requires Holds(pattern, s, c, col)
    ensures pattern.Valid() && Shaped(s) && 0 <= c < |s.grid| && SheetFrom(pattern) == WithColumn(s, c, col)
  {
  }

  /** Reads a cell of the column that is being changed. */
  method ColumnCell(pattern: Pattern, ghost s: Sheet, c: int, ghost col: Rows, r: int) returns (n: Note)
    requires Holds(pattern, s, c, col) && 0 <= r
    ensures n == if r < |col| then col[r] else CellOf(s, c, r)
  {
    hide Pattern.Valid, Pattern.Grid, Pattern.Hidden;
    n := Cell(pattern, c, r);
  }

  method SetColumnCell(pattern: Pattern, ghost s: Sheet, c: int, ghost col: Rows, r: int, n: Note)
    returns (ghost after: Rows)
    requires Holds(pattern, s, c, col) && 0 <= r
    modifies pattern
    ensures after == (if r < |col| then col[r := n] else col) && |after| == pattern.length as int
    ensures Holds(pattern, s, c, after)
  {
    hide Pattern.Valid, Pattern.Grid, Pattern.Hidden;
    SetCell(pattern, c, r, n);
    after := if r < |col| then col[r := n] else col;
  }

  method InsertRow(pattern: Pattern, x: int, y: nat)
    requires pattern.Valid() && 0 <= x < PATTERN_WIDTH
    modifies pattern
    ensures pattern.Valid() && SheetFrom(pattern) == InsertedSheet(old(SheetFrom(pattern)), x, y)
  {
    hide Pattern.Valid, SheetFrom, Holds, CellOf;
    ghost var before := SheetFrom(pattern);
    ghost var col0 := HoldsItself(pattern, x);
    ghost var col := col0;
    if y < pattern.length as int {
      for i := pattern.length as int downto y + 1
        invariant Holds(pattern, before, x, col) && |col| == |col0| == pattern.length as int
        invariant forall r | 0 <= r < i :: col[r] == col0[r]
        invariant forall r | i <= r < |col| :: col[r] == col0[r - 1]
      {
        var note := ColumnCell(pattern, before, x, col, i - 1);
        col := SetColumnCell(pattern, before, x, col, i, note);
      }
    }
    col := SetColumnCell(pattern, before, x, col, y, EMPTY);
    assert col == Inserted(col0, y);
    HeldSheet(pattern, before, x, col);
  }

  /** Past the end no row moves, but the last one is emptied all the same. */
  method DeleteRow(pattern: Pattern, x: int, y: nat)
    requires pattern.Valid() && 0 <= x < PATTERN_WIDTH
    modifies pattern
    ensures pattern.Valid() && SheetFrom(pattern) == DeletedSheet(old(SheetFrom(pattern)), x, y)
  {
    hide Pattern.Valid, SheetFrom, Holds, CellOf;
    LengthIsPositive(pattern);
    ghost var before := SheetFrom(pattern);
    ghost var col0 := HoldsItself(pattern, x);
    ghost var col := col0;
    ghost var deleted := Deleted(col0, y);
    var limit := pattern.length as int - 1;
    if y < limit {
      for i := y to limit
        invariant Holds(pattern, before, x, col) && |col| == |col0| == pattern.length as int
        invariant forall r | 0 <= r < i :: col[r] == deleted[r]
        invariant forall r | i <= r < |col| :: col[r] == col0[r]
      {
        var note := ColumnCell(pattern, before, x, col, i + 1);
        col := SetColumnCell(pattern, before, x, col, i, note);
      }
    }
    col := SetColumnCell(pattern, before, x, col, limit, EMPTY);
    assert col == deleted;
    HeldSheet(pattern, before, x, col);
  }

  lemma LengthIsPositive(pattern: Pattern)
    requires pattern.Valid()
    ensures 0 < pattern.length as int <= MAX_PATTERN_LENGTH
  {
  }

  /** The column that is changed, with the rows of the selection that are out of sight. */
  lemma TallRows(s: Sheet, c: int, last: int) returns (tall: Rows)
    requires Shaped(s) && 0 <= c < PATTERN_WIDTH
    ensures tall == TallColumn(s, c, Height(s.rows, last))
    ensures forall r | 0 <= r < s.rows :: tall[r] == s.grid[c][r]
    ensures forall r | s.rows <= r <= last :: tall[r] == CellOf(s, c, r)
  {
    tall := TallColumn(s, c, Height(s.rows, last));
  }

  method ExpandedCell(pattern: Pattern, ghost s: Sheet, c: int, ghost col: Rows, b: int, i: int) returns (n: Note)
    requires Holds(pattern, s, c, col) && 0 <= b <= i < |col|
    ensures n == ExpandedRow(col, b, i)
  {
    hide SheetFrom, Holds, CellOf;
    if (i - b) % 2 == 0 {
      n := ColumnCell(pattern, s, c, col, b + (i - b) / 2);
    } else {
      n := EMPTY;
    }
  }

  /**
   * Clears every odd row of the expanded block and fills the even ones from the bottom up, so that no row is read
   * late.
   */
  method ExpandColumn(pattern: Pattern, x: int, b: int, e: int)
    requires pattern.Valid() && 0 <= x < PATTERN_WIDTH && 0 <= b < e
    modifies pattern
    ensures Becomes(pattern, x, EditedColumn(old(SheetFrom(pattern)), x, Expand, b, e))
  {
    hide Pattern.Valid, SheetFrom, Holds, CellOf, Expanded, ExpandedRow;
    ghost var before := SheetFrom(pattern);
    ghost var col0 := HoldsItself(pattern, x);
    ghost var col := col0;
    ghost var tall := TallRows(before, x, e);
    ghost var expanded := Expanded(tall, b, e);
    ExpandedCells(tall, |col0|, b, e);
    var expandMax := ExpandLimit(pattern.length as int, b, e);
    if b <= expandMax {
      for i := expandMax + 1 downto b
        invariant Holds(pattern, before, x, col) && |col| == |col0| == pattern.length as int
        invariant forall r | 0 <= r < i :: col[r] == col0[r]
        invariant forall r | i <= r < |col| :: col[r] == expanded[r]
      {
        var note := ExpandedCell(pattern, before, x, col, b, i);
        ExpandedRowReadsAbove(col, tall, b, i);
        col := SetColumnCell(pattern, before, x, col, i, note);
      }
    }
    assert col == expanded[..|col|];
  }

  method ShrinkColumn(pattern: Pattern, x: int, b: int, e: int)
    requires pattern.Valid() && 0 <= x < PATTERN_WIDTH && 0 <= b < e
    modifies pattern
    ensures Becomes(pattern, x, EditedColumn(old(SheetFrom(pattern)), x, Shrink, b, e))
  {
    hide Pattern.Valid, SheetFrom, Holds, CellOf;
    ghost var before := SheetFrom(pattern);
    ghost var col0 := HoldsItself(pattern, x);
    ghost var col := col0;
    ghost var tall := TallRows(before, x, e);
    ghost var shrunk := Shrunk(tall, b, e);
    for i := b to e + 1
      invariant Holds(pattern, before, x, col) && |col| == |col0| == pattern.length as int
      invariant forall r | 0 <= r < |col| :: col[r] == if r < i then shrunk[r] else col0[r]
    {
      if i - b >= (e - b) / 2 {
        col := SetColumnCell(pattern, before, x, col, i, EMPTY);
      } else {
        var note := ColumnCell(pattern, before, x, col, b + 2 * (i - b));
        col := SetColumnCell(pattern, before, x, col, i, note);
      }
    }
    assert col == shrunk[..|col|];
  }

  /** Writes every selected cell, changed or not. */
  method ChangeColumn(pattern: Pattern, x: int, b: int, e: int, change: Note -> Note)
    requires pattern.Valid() && 0 <= x < PATTERN_WIDTH && 0 <= b
    modifies pattern
    ensures Becomes(pattern, x, EditedColumn(old(SheetFrom(pattern)), x, Change(change), b, e))
  {
    hide Pattern.Valid, SheetFrom, Holds, CellOf;
    ghost var before := SheetFrom(pattern);
    ghost var col0 := HoldsItself(pattern, x);
    ghost var col := col0;
    ghost var tall := TallRows(before, x, e);
    ghost var changed := Changed(tall, b, e, change);
    if b <= e {
      for i := b to e + 1
        invariant Holds(pattern, before, x, col) && |col| == |col0| == pattern.length as int
        invariant forall r | 0 <= r < |col| :: col[r] == if r < i then changed[r] else col0[r]
      {
        var note := ColumnCell(pattern, before, x, col, i);
        col := SetColumnCell(pattern, before, x, col, i, change(note));
      }
    }
    assert col == changed[..|col|];
  }

  method RampParametersColumn(pattern: Pattern, x: int, b: int, e: int)
    requires pattern.Valid() && 0 <= x < PATTERN_WIDTH && 0 <= b < e
    modifies pattern
    ensures Becomes(pattern, x, EditedColumn(old(SheetFrom(pattern)), x, RampParameters, b, e))
  {
    hide Pattern.Valid, SheetFrom, Holds, CellOf, RampValue;
    ghost var before := SheetFrom(pattern);
    ghost var col0 := HoldsItself(pattern, x);
    ghost var col := col0;
    ghost var tall := TallRows(before, x, e);
    ghost var ramped := RampedParameters(tall, b, e);
    var first := ColumnCell(pattern, before, x, col, b);
    var last := ColumnCell(pattern, before, x, col, e);
    for i := b to e + 1
      invariant Holds(pattern, before, x, col) && |col| == |col0| == pattern.length as int
      invariant forall r | 0 <= r < |col| :: col[r] == if r < i then ramped[r] else col0[r]
    {
      var note := ColumnCell(pattern, before, x, col, i);
      note := note.(parameter := RampValue(first.parameter, last.parameter, i - b, e - b));
      col := SetColumnCell(pattern, before, x, col, i, note);
    }
    assert col == ramped[..|col|];
  }

  method RampVolumesColumn(pattern: Pattern, x: int, b: int, e: int)
    requires pattern.Valid() && 0 <= x < PATTERN_WIDTH && 0 <= b < e
    modifies pattern
    ensures Becomes(pattern, x, EditedColumn(old(SheetFrom(pattern)), x, RampVolumes, b, e))
  {
    hide Pattern.Valid, SheetFrom, Holds, CellOf, RampValue;
    ghost var before := SheetFrom(pattern);
    ghost var col0 := HoldsItself(pattern, x);
    ghost var col := col0;
    ghost var tall := TallRows(before, x, e);
    ghost var ramped := RampedVolumes(tall, b, e);
    var first := ColumnCell(pattern, before, x, col, b);
    var last := ColumnCell(pattern, before, x, col, e);
    if first.volume < 65 && last.volume < 65 {
      for i := b to e + 1
        invariant Holds(pattern, before, x, col) && |col| == |col0| == pattern.length as int
        invariant forall r | 0 <= r < |col| :: col[r] == if r < i then ramped[r] else col0[r]
      {
        var note := ColumnCell(pattern, before, x, col, i);
        note := note.(volume := RampValue(first.volume, last.volume, i - b, e - b));
        col := SetColumnCell(pattern, before, x, col, i, note);
      }
    }
    assert col == ramped[..|col|];
  }

  method EditColumn(pattern: Pattern, x: int, b: int, e: int, edit: Edit)
    requires pattern.Valid() && 0 <= x < PATTERN_WIDTH && 0 <= b && (edit.Change? || b < e)
    modifies pattern
    ensures Becomes(pattern, x, EditedColumn(old(SheetFrom(pattern)), x, edit, b, e))
  {
    hide Pattern.Valid, EditedColumn, Holds, SheetFrom;
    match edit {
      case Change(change) => ChangeColumn(pattern, x, b, e, change);
      case Expand => ExpandColumn(pattern, x, b, e);
      case Shrink => ShrinkColumn(pattern, x, b, e);
      case RampParameters => RampParametersColumn(pattern, x, b, e);
      case RampVolumes => RampVolumesColumn(pattern, x, b, e);
    }
  }

  function LimitY(y: int, rows: int, clipRows: int): int {
    if y + clipRows - 1 > rows - 1 then rows - 1 else y + clipRows - 1
  }

  lemma LimitIs(y: nat, rows: nat, clipRows: nat)
    ensures LimitY(y, rows, clipRows) == if y + clipRows <= rows then y + clipRows - 1 else rows - 1
  {
  }

  method PasteOverColumn(pattern: Pattern, clipboard: Pattern, x: int, y: nat, from: int)
    requires pattern != clipboard && pattern.Valid() && clipboard.Valid()
    requires 0 <= x < PATTERN_WIDTH && 0 <= from < PATTERN_WIDTH
    modifies pattern
    ensures Shaped(old(SheetFrom(pattern))) && Shaped(SheetFrom(clipboard))
    ensures Becomes(pattern, x,
                    Pasted(old(SheetFrom(pattern)).grid[x], SheetFrom(clipboard).grid[from], y, Overwrite))
  {
    hide Pattern.Valid, SheetFrom, Holds, CellOf, Pasted, LimitY;
    LengthIsPositive(clipboard);
    ghost var before := SheetFrom(pattern);
    ghost var col0 := HoldsItself(pattern, x);
    ghost var col := col0;
    ghost var clip := HoldsItself(clipboard, from);
    ghost var pasted := Pasted(col0, clip, y, Overwrite);
    PastedCells(col0, clip, y, Overwrite);
    var size := clipboard.length as int;
    var limit := LimitY(y, pattern.length as int, size);
    LimitIs(y, |col|, |clip|);
    if y <= limit {
      for j := y to limit + 1
        invariant Holds(pattern, before, x, col) && |col| == |col0| == pattern.length as int
        invariant forall r | 0 <= r < |col| :: col[r] == if r < j then pasted[r] else col0[r]
      {
        var note := ColumnCell(clipboard, SheetFrom(clipboard), from, clip, j - y);
        col := SetColumnCell(pattern, before, x, col, j, note);
      }
    }
    assert col == pasted;
  }

  method PasteMixColumn(pattern: Pattern, clipboard: Pattern, x: int, y: nat, from: int)
    requires pattern != clipboard && pattern.Valid() && clipboard.Valid()
    requires 0 <= x < PATTERN_WIDTH && 0 <= from < PATTERN_WIDTH
    modifies pattern
    ensures Shaped(old(SheetFrom(pattern))) && Shaped(SheetFrom(clipboard))
    ensures Becomes(pattern, x,
                    Pasted(old(SheetFrom(pattern)).grid[x], SheetFrom(clipboard).grid[from], y, Mix))
  {
    hide Pattern.Valid, SheetFrom, Holds, CellOf, Pasted, LimitY;
    LengthIsPositive(clipboard);
    ghost var before := SheetFrom(pattern);
    ghost var col0 := HoldsItself(pattern, x);
    ghost var col := col0;
    ghost var clip := HoldsItself(clipboard, from);
    ghost var pasted := Pasted(col0, clip, y, Mix);
    PastedCells(col0, clip, y, Mix);
    var size := clipboard.length as int;
    var limit := LimitY(y, pattern.length as int, size);
    LimitIs(y, |col|, |clip|);
    if y <= limit {
      for j := y to limit + 1
        invariant Holds(pattern, before, x, col) && |col| == |col0| == pattern.length as int
        invariant forall r | 0 <= r < |col| :: col[r] == if r < j then pasted[r] else col0[r]
      {
        var note := ColumnCell(pattern, before, x, col, j);
        if note == EMPTY {
          note := ColumnCell(clipboard, SheetFrom(clipboard), from, clip, j - y);
          col := SetColumnCell(pattern, before, x, col, j, note);
        }
      }
    }
    assert col == pasted;
  }

  /** The rows below the block move down, the last one first; then the block is copied. */
  method PasteIntoColumn(pattern: Pattern, clipboard: Pattern, x: int, y: nat, from: int)
    requires pattern != clipboard && pattern.Valid() && clipboard.Valid()
    requires 0 <= x < PATTERN_WIDTH && 0 <= from < PATTERN_WIDTH
    modifies pattern
    ensures Shaped(old(SheetFrom(pattern))) && Shaped(SheetFrom(clipboard))
    ensures Becomes(pattern, x,
                    Pasted(old(SheetFrom(pattern)).grid[x], SheetFrom(clipboard).grid[from], y, Insert))
  {
    hide Pattern.Valid, SheetFrom, Holds, CellOf, Pasted, LimitY;
    LengthIsPositive(clipboard);
    ghost var before := SheetFrom(pattern);
    ghost var col0 := HoldsItself(pattern, x);
    ghost var col := col0;
    ghost var clip := HoldsItself(clipboard, from);
    ghost var pasted := Pasted(col0, clip, y, Insert);
    PastedCells(col0, clip, y, Insert);
    var size := clipboard.length as int;
    var limit := LimitY(y, pattern.length as int, size);
    LimitIs(y, |col|, |clip|);
    for j := pattern.length as int downto limit + 1
      invariant Holds(pattern, before, x, col) && |col| == |col0| == pattern.length as int
      invariant forall r | 0 <= r < |col| :: col[r] == if r < j then col0[r] else pasted[r]
    {
      var note := ColumnCell(pattern, before, x, col, j - size);
      col := SetColumnCell(pattern, before, x, col, j, note);
    }
    if y <= limit {
      for j := y to limit + 1
        invariant Holds(pattern, before, x, col) && |col| == |col0| == pattern.length as int
        invariant forall r | 0 <= r < |col| :: col[r] == if y <= r < j || r < y || limit < r then pasted[r] else col0[r]
      {
        var note := ColumnCell(clipboard, SheetFrom(clipboard), from, clip, j - y);
        col := SetColumnCell(pattern, before, x, col, j, note);
      }
    }
    assert col == pasted;
  }

  method PasteColumn(pattern: Pattern, clipboard: Pattern, x: int, y: nat, from: int, paste: Paste)
    requires pattern != clipboard && pattern.Valid() && clipboard.Valid()
    requires 0 <= x < PATTERN_WIDTH && 0 <= from < PATTERN_WIDTH
    modifies pattern
    ensures Shaped(old(SheetFrom(pattern))) && Shaped(SheetFrom(clipboard))
    ensures Becomes(pattern, x,
                    Pasted(old(SheetFrom(pattern)).grid[x], SheetFrom(clipboard).grid[from], y, paste))
  {
    hide Pattern.Valid, Pasted, Holds, SheetFrom;
    match paste {
      case Overwrite => PasteOverColumn(pattern, clipboard, x, y, from);
      case Mix => PasteMixColumn(pattern, clipboard, x, y, from);
      case Insert => PasteIntoColumn(pattern, clipboard, x, y, from);
    }
  }

  /** The clipboard is exactly as long as the block, so none of its old cells stay in sight. */
  method CopyColumn(pattern: Pattern, clipboard: Pattern, x: int, b: int, e: int, to: int)
    requires pattern != clipboard && pattern.Valid() && clipboard.Valid() && 0 <= to < PATTERN_WIDTH
    requires 0 <= b <= e && clipboard.length as int == e - b + 1
    modifies clipboard
    ensures clipboard.length == old(clipboard.length)
    ensures Becomes(clipboard, to, CopiedColumn(SheetFrom(pattern), x, b, e))
  {
    hide Pattern.Valid, SheetFrom, Holds, CellOf;
    ghost var before, copied := SheetFrom(clipboard), CopiedColumn(SheetFrom(pattern), x, b, e);
    ghost var col := HoldsItself(clipboard, to);
    for j := b to e + 1
      invariant Holds(clipboard, before, to, col) && |col| == |copied| == clipboard.length as int
      invariant forall r | 0 <= r < j - b :: col[r] == copied[r]
    {
      var note := Cell(pattern, x, j);
      col := SetColumnCell(clipboard, before, to, col, j - b, note);
    }
    assert col == copied;
  }
}
