/** What each block command does to the cells of a pattern, in numbers. */
module EditMeaning {
  import opened BitMath
  import opened Division
  import opened Notes
  import opened PatternStore
  import opened Blocks
  import opened Sheets

  predicate ColumnSelected(area: Area, c: int) {
    area.firstColumn <= c <= area.lastColumn
  }

  /** The edited column of a selected cell. */
  lemma EditedCell(s: Sheet, area: Area, edit: Edit, c: int, r: int) returns (tall: Rows)
    requires Shaped(s) && 0 <= c < PATTERN_WIDTH && 0 <= r < s.rows && ColumnSelected(area, c)
    ensures |tall| == Height(s.rows, area.lastRow) && s.rows <= |tall| && area.lastRow < |tall|
    ensures forall q | 0 <= q < |tall| :: tall[q] == CellOf(s, c, q)
    ensures forall q | 0 <= q < s.rows :: tall[q] == s.grid[c][q]
    ensures EditedSheet(s, area, edit).grid[c][r] == Edited(tall, edit, area.firstRow, area.lastRow)[r]
  {
    hide Edited;
    tall := TallColumn(s, c, Height(s.rows, area.lastRow));
  }

  /** Cells outside the selection stay, those below it that an expanded block covers apart. */
  lemma OutsideStays(s: Sheet, area: Area, edit: Edit, c: int, r: int)
    requires Shaped(s) && 0 <= c < PATTERN_WIDTH && 0 <= r < s.rows
    requires !ColumnSelected(area, c) || r < area.firstRow
      || (area.lastRow < r && (!edit.Expand? || 2 * area.lastRow - area.firstRow < r))
    ensures EditedSheet(s, area, edit).grid[c][r] == s.grid[c][r]
  {
    if ColumnSelected(area, c) {
      hide RampValue, ExpandedRow;
      var tall := EditedCell(s, area, edit, c, r);
    }
  }

  /** Row k of the block moves to row 2k; the rows between are empty. */
  lemma ExpandMoves(s: Sheet, area: Area, c: int, k: nat)
    requires Shaped(s) && 0 <= c < PATTERN_WIDTH && ColumnSelected(area, c)
    requires 0 <= area.firstRow < area.lastRow && k <= area.lastRow - area.firstRow
    ensures
      var g, r := EditedSheet(s, area, Expand).grid[c], area.firstRow + 2 * k;
      && |g| == s.rows
      && (r < s.rows ==> g[r] == s.grid[c][area.firstRow + k])
      && (r + 1 < s.rows && k < area.lastRow - area.firstRow ==> g[r + 1] == EMPTY)
  {
    hide Edited;
    var r := area.firstRow + 2 * k;
    Halves(k);
    if r < s.rows {
      var tall := EditedCell(s, area, Expand, c, r);
      ExpandedAt(tall, area.firstRow, area.lastRow, k);
      if r + 1 < s.rows && k < area.lastRow - area.firstRow {
        var more := EditedCell(s, area, Expand, c, r + 1);
        assert more == tall;
      }
    }
  }

  lemma ExpandedAt(col: Rows, b: int, e: int, k: nat)
    requires 0 <= b < e < |col| && k <= e - b && b + 2 * k < |col|
    ensures Edited(col, Expand, b, e)[b + 2 * k] == col[b + k]
    ensures k < e - b && b + 2 * k + 1 < |col| ==> Edited(col, Expand, b, e)[b + 2 * k + 1] == EMPTY
  {
    Halves(k);
    assert (b + 2 * k - b) % 2 == 0 && (b + 2 * k - b) / 2 == k && (b + 2 * k + 1 - b) % 2 == 1;
  }

  /** Row 2k of the block moves to row k, for the first half; the rest of the block is empty. */
  lemma ShrinkMoves(s: Sheet, area: Area, c: int, k: nat)
    requires Shaped(s) && 0 <= c < PATTERN_WIDTH && ColumnSelected(area, c)
    requires 0 <= area.firstRow < area.lastRow && k <= area.lastRow - area.firstRow && area.firstRow + k < s.rows
    ensures
      var g := EditedSheet(s, area, Shrink).grid[c];
      && |g| == s.rows
      && g[area.firstRow + k] == if k < (area.lastRow - area.firstRow) / 2 then CellOf(s, c, area.firstRow + 2 * k)
                                 else EMPTY
  {
    hide Edited, CellOf;
    var tall := EditedCell(s, area, Shrink, c, area.firstRow + k);
    ShrunkAt(tall, area.firstRow, area.lastRow, k);
  }

  lemma ShrunkAt(col: Rows, b: int, e: int, k: nat)
    requires 0 <= b < e < |col| && k <= e - b
    ensures Edited(col, Shrink, b, e)[b + k] == if k < (e - b) / 2 then col[b + 2 * k] else EMPTY
  {
  }

  lemma ChangesEach(s: Sheet, area: Area, change: Note -> Note, c: int, r: int)
    requires Shaped(s) && 0 <= c < PATTERN_WIDTH && ColumnSelected(area, c)
    requires 0 <= r < s.rows && area.firstRow <= r <= area.lastRow
    ensures EditedSheet(s, area, Change(change)).grid[c][r] == change(s.grid[c][r])
  {
    var tall := EditedCell(s, area, Change(change), c, r);
  }

  /** p is k of m steps on the way from a to z, rounded towards a. */
  predicate OnTheWay(a: u8, z: u8, k: nat, m: nat, p: u8) {
    if a <= z then a <= p <= z && 0 <= (z - a) * k - (p - a) * m < m
    else z <= p <= a && 0 <= (a - z) * k - (a - p) * m < m
  }

  lemma RampIsOnTheWay(a: u8, z: u8, k: nat, m: nat)
    requires 0 < m && k <= m
    ensures OnTheWay(a, z, k, m, RampValue(a, z, k, m))
  {
    hide RampValue;
    RampIsMonotone(a, z, k, k, m);
    RampIsShare(a, z, k, m);
    var d := if a <= z then z - a else a - z;
    ProductGrows(d, 0, k);
    DivisionBounds(d * k, m);
  }

  /** Each selected parameter is on the way from the first to the last; nothing else of the cells changes. */
  lemma ParametersRamp(s: Sheet, area: Area, c: int, r: int)
    requires Shaped(s) && 0 <= c < PATTERN_WIDTH && ColumnSelected(area, c)
    requires 0 <= area.firstRow < area.lastRow && area.firstRow <= r <= area.lastRow && r < s.rows
    ensures
      var a, z := CellOf(s, c, area.firstRow).parameter, CellOf(s, c, area.lastRow).parameter;
      var n := EditedSheet(s, area, RampParameters).grid[c][r];
      && n == s.grid[c][r].(parameter := n.parameter)
      && OnTheWay(a, z, r - area.firstRow, area.lastRow - area.firstRow, n.parameter)
  {
    hide RampValue, OnTheWay;
    var tall := EditedCell(s, area, RampParameters, c, r);
    RampIsOnTheWay(tall[area.firstRow].parameter, tall[area.lastRow].parameter, r - area.firstRow,
                   area.lastRow - area.firstRow);
  }

  /** The same for volumes, if the first and the last one are plain; otherwise nothing changes. */
  lemma VolumesRamp(s: Sheet, area: Area, c: int, r: int)
    requires Shaped(s) && 0 <= c < PATTERN_WIDTH && ColumnSelected(area, c)
    requires 0 <= area.firstRow < area.lastRow && area.firstRow <= r <= area.lastRow && r < s.rows
    ensures
      var a, z := CellOf(s, c, area.firstRow).volume, CellOf(s, c, area.lastRow).volume;
      var n := EditedSheet(s, area, RampVolumes).grid[c][r];
      if a <= 64 && z <= 64 then
        && n == s.grid[c][r].(volume := n.volume)
        && OnTheWay(a, z, r - area.firstRow, area.lastRow - area.firstRow, n.volume)
      else n == s.grid[c][r]
  {
    hide RampValue, OnTheWay;
    var tall := EditedCell(s, area, RampVolumes, c, r);
    RampIsOnTheWay(tall[area.firstRow].volume, tall[area.lastRow].volume, r - area.firstRow,
                   area.lastRow - area.firstRow);
  }

  /** A cell changed any number of times. */
  function Repeated(change: Note -> Note, n: Note, times: nat): Note {
    if times == 0 then n else change(Repeated(change, n, times - 1))
  }

  /** Raising and lowering go semitone by semitone, up to the highest note or down to the lowest. */
  lemma {:induction false} RaisedAndLowered(n: Note, times: nat)
    ensures Repeated(RaisedNote, n, times) ==
      if n.note < 120 then n.(note := if n.note as int + times <= 119 then n.note as int + times else 119) else n
    ensures Repeated(LoweredNote, n, times) ==
      if n.note < 120 then n.(note := if times <= n.note as int then n.note as int - times else 0) else n
  {
    if times == 0 {
    } else {
      RaisedAndLowered(n, times - 1);
    }
  }

  /**
   * Scaling takes a percentage of the volume, rounded down and at most 64; a note that plays an instrument without a
   * volume counts as 64.
   */
  lemma ScalingTakesPercent(n: Note, percent: nat)
    ensures
      var plays, m := n.instrument != 255 && n.note < 120, ScaledNote(n, percent);
      var v: int := if n.volume != 255 then n.volume as int else 64;
      if n.volume == 255 && !plays then m == n
      else
        && m == n.(volume := m.volume) && m.volume <= 64
        && 100 * m.volume as int <= v * percent
        && (m.volume < 64 ==> v * percent < 100 * m.volume as int + 100)
        && (v * percent >= 6400 ==> m.volume == 64)
  {
    hide TruncatingDiv;
    var v: int := if n.volume != 255 then n.volume as int else 64;
    ProductGrows(v, 0, percent);
    SmallQuotient(v * percent, 100);
  }

  /** The masks are set where they apply, and only volumes that nothing plays are wiped. */
  lemma MasksAndStrays(n: Note, x: u8)
    ensures n.instrument != 255 ==> InstrumentMasking(x)(n) == n.(instrument := x)
    ensures n.instrument == 255 ==> InstrumentMasking(x)(n) == n
    ensures VolumeMasking(x)(n) == n.(volume := x)
    ensures StrayVolumeWiped(n) ==
      if n.instrument == 255 && (n.note == 255 || n.note == 254 || n.note == 253) then n.(volume := 255) else n
  {
  }

  /** What was copied: row k of clipboard column c is row k of the selection's column c, in sight or not. */
  lemma CopiedCells(clip: Sheet, s: Sheet, area: Area, after: Sheet, c: nat, k: nat)
    requires Copies(clip, s, area, after)
    requires 0 <= area.firstColumn && area.firstColumn + c <= area.lastColumn < PATTERN_WIDTH
    requires 0 <= area.firstRow && area.firstRow + k <= area.lastRow < MAX_PATTERN_LENGTH
    ensures
      var columns := ClipColumns(after, area.lastColumn - area.firstColumn + 1);
      && c < |columns| && k < |columns[c]| == area.lastRow - area.firstRow + 1
      && columns[c][k] == CellOf(s, area.firstColumn + c, area.firstRow + k)
  {
    hide Copies, CopiedSheet, Resizes;
    ClipIsTheSelection(clip, s, area, after);
  }

  /** What is pasted: row k of clipboard column c comes k rows below and c columns right of the cursor, if it fits. */
  lemma PastedAt(s: Sheet, clip: seq<Rows>, x: int, y: nat, paste: Paste, c: int, r: int)
    requires Shaped(s) && 0 <= c < PATTERN_WIDTH && 0 <= r < s.rows
    ensures
      var g, was := PastedSheet(s, clip, x, y, paste).grid, s.grid[c][r];
      && |g| == PATTERN_WIDTH && |g[c]| == s.rows
      && g[c][r] ==
         if !(x <= c < x + |clip|) || r < y then was
         else if r < y + |clip[c - x]| then if paste.Mix? && was != EMPTY then was else clip[c - x][r - y]
         else if paste.Insert? then s.grid[c][r - |clip[c - x]|]
         else was
  {
    hide Pasted;
    if x <= c < x + |clip| {
      PastedCells(s.grid[c], clip[c - x], y, paste);
    }
  }

  /** Inserting moves the rows from the cursor on down by one, deleting moves those below it up. */
  lemma RowsMove(s: Sheet, x: int, y: nat, c: int, r: int)
    requires Shaped(s) && 0 <= x < PATTERN_WIDTH && 0 <= c < PATTERN_WIDTH && 0 <= r < s.rows
    ensures
      var g, h := InsertedSheet(s, x, y).grid, DeletedSheet(s, x, y).grid;
      && |g| == |h| == PATTERN_WIDTH && |g[c]| == |h[c]| == s.rows
      && g[c][r] == (if c != x || r < y then s.grid[c][r] else if r == y then EMPTY else s.grid[c][r - 1])
      && h[c][r] == if c != x then s.grid[c][r] else if r == s.rows - 1 then EMPTY
                    else if r < y then s.grid[c][r] else s.grid[c][r + 1]
  {
  }
}
