/** Where the cursor of the editor goes, and the selection that follows it while shift is held. */
module Cursors {
  import opened BitMath
  import opened Notes
  import opened Options
  import opened PatternStore
  import opened Blocks
  import opened FieldEntry

  const FIELDS_MAX := 9

  /** The cursor's column, row and place in the cell, whether something is selected, and the selection. */
  datatype Place = Place(x: int, y: int, field: int, active: bool, area: Area)

  /** The cell where shift was pressed, while it is held. */
  type Shift = Option<(int, int)>

  predicate PlaceOk(p: Place) {
    0 <= p.x < PATTERN_WIDTH && 0 <= p.y && 0 <= p.field < FIELDS_MAX && AreaOk(p.area)
  }

  /** Rows past the end of the pattern are allowed: another pattern may have been longer. */
  predicate AreaOk(area: Area) {
    && 0 <= area.firstColumn < PATTERN_WIDTH && 0 <= area.lastColumn < PATTERN_WIDTH
    && 0 <= area.firstRow && 0 <= area.lastRow < MAX_PATTERN_LENGTH
  }

  predicate ShiftOk(shift: Shift) {
    shift.Some? ==> 0 <= shift.value.0 < PATTERN_WIDTH && 0 <= shift.value.1
  }

  /** The corners in order, and the last row inside the pattern. */
  function Normalized(a: Area, rows: nat): Area {
    Area(Min(a.firstColumn, a.lastColumn), Max(a.firstColumn, a.lastColumn), Max(Min(a.firstRow, a.lastRow), 0),
         Min(Max(a.firstRow, a.lastRow), rows - 1))
  }

  function Max(a: int, b: int): int {
    if a < b then b else a
  }

  function Following(p: Place, shift: Shift, rows: nat): Place {
    match shift
    case None => p
    case Some(from) => p.(active := true, area := Normalized(Area(from.0, p.x, from.1, p.y), rows))
  }

  function DownBy(p: Place, amount: int, shift: Shift, rows: nat): Place {
    Following(p.(y := Min(p.y + amount, rows - 1)), shift, rows)
  }

  function LeftBy(p: Place, amount: int, shift: Shift, rows: nat): Place {
    Following(p.(x := Max(p.x - amount, 0)), shift, rows)
  }

  function RightBy(p: Place, amount: int, shift: Shift, rows: nat): Place {
    Following(p.(x := Min(p.x + amount, PATTERN_WIDTH - 1)), shift, rows)
  }

  /** With shift held, a whole column. */
  function FieldRight(p: Place, shift: Shift, rows: nat): Place {
    if shift.Some? then RightBy(p, 1, shift, rows)
    else if p.field < FIELDS_MAX - 1 then p.(field := p.field + 1)
    else if p.x == PATTERN_WIDTH - 1 then p.(field := FIELDS_MAX - 1)
    else p.(x := p.x + 1, field := 0)
  }

  function FieldLeft(p: Place, shift: Shift, rows: nat): Place {
    if shift.Some? then LeftBy(p, 1, shift, rows)
    else if 0 < p.field then p.(field := p.field - 1)
    else if p.x == 0 then p.(field := 0)
    else p.(x := p.x - 1, field := FIELDS_MAX - 1)
  }

  /** Where an entry takes the cursor, by the note that was under it. */
  function AfterEntry(p: Place, entry: Entry, note: u8, spacing: int, shift: Shift, rows: nat): Place {
    match entry
    case NoteValue(_) => DownBy(p, spacing, shift, rows)
    case Octave(_) => if note < NOTES then DownBy(p, spacing, shift, rows) else p
    case InstrumentTens(_) => FieldRight(p, shift, rows)
    case InstrumentUnits(_) => FieldLeft(DownBy(p, spacing, shift, rows), shift, rows)
    case VolumeFirst(key) => if VolumeLetter(key) then FieldRight(p, shift, rows) else p
    case VolumeSecond(_) => FieldLeft(DownBy(p, spacing, shift, rows), shift, rows)
    case Command(_) => DownBy(p, spacing, shift, rows)
    case ParameterHigh(_) => FieldRight(p, shift, rows)
    case ParameterLow(_) => FieldLeft(DownBy(p, spacing, shift, rows), shift, rows)
    case NoteOff(field) => if field.NoteField? || field.OctaveField? then DownBy(p, spacing, shift, rows) else p
    case NoteCut => DownBy(p, spacing, shift, rows)
    case WriteMask(_) => DownBy(p, spacing, shift, rows)
    case ClearField(_) => DownBy(p, spacing, shift, rows)
    case _ => p
  }

  /** Normalizing leaves a selection that the commands can work on, and does it once and for all. */
  lemma NormalizedIsStable(a: Area, rows: nat)
    requires 1 <= rows <= MAX_PATTERN_LENGTH && 0 <= a.firstColumn < PATTERN_WIDTH && 0 <= a.lastColumn < PATTERN_WIDTH
    requires 0 <= a.lastRow
    ensures var n := Normalized(a, rows);
      && AreaOk(n) && n.firstColumn <= n.lastColumn && n.lastRow < rows
      && (n.firstRow <= n.lastRow <==> Min(a.firstRow, a.lastRow) < rows)
      && (n.firstRow <= n.lastRow ==> Normalized(n, rows) == n)
  {
  }

  /** A number between two others, whichever comes first. */
  predicate Between(a: int, x: int, b: int) {
    a <= x <= b || b <= x <= a
  }

  /** A normalized selection holds exactly the cells between its corners that are in the pattern. */
  lemma NormalizedHolds(a: Area, rows: nat, c: int, r: int)
    ensures
      var n := Normalized(a, rows);
      n.firstColumn <= c <= n.lastColumn && n.firstRow <= r <= n.lastRow <==>
        Between(a.firstColumn, c, a.lastColumn) && Between(a.firstRow, r, a.lastRow) && 0 <= r < rows
  {
  }

  /** While shift is held the selection is what lies between the cell where it was pressed and the cursor. */
  lemma ShiftSelects(p: Place, from: (int, int), rows: nat, c: int, r: int)
    ensures
      var f := Following(p, Some(from), rows);
      && f.active && f.x == p.x && f.y == p.y && f.field == p.field
      && (f.area.firstColumn <= c <= f.area.lastColumn && f.area.firstRow <= r <= f.area.lastRow <==>
            Between(from.0, c, p.x) && Between(from.1, r, p.y) && 0 <= r < rows)
  {
    NormalizedHolds(Area(from.0, p.x, from.1, p.y), rows, c, r);
  }

  lemma MovesAreOk(p: Place, spacing: nat, shift: Shift, rows: nat)
    requires PlaceOk(p) && ShiftOk(shift) && 1 <= rows <= MAX_PATTERN_LENGTH
    ensures PlaceOk(DownBy(p, spacing, shift, rows)) && DownBy(p, spacing, shift, rows).y < rows
    ensures PlaceOk(FieldLeft(p, shift, rows)) && FieldLeft(p, shift, rows).y == p.y
    ensures PlaceOk(FieldRight(p, shift, rows)) && FieldRight(p, shift, rows).y == p.y
  {
  }

  /**
   * An entry leaves the cursor where the next one can be made, and inside the pattern unless it was past its end and
   * has not moved down.
   */
  lemma EntryMovesInside(p: Place, entry: Entry, note: u8, spacing: nat, shift: Shift, rows: nat)
    requires PlaceOk(p) && ShiftOk(shift) && 1 <= rows <= MAX_PATTERN_LENGTH
    ensures PlaceOk(AfterEntry(p, entry, note, spacing, shift, rows))
    ensures p.y < rows ==> AfterEntry(p, entry, note, spacing, shift, rows).y < rows
  {
    hide PlaceOk, DownBy, FieldLeft, FieldRight;
    MovesAreOk(p, spacing, shift, rows);
    MovesAreOk(DownBy(p, spacing, shift, rows), spacing, shift, rows);
  }

  /** Without shift the cursor comes back, except from the outermost place. */
  lemma FieldLeftUndoesRightIff(p: Place, rows: nat)
    requires PlaceOk(p)
    ensures FieldLeft(FieldRight(p, None, rows), None, rows) == p <==>
      !(p.x == PATTERN_WIDTH - 1 && p.field == FIELDS_MAX - 1)
    ensures FieldRight(FieldLeft(p, None, rows), None, rows) == p <==> !(p.x == 0 && p.field == 0)
  {
  }

  /**
   * Two digits typed one after the other bring the cursor back to where the first was typed, one step further down: so
   * a column of instruments can be typed without moving the cursor.
   */
  lemma TwoDigitsAdvance(p: Place, tens: int, units: int, note: u8, spacing: int, rows: nat)
    requires PlaceOk(p) && p.field < FIELDS_MAX - 1
    ensures
      var first := AfterEntry(p, InstrumentTens(tens), note, spacing, None, rows);
      AfterEntry(first, InstrumentUnits(units), note, spacing, None, rows) == DownBy(p, spacing, None, rows)
  {
  }

  /** The places of all columns in one line; without shift the cursor goes along it. */
  function PlaceNumber(p: Place): int {
    9 * p.x + p.field
  }

  lemma CursorGoesAlong(p: Place, rows: nat)
    requires PlaceOk(p)
    ensures var right, left := FieldRight(p, None, rows), FieldLeft(p, None, rows);
      && PlaceNumber(right) == (if PlaceNumber(p) < 575 then PlaceNumber(p) + 1 else 575) && 0 <= right.field < 9
      && PlaceNumber(left) == (if 0 < PlaceNumber(p) then PlaceNumber(p) - 1 else 0) && 0 <= left.field < 9
      && right == p.(x := right.x, field := right.field) && left == p.(x := left.x, field := left.field)
  {
  }

  lemma ShiftGoesByColumns(p: Place, from: (int, int), rows: nat)
    requires PlaceOk(p)
    ensures var right, left := FieldRight(p, Some(from), rows), FieldLeft(p, Some(from), rows);
      && right.x == (if p.x < 63 then p.x + 1 else 63) && left.x == (if 0 < p.x then p.x - 1 else 0)
      && right.field == left.field == p.field && right.y == left.y == p.y
  {
    hide Normalized;
  }

  /** Where an entry takes the cursor, without shift and off the edges. */
  lemma EntryMoves(p: Place, e: Entry, note: u8, spacing: nat, rows: nat)
    requires PlaceOk(p) && p.y + spacing < rows
    ensures
      var after, down := AfterEntry(p, e, note, spacing, None, rows), p.(y := p.y + spacing);
      && (e.NoteValue? || e.Command? || e.NoteCut? || e.WriteMask? || e.ClearField? ==> after == down)
      && (e.Octave? ==> after == if note < 120 then down else p)
      && (e.NoteOff? ==> after == if e.field == NoteField || e.field == OctaveField then down else p)
      && (e.ReadMask? || e.ToggleMask? || e.RaiseNote? || e.LowerNote? || e.SetInstrument? ==> after == p)
      && ((e.InstrumentTens? || e.ParameterHigh?) && p.field < 8 ==> after == p.(field := p.field + 1))
      && (e.VolumeFirst? && p.field < 8 ==> after == if VolumeLetter(e.key) then p.(field := p.field + 1) else p)
      && ((e.InstrumentUnits? || e.VolumeSecond? || e.ParameterLow?) && 0 < p.field ==>
            after == down.(field := p.field - 1))
  {
    hide Normalized;
  }
}
