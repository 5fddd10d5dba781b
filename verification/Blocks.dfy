/** What the editor's block operations do to one column of a pattern, and how they undo each other. */
module Blocks {
  import opened BitMath
  import opened Division
  import opened Notes

  type Rows = seq<Note>

  /** Makes room for one row; the last row is lost. Past the end nothing happens. */
  function Inserted(col: Rows, y: nat): (inserted: Rows)
    ensures |inserted| == |col|
  {
    if y < |col| then col[..y] + [EMPTY] + col[y..|col| - 1] else col
  }

  /** The rows below move up and leave the last row empty. Past the end no row moves, but the last one is emptied. */
  function Deleted(col: Rows, y: nat): (deleted: Rows)
    ensures |deleted| == |col|
  {
    if y < |col| then col[..y] + col[y + 1..] + [EMPTY] else if |col| == 0 then [] else col[|col| - 1 := EMPTY]
  }

  function PastedOver(col: Rows, clip: Rows, y: nat): Rows
    requires y < |col|
  {
    (col[..y] + clip + if y + |clip| < |col| then col[y + |clip|..] else [])[..|col|]
  }

  function PastedInto(col: Rows, clip: Rows, y: nat): Rows
    requires y < |col|
  {
    (col[..y] + clip + col[y..])[..|col|]
  }

  /** Only empty cells take the pasted ones. */
  function Mixed(col: Rows, clip: Rows, y: nat): Rows
    requires y < |col|
  {
    seq(|col|, r requires 0 <= r < |col| => if y <= r < y + |clip| && col[r] == EMPTY then clip[r - y] else col[r])
  }

  predicate Selected(b: int, e: int, r: int) {
    b <= r <= e
  }

  function ExpandLimit(rows: nat, b: int, e: int): int {
    if b + 2 * (e - b) >= rows then rows - 1 else b + 2 * (e - b)
  }

  /** What comes to row r when row b + k moves to b + 2 * k: nothing to the odd ones. */
  function ExpandedRow(col: Rows, b: int, r: int): Note
    requires 0 <= b <= r < |col|
  {
    if (r - b) % 2 == 0 then col[b + (r - b) / 2] else EMPTY
  }

  function Expanded(col: Rows, b: int, e: int): Rows
    requires 0 <= b < e < |col|
  {
    seq(|col|, r requires 0 <= r < |col| =>
      if r < b || ExpandLimit(|col|, b, e) < r then col[r] else ExpandedRow(col, b, r))
  }

  /** Row b + 2 * k of the selection moves to b + k. */
  function Shrunk(col: Rows, b: int, e: int): Rows
    requires 0 <= b < e < |col|
  {
    seq(|col|, r requires 0 <= r < |col| =>
      if !Selected(b, e, r) then col[r]
      else if r - b < (e - b) / 2 then col[b + 2 * (r - b)]
      else EMPTY)
  }

  /** The selected rows changed one by one. */
  function Changed(col: Rows, b: int, e: int, change: Note -> Note): Rows {
    seq(|col|, r requires 0 <= r < |col| => if Selected(b, e, r) then change(col[r]) else col[r])
  }

  function Cleared(n: Note): Note {
    EMPTY
  }

  function RaisedNote(n: Note): Note {
    n.Raise()
  }

  function LoweredNote(n: Note): Note {
    n.Lower()
  }

  /** Wherever the cursor is, one row is lost: the last one, or the one under the cursor. */
  lemma DeleteUndoesInsert(col: Rows, y: nat)
    requires 0 < |col|
    ensures Deleted(Inserted(col, y), y) == col[|col| - 1 := EMPTY]
    ensures Inserted(Deleted(col, y), y) == col[(if y < |col| then y else |col| - 1) := EMPTY]
  {
    if y < |col| {
      assert Deleted(Inserted(col, y), y)[..y] == col[..y];
    }
  }

  /** What an inserting paste pushes out at the end is all that is lost: the rest only moves. */
  lemma PastedIntoCells(col: Rows, clip: Rows, y: nat)
    requires y < |col|
    ensures |PastedInto(col, clip, y)| == |col|
    ensures forall r {:trigger PastedInto(col, clip, y)[r]} | 0 <= r < |col| ::
      PastedInto(col, clip, y)[r] == (if r < y then col[r] else if r < y + |clip| then clip[r - y] else col[r - |clip|])
  {
  }

  /** Every row after pasting; nothing is pasted past the end of the column. */
  lemma PastedCells(col: Rows, clip: Rows, y: nat, paste: Paste)
    ensures |Pasted(col, clip, y, paste)| == |col|
    ensures forall r {:trigger Pasted(col, clip, y, paste)[r]} | 0 <= r < |col| ::
      Pasted(col, clip, y, paste)[r] ==
      (if r < y then col[r]
       else if r < y + |clip| then if paste.Mix? && col[r] != EMPTY then col[r] else clip[r - y]
       else if paste.Insert? then col[r - |clip|]
       else col[r])
  {
    hide PastedOver, PastedInto;
    if y < |col| {
      PastedIntoCells(col, clip, y);
      forall r | 0 <= r < |col|
        ensures |PastedOver(col, clip, y)| == |col|
        ensures PastedOver(col, clip, y)[r] == if y <= r < y + |clip| then clip[r - y] else col[r]
      {
        PastedOverCells(col, clip, y, r);
      }
    }
  }

  /** No row below the one it comes to is read. */
  lemma ExpandedRowReadsAbove(col: Rows, other: Rows, b: int, r: int)
    requires 0 <= b <= r < |col| && r < |other| && forall k | b <= k <= r :: col[k] == other[k]
    ensures ExpandedRow(col, b, r) == ExpandedRow(other, b, r)
  {
  }

  /** The first rows of an expanded column. */
  lemma ExpandedCells(col: Rows, rows: nat, b: int, e: int)
    requires 0 <= b < e < |col| && (|col| == rows || (|col| == e + 1 && rows <= e))
    ensures |Expanded(col, b, e)| == |col|
    ensures forall r {:trigger Expanded(col, b, e)[r]} | 0 <= r < rows ::
      Expanded(col, b, e)[r] == (if r < b || ExpandLimit(rows, b, e) < r then col[r] else ExpandedRow(col, b, r))
  {
    hide ExpandedRow;
  }

  lemma PastedOverCells(col: Rows, clip: Rows, y: nat, r: nat)
    requires y < |col| && r < |col|
    ensures |PastedOver(col, clip, y)| == |col|
    ensures PastedOver(col, clip, y)[r] == if y <= r < y + |clip| then clip[r - y] else col[r]
  {
  }

  /** Cutting a block and pasting it back, in either way, gives the column again. */
  lemma PasteUndoesCut(col: Rows, b: nat, e: nat)
    requires b <= e < |col|
    ensures PastedOver(Changed(col, b, e, Cleared), col[b..e + 1], b) == col
    ensures Mixed(Changed(col, b, e, Cleared), col[b..e + 1], b) == col
  {
    var cut := Changed(col, b, e, Cleared);
    var clip := col[b..e + 1];
    assert |col| > 0 && |cut| == |col|;
    var over, mixed := PastedOver(cut, clip, b), Mixed(cut, clip, b);
    forall r | 0 <= r < |col|
      ensures |over| == |mixed| == |col| && over[r] == col[r] && mixed[r] == col[r]
    {
      PastedOverCells(cut, clip, b, r);
      assert cut[r] == if Selected(b, e, r) then Cleared(col[r]) else col[r];
      assert mixed[r] == if b <= r < b + |clip| && cut[r] == EMPTY then clip[r - b] else cut[r];
    }
  }

  lemma ExpandThenShrink(col: Rows, b: int, e: int, r: int)
    requires 0 <= b < e < |col| && Selected(b, e, r)
    ensures Shrunk(Expanded(col, b, e), b, e)[r] == if r - b < (e - b) / 2 then col[r] else EMPTY
  {
    if r - b < (e - b) / 2 {
      var k := r - b;
      var t := b + 2 * k;
      Halves(k);
      assert 2 * k < e - b && (t - b) % 2 == 0 && (t - b) / 2 == k && t <= ExpandLimit(|col|, b, e);
      assert Expanded(col, b, e)[t] == col[b + (t - b) / 2];
    }
  }

  lemma Halves(k: int)
    ensures 2 * k / 2 == k && 2 * k % 2 == 0
    ensures k % 2 == 0 ==> 2 * (k / 2) == k
  {
  }

  lemma ShrinkThenExpand(col: Rows, b: int, e: int, r: int)
    requires 0 <= b < e < |col| && Selected(b, e, r)
    ensures Expanded(Shrunk(col, b, e), b, e)[r] ==
      if (r - b) % 2 == 0 && (r - b) / 2 < (e - b) / 2 then col[r] else EMPTY
  {
    assert r <= ExpandLimit(|col|, b, e);
    if (r - b) % 2 == 0 {
      var j, s := (r - b) / 2, Shrunk(col, b, e);
      Halves(r - b);
      assert Expanded(s, b, e)[r] == s[b + j];
      assert Selected(b, e, b + j) && b + j - b == j;
      assert s[b + j] == if j < (e - b) / 2 then col[b + 2 * j] else EMPTY;
    }
  }

  /** Lowering a raised block restores it exactly when it held no highest note. */
  lemma LowerUndoesRaiseIff(col: Rows, b: int, e: int)
    requires 0 <= b
    ensures Changed(Changed(col, b, e, RaisedNote), b, e, LoweredNote) == col <==>
      forall r | 0 <= r < |col| && Selected(b, e, r) :: col[r].note != NOTES - 1
  {
    var up := Changed(col, b, e, RaisedNote);
    var down := Changed(up, b, e, LoweredNote);
    forall r | 0 <= r < |col|
      ensures down[r] == col[r] <==> !(Selected(b, e, r) && col[r].note == NOTES - 1)
    {
      assert down[r] == if Selected(b, e, r) then LoweredNote(RaisedNote(col[r])) else col[r];
    }
    if forall r | 0 <= r < |col| && Selected(b, e, r) :: col[r].note != NOTES - 1 {
      assert down == col;
    }
  }

  /** The value k of m steps from a to z. */
  function RampValue(a: u8, z: u8, k: int, m: nat): u8
    requires 0 < m
  {
    (a + TruncatingDiv((z - a) * k, m)) % 0x100
  }

  /** A part of d, proportional to k of m. */
  function Share(d: nat, k: nat, m: nat): nat
    requires 0 < m
  {
    ProductGrows(d, 0, k);
    d * k / m
  }

  lemma ShareGrows(d: nat, k: nat, l: nat, m: nat)
    requires k <= l <= m && 0 < m
    ensures Share(d, 0, m) == 0 && Share(d, k, m) <= Share(d, l, m) <= d && Share(d, m, m) == d
  {
    ProductGrows(d, k, l);
    ProductGrows(d, l, m);
    DivisionOfProduct(d, m);
    DivisionGrows(d * k, d * l, m);
    DivisionGrows(d * l, d * m, m);
  }

  lemma Negated(d: int, k: int)
    ensures -d * k == -(d * k)
  {
  }

  lemma RampIsShare(a: u8, z: u8, k: nat, m: nat)
    requires 0 < m && k <= m
    ensures RampValue(a, z, k, m) == if a <= z then a + Share(z - a, k, m) else a - Share(a - z, k, m)
  {
    if a <= z {
      ProductGrows(z - a, 0, k);
      ShareGrows(z - a, k, k, m);
    } else {
      ProductGrows(a - z, 0, k);
      Negated(a - z, k);
      ShareGrows(a - z, k, k, m);
    }
  }

  /** A ramp begins and ends with the values it is drawn between, stays between them, and never turns back. */
  lemma RampIsMonotone(a: u8, z: u8, k: nat, l: nat, m: nat)
    requires k <= l <= m && 0 < m
    ensures RampValue(a, z, 0, m) == a && RampValue(a, z, m, m) == z
    ensures a <= z ==> a <= RampValue(a, z, k, m) <= RampValue(a, z, l, m) <= z
    ensures z <= a ==> z <= RampValue(a, z, l, m) <= RampValue(a, z, k, m) <= a
  {
    hide RampValue, Share;
    RampIsShare(a, z, 0, m);
    RampIsShare(a, z, k, m);
    RampIsShare(a, z, l, m);
    RampIsShare(a, z, m, m);
    ShareGrows(if a <= z then z - a else a - z, k, l, m);
  }

  function RampedParameters(col: Rows, b: int, e: int): Rows
    requires 0 <= b < e < |col|
  {
    seq(|col|, r requires 0 <= r < |col| =>
      if Selected(b, e, r) then col[r].(parameter := RampValue(col[b].parameter, col[e].parameter, r - b, e - b))
      else col[r])
  }

  /** Only plain volumes are ramped. */
  function RampedVolumes(col: Rows, b: int, e: int): Rows
    requires 0 <= b < e < |col|
  {
    if col[b].volume >= 65 || col[e].volume >= 65 then col
    else
      seq(|col|, r requires 0 <= r < |col| =>
        if Selected(b, e, r) then col[r].(volume := RampValue(col[b].volume, col[e].volume, r - b, e - b))
        else col[r])
  }

  /**
   * A note that starts an instrument without a volume counts as full volume; other cells without one stay as they
   * are.
   */
  function ScaledNote(n: Note, percent: int): Note {
    if n.volume == EMPTY_FIELD && (n.instrument == EMPTY_FIELD || n.note >= NOTES) then n
    else
      var v := TruncatingDiv((if n.volume == EMPTY_FIELD then 64 else n.volume as int) * percent, 100);
      n.(volume := (if v > 64 then 64 else v) % 0x100)
  }

  function Scaling(percent: int): Note -> Note {
    (n: Note) => ScaledNote(n, percent)
  }

  function InstrumentMasking(instrument: u8): Note -> Note {
    (n: Note) => if n.instrument != EMPTY_FIELD then n.(instrument := instrument) else n
  }

  function VolumeMasking(volume: u8): Note -> Note {
    (n: Note) => n.(volume := volume)
  }

  /** A volume without a note or an instrument to play it. */
  function StrayVolumeWiped(n: Note): Note {
    if n.instrument == EMPTY_FIELD && (n.note == EMPTY_FIELD || n.note == CUT || n.note == OFF)
    then n.(volume := EMPTY_FIELD)
    else n
  }

  /** What a command does to each selected column. All but the first need a selection of two rows. */
  datatype Edit =
    | Change(change: Note -> Note)
    | Expand
    | Shrink
    | RampParameters
    | RampVolumes

  function Edited(col: Rows, edit: Edit, b: int, e: int): (edited: Rows)
    ensures |edited| == |col|
  {
    if edit.Change? then Changed(col, b, e, edit.change)
    else if !(0 <= b < e < |col|) then col
    else if edit.Expand? then Expanded(col, b, e)
    else if edit.Shrink? then Shrunk(col, b, e)
    else if edit.RampParameters? then RampedParameters(col, b, e)
    else RampedVolumes(col, b, e)
  }

  datatype Paste = Overwrite | Mix | Insert

  /** There is nothing to paste over past the end. */
  function Pasted(col: Rows, clip: Rows, y: nat, paste: Paste): (pasted: Rows)
    ensures |pasted| == |col|
  {
    if |col| <= y then col
    else
      match paste
      case Overwrite => PastedOver(col, clip, y)
      case Mix => Mixed(col, clip, y)
      case Insert => PastedInto(col, clip, y)
  }

  /** A rectangle of cells. */
  datatype Area = Area(firstColumn: int, lastColumn: int, firstRow: int, lastRow: int)
}
