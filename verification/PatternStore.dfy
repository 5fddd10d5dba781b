/** The sparse pattern with its one-cell write-back cache. */
module PatternStore {
  import opened BitMath
  import opened Notes
  import opened Options

  const PATTERN_WIDTH := 64
  const MAX_PATTERN_LENGTH := 200

  type Column = map<int, Note>

  /** A pattern's visible rows, column by column. */
  type Grid = seq<seq<Note>>

  /** The value of every cell, whether or not its row is visible. */
  type Cells = imap<(int, int), Note>

  predicate InRange(c: int, r: int, length: int) {
    0 <= c < PATTERN_WIDTH && 0 <= r < length
  }

  ghost function GridOf(cells: Cells, length: nat): (g: Grid)
    requires forall k :: k in cells
    ensures |g| == PATTERN_WIDTH
    ensures forall c | 0 <= c < PATTERN_WIDTH :: |g[c]| == length
    ensures forall c, r | InRange(c, r, length) :: g[c][r] == cells[(c, r)]
  {
    seq(PATTERN_WIDTH, c => seq(length, r => cells[(c, r)]))
  }

  /** The cells that are out of sight. */
  ghost function HiddenOf(cells: Cells, length: nat): (hidden: Cells)
    requires forall k :: k in cells
    ensures forall c, r :: (c, r) in hidden <==> !InRange(c, r, length)
    ensures forall k | k in hidden :: hidden[k] == cells[k]
  {
    imap k: (int, int) | !InRange(k.0, k.1, length) :: cells[k]
  }

  lemma GridOfUpdate(cells: Cells, length: nat, c: int, r: int, n: Note)
    requires (forall k :: k in cells) && InRange(c, r, length)
    ensures GridOf(cells[(c, r) := n], length) == Put(GridOf(cells, length), c, r, n)
    ensures HiddenOf(cells[(c, r) := n], length) == HiddenOf(cells, length)
  {
    var g, h := GridOf(cells[(c, r) := n], length), Put(GridOf(cells, length), c, r, n);
    forall i | 0 <= i < PATTERN_WIDTH
      ensures g[i] == h[i]
    {
      assert forall j | 0 <= j < length :: g[i][j] == h[i][j];
    }
  }

  function Put(g: Grid, c: int, r: int, n: Note): Grid
    requires 0 <= c < |g| && 0 <= r < |g[c]|
  {
    g[c := g[c][r := n]]
  }

  /** A pattern seen from outside: its cells, its length, and the cell the last reference stands for. */
  datatype View = View(cells: Cells, length: int, focus: Option<(int, int)>)

  datatype Operation =
    | GetRef(c: int, r: int)
    | Write(n: Note)
    | SetLength(length: u8)
    | Clear

  predicate LegalLength(length: u8) {
    1 <= length <= MAX_PATTERN_LENGTH
  }

  function Min(a: int, b: int): int {
    if a < b then a else b
  }

  /** What each operation may do to the pattern. A longer pattern may show old notes in its new rows. */
  ghost predicate Step(v: View, op: Operation, w: View)
    requires forall k :: k in v.cells && k in w.cells
  {
    match op
    case GetRef(c, r) =>
      w == v.(focus := if InRange(c, r, v.length) then Some((c, r)) else None)
    case Write(n) =>
      w == v.(cells := if v.focus.Some? then v.cells[v.focus.value := n] else v.cells)
    case SetLength(length) =>
      && w.length == (if LegalLength(length) then length else v.length)
      && w.focus == v.focus
      && (forall c: int, r: int | r < Min(v.length, w.length) :: w.cells[(c, r)] == v.cells[(c, r)])
      && (forall k :: w.cells[k] == v.cells[k] || w.cells[k] == EMPTY)
    case Clear =>
      && w.length == v.length
      && w.focus == None
      && forall k :: w.cells[k] == EMPTY
  }

  ghost predicate IsLast(m: Column, r: int) {
    r in m && forall s | s in m :: s <= r
  }

  /** Erases the rows from bound on, as the erasing loop does: the column's last row is never looked at. */
  ghost function Trimmed(m: Column, bound: int): Column {
    map r | r in m && (r < bound || IsLast(m, r)) :: m[r]
  }

  /**
   * An empty pattern has no columns; stored cells are never empty notes, and there is one unless the pattern is
   * empty.
   */
  ghost predicate ColumnsOk(column: seq<Column>, empty: bool) {
    && |column| == (if empty then 0 else PATTERN_WIDTH)
    && (forall c, r | 0 <= c < |column| && r in column[c] :: column[c][r] != EMPTY)
    && (!empty ==> exists c :: 0 <= c < |column| && |column[c]| > 0)
  }

  /** The rows that the erasing loop has passed come before those still to do. */
  ghost predicate LastOnes(m: Column, todo: set<int>) {
    forall r, s | r in m && r !in todo && s in todo :: r < s
  }

  /** The column while the loop still has some rows to do. */
  ghost function Left(m: Column, todo: set<int>, bound: int): Column {
    map r | r in m && (r in todo || r < bound) :: m[r]
  }

  lemma NothingErased(m: Column, bound: int)
    ensures Left(m, m.Keys, bound) == m
  {
  }

  lemma EraseOne(m: Column, todo: set<int>, bound: int, j: int)
    requires j in todo && todo <= m.Keys && LastOnes(m, todo) && forall s | s in todo :: j <= s
    ensures LastOnes(m, todo - {j})
    ensures Left(m, todo - {j}, bound) == if j >= bound then Left(m, todo, bound) - {j} else Left(m, todo, bound)
  {
  }

  lemma OneLeft(m: Column, todo: set<int>, bound: int)
    requires todo <= m.Keys && LastOnes(m, todo) && |todo| <= 1 && (|m| > 0 ==> |todo| > 0)
    ensures Left(m, todo, bound) == Trimmed(m, bound)
  {
    if |todo| > 0 {
      var last := Member(todo);
      assert todo == {last} by { assert |todo - {last}| == 0; }
      assert IsLast(m, last);
    }
  }

  function StoredIn(column: seq<Column>, c: int, r: int): Note {
    if 0 <= c < |column| && r in column[c] then column[c][r] else EMPTY
  }

  class Pattern {
    var column: seq<Column>
    var length: u8
    var empty: bool
    var auxNote: Note
    var storageRow: int
    var storageColumn: int
    var lastRequestValid: bool

    ghost predicate Valid()
      reads this
    {
      && 1 <= length <= MAX_PATTERN_LENGTH
      && |column| == (if empty then 0 else PATTERN_WIDTH)
      && ColumnsOk(column, empty)
      && (lastRequestValid ==> 0 <= storageColumn < PATTERN_WIDTH)
    }

    ghost function Stored(c: int, r: int): Note
      reads this
    {
      StoredIn(column, c, r)
    }

    ghost predicate Pending(c: int, r: int)
      reads this
    {
      lastRequestValid && c == storageColumn && r == storageRow
    }

    /** What get_note answers. */
    ghost function At(c: int, r: int): Note
      reads this
    {
      if Pending(c, r) then auxNote else Stored(c, r)
    }

    ghost function Cells(): (cells: Cells)
      reads this
      ensures forall k :: k in cells
    {
      imap k: (int, int) | true :: At(k.0, k.1)
    }

    ghost function Hidden(): Cells
      reads this
    {
      HiddenOf(Cells(), length)
    }

    ghost function State(): (v: View)
      reads this
      ensures forall k :: k in v.cells
    {
      View(Cells(), length, if lastRequestValid then Some((storageColumn, storageRow)) else None)
    }

    ghost function Grid(): Grid
      reads this
    {
      GridOf(Cells(), length)
    }

    lemma GridCell(c: int, r: int)
      requires InRange(c, r, length)
      ensures Grid()[c][r] == At(c, r)
    {
      assert Cells()[(c, r)] == At(c, r);
    }

    lemma GridShape()
      ensures |Grid()| == PATTERN_WIDTH && forall c | 0 <= c < PATTERN_WIDTH :: |Grid()[c]| == length as int
    {
    }

    constructor ()
      ensures Valid() && length == 64
      ensures !lastRequestValid && !InUse() && forall k :: Cells()[k] == EMPTY
    {
      column, length, empty := [], 64, true;
      auxNote, storageRow, storageColumn, lastRequestValid := EMPTY, -1, -1, false;
    }

    predicate InUse()
      reads this
    {
      !empty
    }

    method CheckForEmptyPattern() returns (r: bool)
      requires empty || |column| == PATTERN_WIDTH
      ensures r <==> empty || forall c | 0 <= c < |column| :: column[c] == map[]
    {
      if empty {
        return true;
      }
      for i := 0 to PATTERN_WIDTH
        invariant forall c | 0 <= c < i :: column[c] == map[]
      {
        if column[i] != map[] {
          return false;
        }
      }
      r := true;
    }

    method EraseCell(c: int, r: int)
      requires Valid() && !empty && 0 <= c < PATTERN_WIDTH
      modifies this`column, this`empty
      ensures Valid()
      ensures forall c', r' :: Stored(c', r') == if c' == c && r' == r then EMPTY else old(Stored(c', r'))
    {
      column := column[c := column[c] - {r}];
      assert forall c', r' :: Stored(c', r') == if c' == c && r' == r then EMPTY else old(Stored(c', r'));
      var nothing := CheckForEmptyPattern();
      if nothing {
        column := [];
        empty := true;
      }
    }

    method InsertCell(c: int, r: int, n: Note)
      requires Valid() && 0 <= c < PATTERN_WIDTH && n != EMPTY
      modifies this`column, this`empty
      ensures Valid()
      ensures forall c', r' :: Stored(c', r') == if c' == c && r' == r then n else old(Stored(c', r'))
    {
      if empty {
        column := seq(PATTERN_WIDTH, _ => map[]);
        empty := false;
      }
      column := column[c := column[c][r := n]];
      assert |column[c]| > 0 by { assert r in column[c]; }
    }

    method ProcessInsertRequest(c: int, r: int, n: Note)
      requires Valid() && 0 <= c < PATTERN_WIDTH
      modifies this`column, this`empty
      ensures Valid()
      ensures forall c', r' :: Stored(c', r') == if c' == c && r' == r then n else old(Stored(c', r'))
    {
      hide ColumnsOk;
      if n == EMPTY {
        if !empty {
          EraseCell(c, r);
        }
      } else {
        InsertCell(c, r, n);
      }
    }

    method ProcessRetrieveRequest(c: int, r: int) returns (n: Note)
      ensures n == Stored(c, r)
    {
      if !(0 <= c < |column|) {
        return EMPTY;
      }
      n := if r in column[c] then column[c][r] else EMPTY;
    }

    method GetNote(c: int, r: int) returns (n: Note)
      ensures n == At(c, r)
    {
      if c == storageColumn && r == storageRow && lastRequestValid {
        n := auxNote;
      } else {
        n := ProcessRetrieveRequest(c, r);
      }
    }

    /** Writes the pending cell back. */
    method Flush()
      requires Valid()
      modifies this`column, this`empty
      ensures Valid()
      ensures forall c, r :: Stored(c, r) == old(At(c, r))
    {
      hide ColumnsOk, StoredIn;
      if lastRequestValid {
        ProcessInsertRequest(storageColumn, storageRow, auxNote);
      }
    }

    /** Makes the cache stand for the cell, and changes no cell by it; out of range it stands for nothing. */
    method GetNoteRef(c: int, r: int)
      requires Valid()
      modifies this
      ensures Valid()
      ensures Step(old(State()), GetRef(c, r), State())
      ensures auxNote == if InRange(c, r, length) then At(c, r) else EMPTY
    {
      hide ColumnsOk, StoredIn;
      Flush();
      if c >= PATTERN_WIDTH || r >= length || c < 0 || r < 0 {
        auxNote := EMPTY;
        lastRequestValid := false;
      } else {
        lastRequestValid := true;
        storageColumn := c;
        storageRow := r;
        auxNote := ProcessRetrieveRequest(c, r);
      }
      assert forall c', r' :: At(c', r') == old(At(c', r'));
    }

    /** A write through the reference last handed out. */
    method WriteRef(n: Note)
      requires Valid()
      modifies this`auxNote
      ensures Valid()
      ensures Step(old(State()), Write(n), State())
      ensures auxNote == n
    {
      hide ColumnsOk, StoredIn;
      auxNote := n;
      assert forall c', r' :: At(c', r') == if Pending(c', r') then n else old(At(c', r'));
    }

    /** `get_note_ref(c, r) = n`; out of range nothing happens. */
    method Assign(c: int, r: int, n: Note)
      requires Valid()
      modifies this
      ensures Valid() && length == old(length)
      ensures Cells() == if InRange(c, r, length) then old(Cells())[(c, r) := n] else old(Cells())
      ensures Grid() == if InRange(c, r, length) then Put(old(Grid()), c, r, n) else old(Grid())
      ensures Hidden() == old(Hidden())
    {
      hide GridOf, HiddenOf, Valid, Cells;
      ghost var cells := Cells();
      Modify(c, r, _ => n);
      if InRange(c, r, length) {
        GridOfUpdate(cells, length, c, r, n);
      }
    }

    /** `get_note_ref(c, r).field = x`, where change sets the field; out of range nothing happens. */
    method Modify(c: int, r: int, change: Note -> Note)
      requires Valid()
      modifies this
      ensures Valid() && length == old(length)
      ensures Cells() == if InRange(c, r, length) then old(Cells())[(c, r) := change(old(At(c, r)))] else old(Cells())
    {
      hide ColumnsOk, StoredIn;
      GetNoteRef(c, r);
      WriteRef(change(auxNote));
    }

    method EraseFrom(m: Column, bound: int) returns (t: Column)
      ensures t == Trimmed(m, bound)
    {
      hide Left, Trimmed;
      t := m;
      var todo := m.Keys;
      NothingErased(m, bound);
      while |todo| > 1
        invariant todo <= m.Keys && LastOnes(m, todo)
        invariant t == Left(m, todo, bound)
        invariant |m| > 0 ==> |todo| > 0
      {
        Least(todo);
        var j :| j in todo && forall s | s in todo :: j <= s;
        EraseOne(m, todo, bound, j);
        todo := todo - {j};
        if j >= bound {
          t := t - {j};
        }
      }
      OneLeft(m, todo, bound);
    }

    /** The loops of set_length over the columns. */
    method TrimColumns(bound: int)
      requires Valid() && !empty
      modifies this`column
      ensures Valid()
      ensures forall c | 0 <= c < PATTERN_WIDTH :: column[c] == Trimmed(old(column)[c], bound)
      ensures forall c, r | r < bound :: Stored(c, r) == old(Stored(c, r))
      ensures forall c, r :: Stored(c, r) == old(Stored(c, r)) || Stored(c, r) == EMPTY
    {
      for i := 0 to PATTERN_WIDTH
        invariant |column| == PATTERN_WIDTH
        invariant forall c | 0 <= c < i :: column[c] == Trimmed(old(column)[c], bound)
        invariant forall c | i <= c < PATTERN_WIDTH :: column[c] == old(column)[c]
      {
        var trimmed := EraseFrom(column[i], bound);
        column := column[i := trimmed];
      }
      ghost var c :| 0 <= c < PATTERN_WIDTH && |old(column)[c]| > 0;
      TrimmedKeepsLast(old(column)[c], bound);
    }

    /** Trims for a new length, longer or shorter: either way from the shorter one on. */
    method TrimFor(p: u8)
      requires Valid() && !empty && LegalLength(p)
      modifies this`column
      ensures Valid()
      ensures forall c, r | r < Min(length, p) :: Stored(c, r) == old(Stored(c, r))
      ensures forall c, r :: Stored(c, r) == old(Stored(c, r)) || Stored(c, r) == EMPTY
      ensures p != length ==>
        forall c | 0 <= c < PATTERN_WIDTH :: column[c] == Trimmed(old(column)[c], Min(length, p))
    {
      hide ColumnsOk, StoredIn, Trimmed;
      if length < p {
        TrimColumns(length);
      } else if length > p {
        TrimColumns(p);
      }
    }

    method SetNewLength(p: u8)
      requires Valid()
      modifies this`column, this`length
      ensures Valid()
      ensures Step(old(State()), SetLength(p), State())
      ensures old(InUse()) && LegalLength(p) && p != old(length) ==>
        forall c | 0 <= c < PATTERN_WIDTH :: column[c] == Trimmed(old(column)[c], Min(old(length), p))
    {
      hide ColumnsOk, StoredIn, Trimmed;
      if p < 1 || p > MAX_PATTERN_LENGTH {
        return;
      }
      if !empty {
        TrimFor(p);
      }
      assert forall c, r | r < Min(length, p) :: At(c, r) == old(At(c, r));
      assert forall c, r :: At(c, r) == old(At(c, r)) || At(c, r) == EMPTY;
      length := p;
    }

    method ClearAll()
      requires Valid()
      modifies this
      ensures Valid() && !InUse()
      ensures Step(old(State()), Clear, State())
    {
      empty := true;
      column := [];
      lastRequestValid := false;
      storageColumn := -1;
      storageRow := -1;
    }

    /** Copies the whole object, cache included. */
    method CopyFrom(p: Pattern)
      requires p.Valid()
      modifies this
      ensures Valid() && State() == old(p.State()) && Grid() == old(p.Grid()) && InUse() == old(p.InUse())
    {
      hide ColumnsOk, StoredIn;
      column, length, empty := p.column, p.length, p.empty;
      auxNote, storageRow, storageColumn, lastRequestValid :=
        p.auxNote, p.storageRow, p.storageColumn, p.lastRequestValid;
      assert forall c, r :: At(c, r) == old(p.At(c, r));
    }

    /** in_use() tells whether some cell other than the pending one is filled, up to what the pending one replaced. */
    lemma InUseUpToPendingCell()
      requires Valid()
      ensures !InUse() ==> forall c, r | !Pending(c, r) :: At(c, r) == EMPTY
      ensures InUse() ==> exists c, r :: Stored(c, r) != EMPTY && (At(c, r) != EMPTY || Pending(c, r))
    {
      if InUse() {
        var c :| 0 <= c < |column| && |column[c]| > 0;
        var r := Member(column[c].Keys);
        assert Stored(c, r) != EMPTY;
      }
    }
  }

  lemma Member<T>(s: set<T>) returns (x: T)
    requires |s| > 0
    ensures x in s
  {
    x :| x in s;
  }

  lemma {:induction false} Least(s: set<int>)
    requires |s| > 0
    ensures exists j :: j in s && forall t | t in s :: j <= t
  {
    var x := Member(s);
    if |s| > 1 {
      assert |s - {x}| == |s| - 1;
      Least(s - {x});
      var y :| y in s - {x} && forall t | t in s - {x} :: y <= t;
      var j := if x < y then x else y;
      forall t | t in s
        ensures j <= t
      {
        assert t == x || t in s - {x};
      }
    } else {
      assert s == {x} by { assert |s - {x}| == 0; }
    }
  }

  lemma {:induction false} Greatest(s: set<int>)
    requires |s| > 0
    ensures exists j :: j in s && forall t | t in s :: t <= j
  {
    var x := Member(s);
    if |s| > 1 {
      assert |s - {x}| == |s| - 1;
      Greatest(s - {x});
      var y :| y in s - {x} && forall t | t in s - {x} :: t <= y;
      var j := if x < y then y else x;
      forall t | t in s
        ensures t <= j
      {
        assert t == x || t in s - {x};
      }
    } else {
      assert s == {x} by { assert |s - {x}| == 0; }
    }
  }

  lemma TrimmedKeepsLast(m: Column, bound: int)
    requires |m| > 0
    ensures |Trimmed(m, bound)| > 0
  {
    assert |m.Keys| > 0;
    Greatest(m.Keys);
    var last :| last in m.Keys && forall t | t in m.Keys :: t <= last;
    assert IsLast(m, last);
    assert last in Trimmed(m, bound);
  }

  /**
   * Setting a shorter length is meant to drop the rows past the end. A column is cut exactly when it had nothing
   * there: its last row is never erased.
   */
  lemma TruncatesOnlyWhenNothingToCut(m: Column, bound: int)
    ensures (forall r | r in Trimmed(m, bound) :: r < bound) <==> (forall r | r in m :: r < bound)
  {
    if |m| > 0 {
      assert |m.Keys| > 0;
      Greatest(m.Keys);
      var last :| last in m.Keys && forall t | t in m.Keys :: t <= last;
      assert IsLast(m, last);
      assert last in Trimmed(m, bound);
    }
  }

  lemma TruncationLeavesARow(n: Note)
    ensures 5 in Trimmed(map[5 := n], 3)
  {
    assert IsLast(map[5 := n], 5);
  }

  /** Shrinking to bound and growing again brings back the last row of the column, and no other one past the bound. */
  lemma RegrownRows(m: Column, bound: int, r: int)
    requires bound <= r
    ensures Trimmed(Trimmed(m, bound), bound) == Trimmed(m, bound)
    ensures r in Trimmed(m, bound) <==> IsLast(m, r)
  {
    forall s | s in Trimmed(m, bound) && bound <= s
      ensures IsLast(Trimmed(m, bound), s)
    {
    }
  }
}
