/** From a new song through any session to a .ct file and back. */
module EditedSongs {
  import opened Notes
  import opened PatternStore
  import opened PatternCodec
  import opened CodecRoundTrip
  import opened PatternFiles
  import opened Orders
  import opened Sheets
  import opened EditorUndo
  import opened PatternEditor
  import opened EditorRuns
  import opened EditorSessions

  lemma EmptyPatternIsEmptySheet(p: Pattern)
    requires p.Valid() && forall k :: p.Cells()[k] == EMPTY
    ensures EmptySheet(SheetFrom(p))
  {
    hide Pattern.Cells;
    var s := SheetFrom(p);
    forall c | 0 <= c < PATTERN_WIDTH
      ensures s.grid[c] == EmptyGrid(s.rows)[c]
    {
      assert forall r | 0 <= r < s.rows :: s.grid[c][r] == p.Cells()[(c, r)];
    }
    assert s.grid == EmptyGrid(s.rows);
  }

  method NewPatterns() returns (patterns: seq<Pattern>)
    ensures |patterns| == MAX_PATTERNS && forall i | 0 <= i < |patterns| :: fresh(patterns[i]) && patterns[i].Valid()
    ensures forall i, j | 0 <= i < j < |patterns| :: patterns[i] != patterns[j]
    ensures forall i | 0 <= i < |patterns| :: EmptySheet(SheetFrom(patterns[i]))
  {
    hide Pattern.Valid, SheetFrom, EmptySheet, Pattern.Cells;
    patterns := [];
    for k := 0 to MAX_PATTERNS
      invariant |patterns| == k && forall i | 0 <= i < |patterns| :: fresh(patterns[i]) && patterns[i].Valid()
      invariant forall i, j | 0 <= i < j < |patterns| :: patterns[i] != patterns[j]
      invariant forall i | 0 <= i < |patterns| :: EmptySheet(SheetFrom(patterns[i]))
    {
      var p := new Pattern();
      EmptyPatternIsEmptySheet(p);
      patterns := patterns + [p];
    }
  }

  /** The editor at the start, with a new song. */
  method NewSong() returns (e: Editor)
    ensures fresh(e) && e.Valid() && NewDesk(e)
    ensures fresh(e.clipboard) && fresh(e.undo) && fresh(e.undo.buffer)
    ensures forall i | 0 <= i < |e.patterns| :: fresh(e.patterns[i])
  {
    hide Pattern.Valid, SheetFrom, SheetOf, EmptySheet, Pattern.Cells, UndoList.Entries;
    var patterns := NewPatterns();
    assert forall p | p in patterns :: p.Valid();
    e := new Editor(patterns);
    EmptyPatternIsEmptySheet(e.clipboard);
    CurrentSheet(e);
  }

  lemma PatternOnDesk(e: Editor, p: int)
    requires e.Valid() && 0 <= p < MAX_PATTERNS
    ensures |e.patterns| == MAX_PATTERNS && e.patterns[p].Valid() && e.undo.Valid()
    ensures Desk(e).sheets[p].grid == e.patterns[p].Grid()
  {
    hide Pattern.Valid, Pattern.Grid;
    assert e.patterns[p] == e.pattern || e.patterns[p] in e.Others();
  }

  lemma DeskHasAllPatterns(e: Editor)
    requires |e.patterns| == MAX_PATTERNS && e.undo.Valid()
    ensures |Desk(e).sheets| == MAX_PATTERNS
  {
  }

  lemma LegalDeskMeansLegalPatterns(w: Work, p: int)
    requires LegalWork(w) && 0 <= p < MAX_PATTERNS
    ensures AllLegal(w.sheets[p].grid)
  {
    hide Legal;
    var g := w.sheets[p].grid;
    assert LegalSheet(w.sheets[p]);
    forall c, r | 0 <= c < |g| && 0 <= r < |g[c]|
      ensures Legal(g[c][r])
    {
      assert LegalRows(g[c]);
    }
  }

  /** A new song, and any commands. */
  method NewSession(commands: seq<Command>) returns (e: Editor, ghost start: Work)
    requires forall i | 0 <= i < |commands| :: Possible(commands[i])
    ensures fresh(e) && e.Valid() && |e.patterns| == MAX_PATTERNS && e.undo.Valid()
    ensures NewWork(start) && Leads(start, commands, Desk(e))
    ensures forall p | 0 <= p < |e.patterns| ::
      fresh(e.patterns[p]) && e.patterns[p].Valid() && AllLegal(e.patterns[p].Grid())
  {
    hide Pattern.Valid, SheetFrom, SheetOf, Pattern.State, UndoList.Valid, UndoList.Entries, SheetsOf, Pattern.Grid,
      Pattern.Cells, Editor.Valid, Desk, Possible, AllLegal, LegalWork, Leads, NewWork;
    e := NewSong();
    CurrentSheet(e);
    start := Desk(e);
    Run(e, commands);
    CurrentSheet(e);
    NewWorkIsLegal(start);
    RunIsLegal(start, commands, Desk(e));
    forall p | 0 <= p < |e.patterns|
      ensures e.patterns[p].Valid() && AllLegal(e.patterns[p].Grid())
    {
      PatternOnDesk(e, p);
      LegalDeskMeansLegalPatterns(Desk(e), p);
    }
  }

  /** A pattern of a song made with any commands is saved to a .ct file and loaded again. */
  method EditSaveAndLoad(commands: seq<Command>, p: int, loaded: Pattern)
    returns (edited: Pattern, ghost start: Work, ghost end: Work)
    requires (forall i | 0 <= i < |commands| :: Possible(commands[i])) && 0 <= p < MAX_PATTERNS
    requires loaded.Valid() && forall k :: loaded.Cells()[k] == EMPTY
    modifies loaded
    ensures fresh(edited) && edited.Valid() && loaded.Valid()
    ensures NewWork(start) && Leads(start, commands, end) && |end.sheets| == MAX_PATTERNS
    ensures loaded.Grid() == edited.Grid() == end.sheets[p].grid && loaded.length == edited.length
  {
    hide Pattern.Valid, SheetFrom, SheetOf, Pattern.State, UndoList.Valid, UndoList.Entries, SheetsOf, Pattern.Grid,
      Pattern.Cells, Editor.Valid, Possible, AllLegal, Leads, NewWork, Desk;
    var e: Editor;
    e, start := NewSession(commands);
    edited, end := e.patterns[p], Desk(e);
    PatternOnDesk(e, p);
    DeskHasAllPatterns(e);
    CopyThroughCt(edited, loaded);
  }

  ghost predicate NewDesk(e: Editor)
    requires |e.patterns| == MAX_PATTERNS && e.undo.Valid()
    reads e, e.patterns, e.clipboard, e.undo, e.undo.buffer, e.undo.owned
  {
    NewWork(Desk(e))
  }
}
