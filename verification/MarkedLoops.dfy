/** Pattern loops that stay inside their patterns: songs whose loops are marked before they are run. */
module MarkedLoops {
  import opened Notes
  import opened PatternStore
  import opened Orders
  import opened PlayPosition

  predicate Marks(n: Note) {
    n.command == S_COMMAND && n.parameter == 0xB0
  }

  predicate Repeats(n: Note) {
    n.command == S_COMMAND && 0xB0 < n.parameter <= 0xBF
  }

  /** An S command that repeats the one before it on its track. */
  predicate Recalls(n: Note) {
    n.command == S_COMMAND && n.parameter == 0
  }

  /** A command that can move the position. */
  predicate Moves(n: Note) {
    n.command == B_COMMAND || n.command == C_COMMAND || Repeats(n)
  }

  ghost predicate HasLoops(song: Score, i: int) {
    exists p, r :: IsLoop(NoteAt(song, p, i, r))
  }

  /** A loop of the track is marked in the first rows of the pattern. */
  ghost predicate MarkedBefore(song: Score, p: int, i: int, rows: int) {
    exists r | 0 <= r < rows :: Marks(NoteAt(song, p, i, r))
  }

  ghost predicate NothingMarkedBefore(song: Score, rows: int) {
    forall p, i :: !MarkedBefore(song, p, i, rows)
  }

  /**
   * Every loop is marked before it is run, on the same track of the same pattern; no mark is on the last row, or to
   * the right of a command that moves the position; no break skips a mark; and a track with loops does not recall S
   * commands from memory.
   */
  ghost predicate WellMarked(song: Score)
    requires ValidScore(song)
  {
    && (forall p, i, r | Repeats(NoteAt(song, p, i, r)) :: MarkedBefore(song, p, i, r))
    && (forall p, i, r | 0 <= p < MAX_PATTERNS && Marks(NoteAt(song, p, i, r)) ::
          r + 1 < Rows(song, p) && forall j | 0 <= j < i :: !Moves(NoteAt(song, p, j, r)))
    && (forall p, i, r | Recalls(NoteAt(song, p, i, r)) :: !HasLoops(song, i))
    && (forall p, i, r | NoteAt(song, p, i, r).command == C_COMMAND ::
          NothingMarkedBefore(song, NoteAt(song, p, i, r).parameter as int))
  }

  /** What the track remembers and is about to do fits the song. */
  ghost predicate TrackFits(song: Score, i: int, t: Track) {
    && (t.sEffect == PATTERN_LOOP ==> HasLoops(song, i))
    && (t.command == S_COMMAND && t.parameter == 0 ==> !HasLoops(song, i))
    && (t.command == S_COMMAND && t.parameter / 16 == PATTERN_LOOP ==> HasLoops(song, i))
  }

  ghost predicate TracksFit(song: Score, c: Control) {
    |c.tracks| == PATTERN_WIDTH && forall i | 0 <= i < PATTERN_WIDTH :: TrackFits(song, i, c.tracks[i])
  }

  /**
   * The rows before top have been played since the pattern was entered: every loop marked there leads to one of them,
   * and so does the position, which can be on one of them again.
   */
  ghost predicate Visited(song: Score, c: Control, top: int)
    requires ValidScore(song)
  {
    && Safe(song, c) && 1 <= c.speed && 1 <= c.ticks && TracksFit(song, c)
    && c.position.row <= top <= Rows(song, c.position.pattern)
    && forall i | 0 <= i < PATTERN_WIDTH && MarkedBefore(song, c.position.pattern, i, top) ::
         0 <= c.tracks[i].loopPosition < top
  }

  /** The highest row played so far while row r is played. */
  function Top(top: int, r: int): int {
    if top <= r then r + 1 else top
  }

  /** The marks that count while row r of pattern p is played: those above, and those of the tracks already run. */
  ghost predicate Counts(song: Score, p: int, r: int, top: int, i: int, j: int) {
    MarkedBefore(song, p, i, top) || (i < j && Marks(NoteAt(song, p, i, r)))
  }

  ghost predicate LoopsCount(song: Score, c: Control, p: int, r: int, top: int, j: nat)
    requires |c.tracks| == PATTERN_WIDTH
  {
    forall i | 0 <= i < PATTERN_WIDTH && Counts(song, p, r, top, i, j) :: 0 <= c.tracks[i].loopPosition < Top(top, r)
  }

  ghost predicate NotesAhead(song: Score, c: Control, p: int, r: int, j: nat)
    requires |c.tracks| == PATTERN_WIDTH
  {
    forall i: nat | j <= i < PATTERN_WIDTH :: Hears(c.tracks[i], NoteAt(song, p, i, r))
  }

  predicate Hears(t: Track, n: Note) {
    t.command == n.command && t.parameter == n.parameter
  }

  /** The position is among the rows played, or where nothing is marked yet. */
  ghost predicate OnTheWay(song: Score, at: Position, p: int, rows: int) {
    (at.pattern == p && at.row <= rows) || NothingMarkedBefore(song, at.row)
  }

  ghost predicate NothingMoved(song: Score, p: int, r: int, j: nat) {
    forall i | 0 <= i < j :: !Moves(NoteAt(song, p, i, r))
  }

  /** Within row r of a pattern, when the effects of the tracks before j have run. */
  ghost predicate Running(song: Score, c: Control, j: nat, r: int, top: int)
    requires ValidScore(song)
  {
    var p := c.previous.pattern;
    && |c.tracks| == PATTERN_WIDTH && OrdersKnown(c) && c.ticks == 0 && 1 <= c.speed && TracksFit(song, c)
    && SafePosition(song, c.mode, c.previous) && 0 <= c.previous.row == r <= top <= Rows(song, p)
    && SafePosition(song, c.mode, c.position)
    && LoopsCount(song, c, p, r, top, j) && NotesAhead(song, c, p, r, j)
    && OnTheWay(song, c.position, p, Top(top, r))
    && (r + 1 < Rows(song, p) && NothingMoved(song, p, r, j) ==> c.position.pattern == p && c.position.row == r + 1)
  }

  /** What an effect on the first tick of a row does to its own track and to the position. */
  lemma EffectShape(song: Score, c: Control, j: nat)
    requires ValidScore(song) && |c.tracks| == PATTERN_WIDTH && OrdersKnown(c) && c.ticks == 0 && 1 <= c.speed
    requires j < PATTERN_WIDTH
    ensures var d, t := RunEffect(song, c, j), c.tracks[j];
      && |d.tracks| == PATTERN_WIDTH && OrdersKnown(d) && d.ticks == 0 && 1 <= d.speed && d.mode == c.mode
      && d.previous == c.previous && d.tracks == c.tracks[j := d.tracks[j]]
      && d.tracks[j].command == t.command && d.tracks[j].parameter == t.parameter
      && (t.command != S_COMMAND ==> d.tracks == c.tracks)
      && (t.command == S_COMMAND ==>
            d.tracks[j].sEffect == if t.parameter == 0 then t.sEffect else t.parameter / 16)
  {
  }

  /** The position stays unless the track has a command that moves it. */
  lemma StaysUnlessMoved(song: Score, c: Control, j: nat)
    requires ValidScore(song) && |c.tracks| == PATTERN_WIDTH && OrdersKnown(c) && c.ticks == 0 && j < PATTERN_WIDTH
    requires var t := c.tracks[j];
      && t.command != B_COMMAND && t.command != C_COMMAND
      && !(t.command == S_COMMAND && 0xB0 < t.parameter <= 0xBF)
      && !(t.command == S_COMMAND && t.parameter == 0 && t.sEffect == PATTERN_LOOP)
    ensures var d, t := RunEffect(song, c, j), c.tracks[j];
      && d.position == c.position
      && d.tracks[j].loopPosition ==
           if t.command == S_COMMAND && t.parameter == 0xB0 then c.position.row - 1 else t.loopPosition
  {
  }

  /** A loop that runs here was marked above, so its mark counts. */
  lemma JumpsBack(song: Score, c: Control, j: nat, r: int, top: int)
    requires ValidScore(song) && WellMarked(song) && Running(song, c, j, r, top) && j < PATTERN_WIDTH
    requires Repeats(NoteAt(song, c.previous.pattern, j, r))
    ensures 0 <= c.tracks[j].loopPosition < Top(top, r) <= Rows(song, c.previous.pattern)
  {
    var p := c.previous.pattern;
    assert MarkedBefore(song, p, j, r);
    var q :| 0 <= q < r && Marks(NoteAt(song, p, j, q));
    assert MarkedBefore(song, p, j, top);
    assert Counts(song, p, r, top, j, j);
  }

  /** A mark is set while the position is still on the row after it. */
  lemma MarksHere(song: Score, c: Control, j: nat, r: int, top: int)
    requires ValidScore(song) && WellMarked(song) && Running(song, c, j, r, top) && j < PATTERN_WIDTH
    requires Marks(NoteAt(song, c.previous.pattern, j, r))
    ensures c.position.row == r + 1
  {
  }

  lemma JumpMoves(song: Score, c: Control, j: nat)
    requires Playing(song) && |c.tracks| == PATTERN_WIDTH && OrdersKnown(c) && c.ticks == 0 && j < PATTERN_WIDTH
    requires c.tracks[j].command == B_COMMAND && SafePosition(song, c.mode, c.position)
    ensures var d := RunEffect(song, c, j);
      SafePosition(song, c.mode, d.position) && (d.position == c.position || d.position.row == 0)
  {
  }

  lemma BreakMoves(song: Score, c: Control, j: nat)
    requires Playing(song) && |c.tracks| == PATTERN_WIDTH && OrdersKnown(c) && c.ticks == 0 && j < PATTERN_WIDTH
    requires c.tracks[j].command == C_COMMAND && SafePosition(song, c.mode, c.position)
    ensures var d, t := RunEffect(song, c, j), c.tracks[j];
      && SafePosition(song, c.mode, d.position)
      && (d.position == c.position || d.position.row == 0 || d.position.row == t.parameter as int)
  {
  }

  lemma RepeatMoves(song: Score, c: Control, j: nat)
    requires ValidScore(song) && |c.tracks| == PATTERN_WIDTH && OrdersKnown(c) && c.ticks == 0 && j < PATTERN_WIDTH
    requires c.tracks[j].command == S_COMMAND && 0xB0 < c.tracks[j].parameter <= 0xBF
    ensures var d, t := RunEffect(song, c, j), c.tracks[j];
      && (d.position == c.position || d.position == c.previous.(row := t.loopPosition, forbidJump := true))
      && d.tracks[j].loopPosition == t.loopPosition
  {
  }

  lemma NothingBeforeTheFirst(song: Score)
    ensures NothingMarkedBefore(song, 0)
  {
  }

  lemma BreaksSkipNothing(song: Score, p: int, i: int, r: int)
    requires ValidScore(song) && WellMarked(song) && NoteAt(song, p, i, r).command == C_COMMAND
    ensures NothingMarkedBefore(song, NoteAt(song, p, i, r).parameter as int)
  {
  }

  /** The position after one more effect. */
  lemma PositionGoesOn(song: Score, c: Control, j: nat, r: int, top: int)
    requires Playing(song) && WellMarked(song) && Running(song, c, j, r, top) && j < PATTERN_WIDTH
    ensures var d, p := RunEffect(song, c, j), c.previous.pattern;
      && SafePosition(song, c.mode, d.position) && OnTheWay(song, d.position, p, Top(top, r))
      && (!Moves(NoteAt(song, p, j, r)) ==> d.position == c.position)
  {
    hide WellMarked, LoopsCount, NothingMoved, NothingMarkedBefore, RunEffect, HasLoops;
    var n, t := NoteAt(song, c.previous.pattern, j, r), c.tracks[j];
    assert Hears(t, n) && TrackFits(song, j, t);
    if n.command == B_COMMAND {
      NothingBeforeTheFirst(song);
      JumpMoves(song, c, j);
    } else if n.command == C_COMMAND {
      NothingBeforeTheFirst(song);
      BreaksSkipNothing(song, c.previous.pattern, j, r);
      BreakMoves(song, c, j);
    } else if Repeats(n) {
      JumpsBack(song, c, j, r, top);
      RepeatMoves(song, c, j);
    } else {
      StaysUnlessMoved(song, c, j);
    }
  }

  /** The tracks after one more effect: the one that ran now counts its mark. */
  lemma TracksGoOn(song: Score, c: Control, j: nat, r: int, top: int)
    requires Playing(song) && WellMarked(song) && Running(song, c, j, r, top) && j < PATTERN_WIDTH
    ensures var d, p := RunEffect(song, c, j), c.previous.pattern;
      && |d.tracks| == PATTERN_WIDTH && TracksFit(song, d)
      && LoopsCount(song, d, p, r, top, j + 1) && NotesAhead(song, d, p, r, j + 1)
  {
    hide WellMarked, RunEffect, HasLoops, OnTheWay, NothingMoved, SafePosition, MarkedBefore;
    var d, p, t := RunEffect(song, c, j), c.previous.pattern, c.tracks[j];
    EffectShape(song, c, j);
    assert Hears(t, NoteAt(song, p, j, r)) && TrackFits(song, j, t);
    if Repeats(NoteAt(song, p, j, r)) {
      RepeatMoves(song, c, j);
    } else if t.command != B_COMMAND && t.command != C_COMMAND {
      StaysUnlessMoved(song, c, j);
      if Marks(NoteAt(song, p, j, r)) {
        MarksHere(song, c, j, r, top);
      }
    }
    forall i | 0 <= i < PATTERN_WIDTH && Counts(song, p, r, top, i, j + 1)
      ensures 0 <= d.tracks[i].loopPosition < Top(top, r)
    {
      if i != j || !Marks(NoteAt(song, p, j, r)) {
        assert Counts(song, p, r, top, i, j);
      }
    }
  }

  lemma RunsOn(song: Score, c: Control, j: nat, r: int, top: int)
    requires Playing(song) && WellMarked(song) && Running(song, c, j, r, top) && j < PATTERN_WIDTH
    ensures Running(song, RunEffect(song, c, j), j + 1, r, top)
  {
    hide WellMarked, RunEffect, OnTheWay, SafePosition, TracksFit, LoopsCount, NotesAhead;
    EffectShape(song, c, j);
    PositionGoesOn(song, c, j, r, top);
    TracksGoOn(song, c, j, r, top);
    var p := c.previous.pattern;
    if NothingMoved(song, p, r, j + 1) {
      assert NothingMoved(song, p, r, j) && !Moves(NoteAt(song, p, j, r));
    }
  }

  lemma {:induction false} EffectsRunOn(song: Score, c: Control, j: nat, r: int, top: int)
    requires Playing(song) && WellMarked(song) && Running(song, c, j, r, top) && j <= PATTERN_WIDTH
    ensures |c.tracks| == PATTERN_WIDTH && OrdersKnown(c)
    ensures var d := Effects(song, c, j);
      Running(song, d, PATTERN_WIDTH, r, top) && d.mode == c.mode && d.previous == c.previous
    decreases PATTERN_WIDTH - j
  {
    hide RunEffect, Running, WellMarked;
    RunningIsKnown(song, c, j, r, top);
    if j == PATTERN_WIDTH {
    } else {
      RunsOn(song, c, j, r, top);
      EffectShape(song, c, j);
      EffectsRunOn(song, RunEffect(song, c, j), j + 1, r, top);
    }
  }

  lemma RunningIsKnown(song: Score, c: Control, j: nat, r: int, top: int)
    requires ValidScore(song) && Running(song, c, j, r, top)
    ensures |c.tracks| == PATTERN_WIDTH && OrdersKnown(c) && c.ticks == 0 && 1 <= c.speed
  {
  }

  /** The tracks hear the row. */
  lemma HearsRow(song: Score, c: Control)
    requires ValidScore(song) && Safe(song, c) && TracksFit(song, c)
    ensures var d, p, r := StartRow(song, c), c.position.pattern, c.position.row;
      && |d.tracks| == PATTERN_WIDTH && NotesAhead(song, d, p, r, 0)
      && forall i | 0 <= i < PATTERN_WIDTH ::
           d.tracks[i].loopPosition == c.tracks[i].loopPosition && d.tracks[i].sEffect == c.tracks[i].sEffect
  {
    PatternShape(song, c.position.pattern);
  }

  lemma FitsRow(song: Score, p: int, r: int, i: nat, t: Track, u: Track)
    requires ValidScore(song) && WellMarked(song) && TrackFits(song, i, t)
    requires u.sEffect == t.sEffect && Hears(u, NoteAt(song, p, i, r))
    ensures TrackFits(song, i, u)
  {
    if u.command == S_COMMAND && u.parameter == 0 {
      assert Recalls(NoteAt(song, p, i, r));
    }
    if u.command == S_COMMAND && u.parameter / 16 == PATTERN_LOOP {
      assert IsLoop(NoteAt(song, p, i, r));
    }
  }

  lemma RowStarts(song: Score, c: Control, top: int)
    requires Playing(song) && WellMarked(song) && Visited(song, c, top) && c.speed <= c.ticks && c.mode != PlayNothing
    ensures var d := StartRow(song, c); d.mode == c.mode && Running(song, d, 0, c.position.row, top)
  {
    hide WellMarked, HasLoops, MarkedBefore, StartRow, NothingMarkedBefore;
    var d, p, r := StartRow(song, c), c.position.pattern, c.position.row;
    RowKeepsSafe(song, c);
    HearsRow(song, c);
    forall i | 0 <= i < PATTERN_WIDTH
      ensures TrackFits(song, i, d.tracks[i])
    {
      assert Hears(d.tracks[i], NoteAt(song, p, i, r));
      FitsRow(song, p, r, i, c.tracks[i], d.tracks[i]);
    }
    assert LoopsCount(song, d, p, r, top, 0) by {
      forall i | 0 <= i < PATTERN_WIDTH && Counts(song, p, r, top, i, 0)
        ensures 0 <= d.tracks[i].loopPosition < Top(top, r)
      {
        assert MarkedBefore(song, p, i, top);
      }
    }
    NothingBeforeTheFirst(song);
    assert OnTheWay(song, d.position, p, Top(top, r));
  }

  lemma MarksUpToHere(song: Score, p: int, i: int, r: int, top: int)
    requires r <= top && MarkedBefore(song, p, i, Top(top, r)) && 0 <= i < PATTERN_WIDTH
    ensures Counts(song, p, r, top, i, PATTERN_WIDTH)
  {
    var q :| 0 <= q < Top(top, r) && Marks(NoteAt(song, p, i, q));
    if q < top {
      assert MarkedBefore(song, p, i, top);
    }
  }

  lemma RowEnds(song: Score, c: Control, r: int, top: int) returns (after: int)
    requires ValidScore(song) && Running(song, c, PATTERN_WIDTH, r, top)
    ensures Visited(song, c.(ticks := 1), after)
  {
    hide HasLoops, MarkedBefore;
    var p := c.previous.pattern;
    if c.position.pattern == p && c.position.row <= Top(top, r) {
      after := Top(top, r);
      forall i | 0 <= i < PATTERN_WIDTH && MarkedBefore(song, p, i, after)
        ensures 0 <= c.tracks[i].loopPosition < after
      {
        MarksUpToHere(song, p, i, r, top);
      }
    } else {
      after := c.position.row;
    }
  }

  /** On later ticks S commands only remember their parameters, and nothing else matters here. */
  lemma LaterEffect(song: Score, c: Control, j: nat)
    requires ValidScore(song) && TracksFit(song, c) && OrdersKnown(c) && 1 <= c.ticks && j < PATTERN_WIDTH
    ensures var d := RunEffect(song, c, j);
      && TracksFit(song, d) && d == c.(tracks := d.tracks)
      && forall i | 0 <= i < PATTERN_WIDTH :: d.tracks[i].loopPosition == c.tracks[i].loopPosition
  {
    hide HasLoops;
    var t := c.tracks[j];
    assert TrackFits(song, j, t);
  }

  lemma {:induction false} LaterEffects(song: Score, c: Control, j: nat)
    requires ValidScore(song) && TracksFit(song, c) && OrdersKnown(c) && 1 <= c.ticks && j <= PATTERN_WIDTH
    ensures var d := Effects(song, c, j);
      && TracksFit(song, d) && d == c.(tracks := d.tracks)
      && forall i | 0 <= i < PATTERN_WIDTH :: d.tracks[i].loopPosition == c.tracks[i].loopPosition
    decreases PATTERN_WIDTH - j
  {
    hide RunEffect, TrackFits;
    if j == PATTERN_WIDTH {
    } else {
      LaterEffect(song, c, j);
      LaterEffects(song, if c.ticks < c.speed then RunEffect(song, c, j) else c, j + 1);
    }
  }

  lemma TickVisits(song: Score, c: Control, top: int) returns (after: int)
    requires Playing(song) && WellMarked(song) && Visited(song, c, top)
    ensures Ready(song, c) && Visited(song, Tick(song, c), after)
  {
    hide WellMarked, Effects, StartRow, MarkedBefore;
    if c.speed <= c.ticks && c.mode != PlayNothing {
      RowStarts(song, c, top);
      EffectsRunOn(song, StartRow(song, c), 0, c.position.row, top);
      after := RowEnds(song, Effects(song, StartRow(song, c), 0), c.position.row, top);
      RunningIsKnown(song, Effects(song, StartRow(song, c), 0), PATTERN_WIDTH, c.position.row, top);
    } else {
      LaterEffects(song, c, 0);
      after := top;
    }
  }

  /**
   * Every tick of every run of a song with well-marked loops plays a row that exists, under any mix of A, B, C and S
   * commands, wherever the start.
   */
  lemma {:induction false} EveryTickVisits(song: Score, c: Control, top: int, n: nat) returns (after: int)
    requires Playing(song) && WellMarked(song) && Visited(song, c, top)
    ensures |c.tracks| == PATTERN_WIDTH && OrdersKnown(c)
    ensures Visited(song, Ticks(song, c, n), after) && Ready(song, Ticks(song, c, n))
  {
    hide WellMarked, Visited, Tick;
    VisitedIsSafe(song, c, top);
    if n == 0 {
      after := top;
    } else {
      after := EveryTickVisits(song, c, top, n - 1);
      after := TickVisits(song, Ticks(song, c, n - 1), after);
    }
    var next := TickVisits(song, Ticks(song, c, n), after);
  }

  lemma VisitedIsSafe(song: Score, c: Control, top: int)
    requires ValidScore(song) && Visited(song, c, top)
    ensures Safe(song, c) && |c.tracks| == PATTERN_WIDTH && OrdersKnown(c)
  {
  }

  /** From any start on a row that exists, a song with well-marked loops is played safely for ever. */
  lemma WellMarkedSongsAreSafe(song: Score, previous: Position, speed: int, pattern: int, order: int, row: int, n: nat)
    requires Playing(song) && WellMarked(song) && 1 <= speed && -1 <= order && -1 <= row && -1 <= pattern < MAX_PATTERNS
    requires -1 <= previous.order && -1 <= previous.forceNextOrder
    requires var c := Started(song, previous, speed, pattern, order, row);
      c.position.row < Rows(song, c.position.pattern)
    ensures var c := Started(song, previous, speed, pattern, order, row);
      OrdersKnown(c) && Safe(song, Ticks(song, c, n)) && Ready(song, Ticks(song, c, n))
  {
    hide WellMarked, Tick, HasLoops, NextOrder;
    var c := Started(song, previous, speed, pattern, order, row);
    StartIsSafe(song, previous, speed, pattern, order, row);
    NothingBeforeTheFirst(song);
    assert Visited(song, c, c.position.row);
    var after := EveryTickVisits(song, c, c.position.row, n);
    VisitedIsSafe(song, Ticks(song, c, n), after);
  }

  /** Songs without loops are well marked, so the theorem covers them as well. */
  lemma NoLoopsAreWellMarked(song: Score)
    requires ValidScore(song) && NoLoopsWritten(song)
    ensures WellMarked(song)
  {
    forall p, i, r
      ensures !IsLoop(NoteAt(song, p, i, r))
    {
    }
    assert forall p, i, r :: !Marks(NoteAt(song, p, i, r)) && !Repeats(NoteAt(song, p, i, r));
  }
}
