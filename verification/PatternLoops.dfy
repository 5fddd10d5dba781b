/** Pattern loops: exactly when a row that uses them leaves the position safe, and a run that leaves its pattern. */
module PatternLoops {
  import opened BitMath
  import opened Notes
  import opened PatternStore
  import opened Orders
  import opened PlayPosition
  import opened SongLength

  /** All tracks but one have commands that leave the position alone. */
  predicate StillBut(c: Control, i: nat) {
    |c.tracks| == PATTERN_WIDTH && forall k | 0 <= k < PATTERN_WIDTH && k != i :: StillTrack(c.tracks[k])
  }

  lemma OneStill(song: Score, c: Control, j: nat)
    requires ValidScore(song) && |c.tracks| == PATTERN_WIDTH && j < PATTERN_WIDTH && OrdersKnown(c)
    requires StillTrack(c.tracks[j])
    ensures var d := RunEffect(song, c, j);
      d == c.(tracks := c.tracks[j := d.tracks[j]]) && StillTrack(d.tracks[j])
  {
  }

  lemma SpecialKeeps(song: Score, c: Control, i: nat)
    requires ValidScore(song) && i < PATTERN_WIDTH && StillBut(c, i) && OrdersKnown(c)
    requires c.tracks[i].command == S_COMMAND
    ensures var d := SpecialEffect(c, i);
      d == RunEffect(song, c, i) && StillBut(d, i) && OrdersKnown(d) && d.ticks == c.ticks && d.speed == c.speed
      && d.tracks[i].command == S_COMMAND
  {
  }

  lemma SpecialIgnoresOthers(c: Control, i: nat, j: nat, t: Track)
    requires i < |c.tracks| && j < |c.tracks| && i != j
    ensures var d, e := SpecialEffect(c.(tracks := c.tracks[j := t]), i), SpecialEffect(c, i);
      d.tracks[i] == e.tracks[i] && d == e.(tracks := d.tracks)
  {
  }

  /** The effects of a tick are the special effect of the one track, as far as anything but the others' memory goes. */
  lemma {:induction false} EffectsBut(song: Score, c: Control, i: nat, j: nat)
    requires ValidScore(song) && i < PATTERN_WIDTH && j <= PATTERN_WIDTH && StillBut(c, i) && OrdersKnown(c)
    requires c.tracks[i].command == S_COMMAND && c.ticks < c.speed
    ensures var d, e := Effects(song, c, j), if j <= i then SpecialEffect(c, i) else c;
      StillBut(d, i) && d.tracks[i] == e.tracks[i] && d == e.(tracks := d.tracks)
    decreases PATTERN_WIDTH - j
  {
    hide RunEffect, SpecialEffect, StillTrack;
    if j == PATTERN_WIDTH {
    } else {
      var next := RunEffect(song, c, j);
      if j == i {
        SpecialKeeps(song, c, i);
      } else {
        OneStill(song, c, j);
        SpecialIgnoresOthers(c, i, j, next.tracks[j]);
      }
      EffectsBut(song, next, i, j + 1);
    }
  }

  /** A row with one special effect; the other notes leave the position alone. */
  predicate OneSpecial(g: Grid, row: int, i: nat, parameter: u8)
    requires |g| == PATTERN_WIDTH && 0 <= row && forall k | 0 <= k < PATTERN_WIDTH :: row < |g[k]|
  {
    && i < PATTERN_WIDTH && g[i][row].command == S_COMMAND && g[i][row].parameter == parameter
    && forall k | 0 <= k < PATTERN_WIDTH && k != i :: Still(g[k][row].command as int, g[k][row].parameter as int)
  }

  lemma StartsSpecial(song: Score, c: Control, i: nat, parameter: u8)
    requires ValidScore(song) && RowExists(song, c.position.pattern, c.position.row) && OrdersKnown(c)
    requires |c.tracks| == PATTERN_WIDTH
    requires forall k | 0 <= k < PATTERN_WIDTH && k != i :: c.tracks[k].sEffect != PATTERN_LOOP
    requires |song.patterns[c.position.pattern]| == PATTERN_WIDTH
    requires forall k | 0 <= k < PATTERN_WIDTH :: c.position.row < |song.patterns[c.position.pattern][k]|
    requires OneSpecial(song.patterns[c.position.pattern], c.position.row, i, parameter)
    ensures var d := StartRow(song, c);
      StillBut(d, i) && d.tracks[i] == c.tracks[i].(command := S_COMMAND, parameter := parameter)
  {
    var g: Grid := song.patterns[c.position.pattern];
    var d := StartRow(song, c);
    forall k | 0 <= k < PATTERN_WIDTH && k != i
      ensures StillTrack(d.tracks[k])
    {
      assert Still(g[k][c.position.row].command as int, g[k][c.position.row].parameter as int);
    }
  }

  /** Until the next row is due, the special effect only remembers its parameter. */
  lemma {:induction false} WaitsBut(song: Score, c: Control, i: nat, n: nat)
    requires ValidScore(song) && i < PATTERN_WIDTH && StillBut(c, i) && OrdersKnown(c)
    requires c.tracks[i].command == S_COMMAND && 1 <= c.ticks && c.ticks + n <= c.speed
    ensures var d := Ticks(song, c, n);
      && StillBut(d, i) && d == c.(ticks := c.ticks + n, tracks := d.tracks)
      && d.tracks[i] == c.tracks[i].(sEffect := d.tracks[i].sEffect, sData := d.tracks[i].sData)
  {
    hide StillTrack, Effects;
    if n == 0 {
    } else {
      WaitsBut(song, c, i, n - 1);
      var d := Ticks(song, c, n - 1);
      EffectsBut(song, d, i, 0);
      LaterTickRemembers(d, i);
    }
  }

  lemma LaterTickRemembers(c: Control, i: nat)
    requires i < |c.tracks| && c.ticks > 0
    ensures var d := SpecialEffect(c, i);
      && d == c.(tracks := d.tracks)
      && d.tracks[i] == c.tracks[i].(sEffect := d.tracks[i].sEffect, sData := d.tracks[i].sData)
  {
  }

  /** Marks the loop: the position has left the pattern by then, so the mark is one row before its first. */
  lemma MarksBeforeFirstRow(song: Score, c: Control, i: nat)
    requires Playing(song) && AtRow(song, c) && c.position.row + 1 == Rows(song, c.position.pattern)
    requires i < PATTERN_WIDTH && LoopAt(song, c.position.pattern, c.position.row, i, 0xB0)
    ensures var d := Ticks(song, c, 1);
      && StillBut(d, i) && OrdersKnown(d) && d.ticks == 1 && d.speed == c.speed && d.mode == PlaySong
      && d.position == RowAfter(song, PlaySong, c.position)
      && d.tracks[i].command == S_COMMAND && d.tracks[i].loopPosition == -1
      && d.tracks[i].loopCount == c.tracks[i].loopCount
  {
    hide StillTrack, Effects, OneSpecial, NextOrder;
    PatternShape(song, c.position.pattern);
    StartsSpecial(song, c, i, 0xB0);
    var d := StartRow(song, c);
    assert Ticks(song, c, 0) == c;
    EffectsBut(song, d, i, 0);
  }

  /** The row exists and holds the loop command. */
  ghost predicate LoopAt(song: Score, pattern: int, row: int, i: nat, parameter: u8)
    requires ValidScore(song) && RowExists(song, pattern, row)
  {
    PatternShape(song, pattern);
    OneSpecial(song.patterns[pattern], row, i, parameter)
  }

  /** Runs the loop. */
  lemma JumpsBeforeFirstRow(song: Score, c: Control, i: nat, parameter: u8)
    requires ValidScore(song) && StillBut(c, i) && OrdersKnown(c) && i < PATTERN_WIDTH
    requires 1 <= c.speed == c.ticks && c.mode == PlaySong && c.position.pattern != EMPTY_FIELD as int
    requires RowExists(song, c.position.pattern, c.position.row)
    requires LoopAt(song, c.position.pattern, c.position.row, i, parameter)
    requires 0xB0 < parameter <= 0xBF && c.tracks[i].loopPosition == -1 && c.tracks[i].loopCount <= 0
    ensures Ticks(song, c, 1).position.row == -1
  {
    hide Effects, OneSpecial, NextOrder, RowAfter;
    PatternShape(song, c.position.pattern);
    StartsSpecial(song, c, i, parameter);
    var d := StartRow(song, c);
    assert Ticks(song, c, 0) == c;
    EffectsBut(song, d, i, 0);
    assert parameter / 16 == PATTERN_LOOP && parameter % 16 > 0;
  }

  /**
   * A loop marked on the last row of a pattern and run on the first row of the next: whatever the song is otherwise,
   * the position leaves the pattern one tick into that row.
   */
  lemma LoopLeavesThePattern(song: Score, c: Control, i: nat, parameter: u8)
    requires Playing(song) && AtRow(song, c) && c.position.row + 1 == Rows(song, c.position.pattern)
    requires LoopAt(song, c.position.pattern, c.position.row, i, 0xB0)
    requires var next := song.orders[NextOrder(song.orders, c.position.order)];
      0xB0 < parameter <= 0xBF && RowExists(song, next, 0) && LoopAt(song, next, 0, i, parameter)
    requires i < PATTERN_WIDTH && c.tracks[i].loopCount == 0
    ensures var d := Ticks(song, c, c.speed + 1);
      d.position.row == -1 && !RowExists(song, d.position.pattern, d.position.row)
  {
    hide Tick, LoopAt, StillTrack, NextOrder;
    MarksBeforeFirstRow(song, c, i);
    var marked := Ticks(song, c, 1);
    WaitsBut(song, marked, i, c.speed - 1);
    TicksAdd(song, c, 1, c.speed - 1);
    var due := Ticks(song, c, c.speed);
    JumpsBeforeFirstRow(song, due, i, parameter);
    TicksAdd(song, c, c.speed, 1);
  }

  /** The effect and its data that an S command runs, by its parameter or from memory. */
  function EffectOf(t: Track): u8 {
    if t.parameter == 0 then t.sEffect else t.parameter / 16
  }

  function DataOf(t: Track): u8 {
    if t.parameter == 0 then t.sData else t.parameter % 16
  }

  /** The track is about to jump back: it runs a loop that has not ended. */
  predicate Jumps(t: Track) {
    t.command == S_COMMAND && EffectOf(t) == PATTERN_LOOP && DataOf(t) != 0 && t.loopCount != 1
  }

  /** The last track from j on that jumps back, or -1. */
  function LastJump(tracks: seq<Track>, j: nat): (k: int)
    requires j <= |tracks|
    ensures k == -1 || (j <= k < |tracks| && Jumps(tracks[k]))
    ensures forall i | j <= i < |tracks| && k < i :: !Jumps(tracks[i])
    decreases |tracks| - j
  {
    if j == |tracks| then -1
    else
      var k := LastJump(tracks, j + 1);
      if k != -1 then k else if Jumps(tracks[j]) then j else -1
  }

  lemma {:induction false} LastJumpOfTail(a: seq<Track>, b: seq<Track>, j: nat)
    requires |a| == |b| && j <= |a| && forall i | j <= i < |a| :: a[i] == b[i]
    ensures LastJump(a, j) == LastJump(b, j)
    decreases |a| - j
  {
    if j == |a| {
    } else {
      LastJumpOfTail(a, b, j + 1);
    }
  }

  /** What one effect on the first tick of a row does to the position. */
  lemma EffectMoves(song: Score, c: Control, j: nat)
    requires Playing(song) && |c.tracks| == PATTERN_WIDTH && OrdersKnown(c) && c.ticks == 0 && 1 <= c.speed
    requires j < PATTERN_WIDTH
    ensures var d := RunEffect(song, c, j);
      && |d.tracks| == PATTERN_WIDTH && OrdersKnown(d) && d.ticks == 0 && 1 <= d.speed
      && d.mode == c.mode && d.previous == c.previous && d.tracks == c.tracks[j := d.tracks[j]]
      && (SafePosition(song, c.mode, c.position) && !Jumps(c.tracks[j]) ==> SafePosition(song, c.mode, d.position))
      && (c.position.forbidJump && !Jumps(c.tracks[j]) ==> d.position == c.position)
      && (Jumps(c.tracks[j]) ==>
            d.position == c.previous.(row := c.tracks[j].loopPosition, forbidJump := true))
  {
  }

  /** The last track that jumps decides where the effects of a row lead. */
  lemma {:induction false} LastJumpDecides(song: Score, c: Control, j: nat)
    requires Playing(song) && |c.tracks| == PATTERN_WIDTH && OrdersKnown(c) && c.ticks == 0 && 1 <= c.speed
    requires j <= PATTERN_WIDTH
    ensures var d, k := Effects(song, c, j), LastJump(c.tracks, j);
      && d.mode == c.mode && 1 <= d.speed && d.ticks == 0
      && (k == -1 && SafePosition(song, c.mode, c.position) ==> SafePosition(song, c.mode, d.position))
      && (k == -1 && c.position.forbidJump ==> d.position == c.position)
      && (k != -1 ==> d.position == c.previous.(row := c.tracks[k].loopPosition, forbidJump := true))
    decreases PATTERN_WIDTH - j
  {
    hide RunEffect, SafePosition, Jumps;
    if j == PATTERN_WIDTH {
    } else {
      EffectMoves(song, c, j);
      var d := RunEffect(song, c, j);
      LastJumpDecides(song, d, j + 1);
      LastJumpOfTail(d.tracks, c.tracks, j + 1);
    }
  }

  /** The tracks when the effects of a row begin. */
  function Heard(song: Score, c: Control): (tracks: seq<Track>)
    requires ValidScore(song) && Safe(song, c)
    ensures |tracks| == PATTERN_WIDTH
  {
    StartRow(song, c).tracks
  }

  /**
   * Exactly when a row leads to a row that exists, with any commands on any tracks: no track jumps back, or the last
   * one that does goes to a row of the pattern.
   */
  lemma TickSafeIff(song: Score, c: Control)
    requires Playing(song) && Safe(song, c) && c.mode != PlayNothing && 1 <= c.speed <= c.ticks
    ensures var d, k := Tick(song, c), LastJump(Heard(song, c), 0);
      && (Safe(song, d) <==> RowExists(song, d.position.pattern, d.position.row))
      && (RowExists(song, d.position.pattern, d.position.row) <==>
            k == -1 || 0 <= c.tracks[k].loopPosition < Rows(song, c.position.pattern))
  {
    hide Effects, StartRow;
    RowKeepsSafe(song, c);
    var d := StartRow(song, c);
    LastJumpDecides(song, d, 0);
    HeardKeepsLoops(song, c);
  }

  lemma HeardKeepsLoops(song: Score, c: Control)
    requires ValidScore(song) && Safe(song, c)
    ensures forall i | 0 <= i < PATTERN_WIDTH :: Heard(song, c)[i].loopPosition == c.tracks[i].loopPosition
  {
  }
}
