/** What a single A, B or C command on a row makes of the speed and of the row played next. */
module RowCommands {
  import opened BitMath
  import opened Notes
  import opened PatternStore
  import opened Orders
  import opened PlayPosition
  import opened SongLength
  import opened PatternLoops

  /** Where playing starts: at the row asked for, of the pattern, of the order, or of the first one that is played. */
  lemma StartsThere(song: Score, previous: Position, speed: int, pattern: int, order: int, row: int)
    requires ValidScore(song) && -1 <= order
    ensures
      var c := Started(song, previous, speed, pattern, order, row);
      && c.speed == c.ticks == speed && !c.reachedEnd && c.position.forceNextOrder == -1 && !c.position.forbidJump
      && c.position.row == (if row == -1 then 0 else row)
      && (pattern != -1 ==> c.mode == PlayPattern && c.position.pattern == pattern)
      && (pattern == -1 ==> c.mode == PlaySong && c.position.pattern == song.orders[c.position.order])
      && (pattern == -1 && Playable(song.orders, order) ==> c.position.order == order)
      && (pattern == -1 && order == -1 && Playable(song.orders, 0) ==> c.position.order == 0)
  {
  }

  /** Going to an order by hand: its first row, and nothing else. */
  lemma GoesThere(song: Score, c: Control, k: int)
    requires 0 <= k < MAX_ORDERS
    ensures var d := Goto(song, c, k);
      && d == c.(position := d.position) && d.position.row == 0 && d.position.order == k
      && d.position.pattern == song.orders[k] && d.position.forceNextOrder == c.position.forceNextOrder
  {
  }

  /** An order without a pattern is waited at: its ticks pass, and the row stays. */
  lemma EmptyPatternWaits(song: Score, c: Control)
    requires ValidScore(song) && |c.tracks| == PATTERN_WIDTH && OrdersKnown(c)
    requires c.speed <= c.ticks && c.mode != PlayNothing && c.position.pattern == 255
    ensures Ready(song, c)
    ensures
      var d := RowIfDue(song, c);
      && d == c.(ticks := 0, previous := d.previous, position := d.position)
      && d.previous == Arrive(c.position) && d.position == Arrive(c.position).(forbidJump := false)
      && d.position.row == c.position.row && d.position.pattern == 255
  {
  }

  /** A row with one command; the other notes leave the position and the speed alone. */
  ghost predicate CommandAt(song: Score, pattern: int, row: int, i: nat, command: u8, parameter: u8) {
    && i < PATTERN_WIDTH
    && NoteAt(song, pattern, i, row).command == command && NoteAt(song, pattern, i, row).parameter == parameter
    && forall k | 0 <= k < PATTERN_WIDTH && k != i ::
      Still(NoteAt(song, pattern, k, row).command as int, NoteAt(song, pattern, k, row).parameter as int)
  }

  /** Effects of one track among still ones: as if it were alone, but for what the tracks remember. */
  lemma {:induction false} EffectsAlone(song: Score, c: Control, i: nat, j: nat)
    requires ValidScore(song) && i < PATTERN_WIDTH && j <= PATTERN_WIDTH && StillBut(c, i) && OrdersKnown(c)
    requires c.tracks[i].command <= C_COMMAND && c.ticks == 0 < c.speed
    ensures var d, e := Effects(song, c, j), if j <= i then RunEffect(song, c, i) else c;
      StillBut(d, i) && d == e.(tracks := d.tracks)
    decreases PATTERN_WIDTH - j
  {
    hide StillTrack, NextOrder, Clip;
    if j == PATTERN_WIDTH {
    } else {
      var next := RunEffect(song, c, j);
      if j != i {
        OneStill(song, c, j);
      }
      EffectsAlone(song, next, i, j + 1);
    }
  }

  lemma RowIsHeard(song: Score, c: Control, i: nat, command: u8, parameter: u8)
    requires ValidScore(song) && RowExists(song, c.position.pattern, c.position.row) && OrdersKnown(c)
    requires |c.tracks| == PATTERN_WIDTH && CommandAt(song, c.position.pattern, c.position.row, i, command, parameter)
    requires forall k | 0 <= k < PATTERN_WIDTH :: c.tracks[k].sEffect != PATTERN_LOOP
    ensures var d := StartRow(song, c);
      && i < PATTERN_WIDTH && StillBut(d, i) && d.tracks[i].command == command && d.tracks[i].parameter == parameter
      && d.tracks[i].sEffect != PATTERN_LOOP
  {
    hide RowAfter;
    PatternShape(song, c.position.pattern);
    var d := StartRow(song, c);
    forall k | 0 <= k < PATTERN_WIDTH
      ensures d.tracks[k].sEffect == c.tracks[k].sEffect
      ensures d.tracks[k].command == NoteAt(song, c.position.pattern, k, c.position.row).command
      ensures d.tracks[k].parameter == NoteAt(song, c.position.pattern, k, c.position.row).parameter
    {
    }
  }

  /** A row is due, it exists, and no track repeats a pattern loop from memory. */
  ghost predicate RowDue(song: Score, c: Control) {
    && Playing(song) && Safe(song, c) && 1 <= c.speed <= c.ticks && c.mode != PlayNothing
    && c.position.pattern != EMPTY_FIELD as int
    && forall k | 0 <= k < |c.tracks| :: c.tracks[k].sEffect != PATTERN_LOOP
  }

  /** The tick of such a row. */
  lemma TickAlone(song: Score, c: Control, i: nat, command: u8, parameter: u8)
    requires RowDue(song, c) && command <= C_COMMAND
    requires CommandAt(song, c.position.pattern, c.position.row, i, command, parameter)
    ensures Ready(song, c) && |c.tracks| == PATTERN_WIDTH && OrdersKnown(c)
    ensures
      var row := StartRow(song, c);
      && i < |row.tracks| && row.tracks[i].command == command && row.tracks[i].parameter == parameter
      && var d, e := Tick(song, c), RunEffect(song, row, i);
         d == e.(tracks := d.tracks, ticks := e.ticks + 1)
  {
    hide Effects, RunEffect, CommandAt, StillBut, RowAfter;
    RowIsHeard(song, c, i, command, parameter);
    StillButWidth(song, c, i);
    EffectsAlone(song, StartRow(song, c), i, 0);
  }

  lemma StillButWidth(song: Score, c: Control, i: nat)
    requires RowDue(song, c)
    ensures RowIfDue(song, c) == StartRow(song, c)
  {
  }

  /**
   * C with parameter p: the next row is p in the pattern of the next order, or 0 if that has no row p. On the last row
   * of a pattern the order has already been left, so the one after it is skipped.
   */
  lemma BreakGoesTo(song: Score, c: Control, i: nat, p: u8)
    requires RowDue(song, c) && CommandAt(song, c.position.pattern, c.position.row, i, C_COMMAND, p)
    ensures Ready(song, c) && |c.tracks| == PATTERN_WIDTH && OrdersKnown(c)
    ensures
      var d, here := Tick(song, c), Arrive(c.position);
      var left := if here.row + 1 < Rows(song, here.pattern) then here.order else NextOrder(song.orders, here.order);
      if c.mode == PlaySong then
        var target := NextOrder(song.orders, left);
        && d.position.forceNextOrder == target && d.position.pattern == song.orders[target]
        && d.position.row == if p as int < Rows(song, song.orders[target]) then p as int else 0
      else
        && d.position.pattern == c.position.pattern
        && d.position.row == if p as int < Rows(song, c.position.pattern) then p as int else 0
  {
    hide Effects, CommandAt, NextOrder, HearAll;
    TickAlone(song, c, i, C_COMMAND, p);
    TargetIsPlayable(song, Arrive(c.position).order);
    TargetIsPlayable(song, NextOrder(song.orders, Arrive(c.position).order));
  }

  lemma TargetIsPlayable(song: Score, k: int)
    requires Playing(song) && -1 <= k
    ensures var next := NextOrder(song.orders, k);
      0 <= next < MAX_ORDERS && 0 <= song.orders[next] < MAX_PATTERNS && song.patterns[song.orders[next]] != []
  {
    PatternShape(song, song.orders[NextOrder(song.orders, k)]);
  }

  /** B with parameter p: row 0 of order p, or of the next one that can be played; a single pattern starts over. */
  lemma JumpGoesTo(song: Score, c: Control, i: nat, p: u8)
    requires RowDue(song, c) && CommandAt(song, c.position.pattern, c.position.row, i, B_COMMAND, p)
    ensures Ready(song, c) && |c.tracks| == PATTERN_WIDTH && OrdersKnown(c)
    ensures
      var d := Tick(song, c);
      && d.position.row == 0
      && if c.mode == PlaySong then
           var target := NextOrder(song.orders, p as int - 1);
           d.position.forceNextOrder == target && d.position.pattern == song.orders[target]
         else d.position.pattern == c.position.pattern
  {
    hide Effects, CommandAt, NextOrder, HearAll;
    TickAlone(song, c, i, B_COMMAND, p);
  }

  /** A with parameter p: the row takes p ticks, modulo 128; 0 changes nothing. The position moves as without it. */
  lemma SpeedBecomes(song: Score, c: Control, i: nat, p: u8)
    requires RowDue(song, c) && CommandAt(song, c.position.pattern, c.position.row, i, A_COMMAND, p)
    ensures Ready(song, c) && |c.tracks| == PATTERN_WIDTH && OrdersKnown(c)
    ensures
      var d, here := Tick(song, c), Arrive(c.position);
      && d.speed == (if p % 128 == 0 then c.speed else p as int % 128) && d.ticks == 1
      && d.position.row == if here.row + 1 < Rows(song, here.pattern) then here.row + 1 else 0
  {
    hide Effects, CommandAt, NextOrder, HearAll;
    TickAlone(song, c, i, A_COMMAND, p);
  }

  /** A row lasts as many ticks as the speed says, and leaves the position alone after the first one. */
  lemma {:induction false} RowLasts(song: Score, c: Control, n: nat)
    requires ValidScore(song) && |c.tracks| == PATTERN_WIDTH && OrdersKnown(c) && 1 <= c.ticks && c.ticks + n <= c.speed
    ensures var d := Ticks(song, c, n); d == c.(tracks := d.tracks, ticks := c.ticks + n)
  {
    hide Effects;
    if n == 0 {
    } else {
      RowLasts(song, c, n - 1);
      LaterEffectsKeep(song, Ticks(song, c, n - 1), 0);
    }
  }

  lemma BreakStaysSafe(song: Score, c: Control, i: nat, p: u8)
    requires RowDue(song, c) && CommandAt(song, c.position.pattern, c.position.row, i, C_COMMAND, p)
    ensures Ready(song, c) && |c.tracks| == PATTERN_WIDTH && OrdersKnown(c)
    ensures var d := Tick(song, c); Safe(song, d) && d.speed == c.speed && d.ticks == 1 && d.mode == c.mode
  {
    hide Effects, CommandAt, NextOrder, HearAll, StillTrack, RunEffect, RowAfter;
    TickAlone(song, c, i, C_COMMAND, p);
    RowIsHeard(song, c, i, C_COMMAND, p);
    RowKeepsSafe(song, c);
    OneCommandNoLoops(song, StartRow(song, c), i);
    EffectSafe(song, StartRow(song, c), i);
    BreakKeepsSpeed(song, StartRow(song, c), i);
  }

  lemma OneCommandNoLoops(song: Score, c: Control, i: nat)
    requires i < PATTERN_WIDTH && StillBut(c, i) && c.tracks[i].command <= C_COMMAND
    requires c.tracks[i].sEffect != PATTERN_LOOP
    ensures NoLoops(c)
  {
  }

  lemma BreakKeepsSpeed(song: Score, c: Control, i: nat)
    requires ValidScore(song) && i < |c.tracks| && -1 <= c.position.order && c.tracks[i].command == C_COMMAND
    ensures var d := RunEffect(song, c, i); d.speed == c.speed && d.ticks == c.ticks && d.mode == c.mode
  {
  }

  /** The row a C command asks for is the next one played, in the order it leads to. */
  lemma BreakIsPlayed(song: Score, c: Control, i: nat, p: u8)
    requires RowDue(song, c) && c.mode == PlaySong && c.ticks == c.speed
    requires CommandAt(song, c.position.pattern, c.position.row, i, C_COMMAND, p)
    ensures |c.tracks| == PATTERN_WIDTH && OrdersKnown(c)
    ensures
      var here, played := Arrive(c.position), Ticks(song, c, c.speed + 1).previous;
      var left := if here.row + 1 < Rows(song, here.pattern) then here.order else NextOrder(song.orders, here.order);
      var target := NextOrder(song.orders, left);
      && played.order == target && played.pattern == song.orders[target]
      && played.row == if p as int < Rows(song, song.orders[target]) then p as int else 0
  {
    hide Tick, CommandAt, NextOrder, StartRow;
    BreakGoesTo(song, c, i, p);
    BreakStaysSafe(song, c, i, p);
    var d := Tick(song, c);
    assert Ticks(song, c, 0) == c && Ticks(song, c, 1) == d;
    RowLasts(song, d, c.speed - 1);
    TicksSplit(song, c, 1, c.speed - 1);
    var e := Ticks(song, c, c.speed);
    assert Ready(song, e);
    RowIsRemembered(song, e);
  }

  lemma {:induction false} TicksSplit(song: Score, c: Control, m: nat, n: nat)
    requires ValidScore(song) && |c.tracks| == PATTERN_WIDTH && OrdersKnown(c)
    ensures Ticks(song, Ticks(song, c, m), n) == Ticks(song, c, m + n)
  {
    hide Tick, Ready;
    if n == 0 {
    } else {
      TicksSplit(song, c, m, n - 1);
    }
  }

  /** A tick that plays a row remembers where it was. */
  lemma RowIsRemembered(song: Score, c: Control)
    requires ValidScore(song) && |c.tracks| == PATTERN_WIDTH && OrdersKnown(c) && Ready(song, c)
    requires c.speed <= c.ticks && c.mode != PlayNothing && c.position.pattern != EMPTY_FIELD as int
    ensures Tick(song, c).previous == Arrive(c.position)
  {
    hide Effects, RowAfter, HearAll;
    EffectsKeepPrevious(song, StartRow(song, c), 0);
  }

  lemma EffectKeepsPrevious(song: Score, c: Control, i: nat)
    requires ValidScore(song) && i < |c.tracks| && OrdersKnown(c)
    ensures RunEffect(song, c, i).previous == c.previous && OrdersKnown(RunEffect(song, c, i))
  {
  }

  lemma {:induction false} EffectsKeepPrevious(song: Score, c: Control, i: nat)
    requires ValidScore(song) && |c.tracks| == PATTERN_WIDTH && i <= PATTERN_WIDTH && OrdersKnown(c)
    ensures Effects(song, c, i).previous == c.previous
    decreases PATTERN_WIDTH - i
  {
    hide RunEffect;
    if i == PATTERN_WIDTH {
    } else if c.ticks < c.speed {
      EffectKeepsPrevious(song, c, i);
      EffectsKeepPrevious(song, RunEffect(song, c, i), i + 1);
    } else {
      EffectsKeepPrevious(song, c, i + 1);
    }
  }

  /** SB0 marks its row, unless that is the last one of its pattern: then the mark is before the next one's first. */
  lemma MarkIsTheRow(song: Score, c: Control, i: nat)
    requires RowDue(song, c) && c.mode == PlaySong
    requires CommandAt(song, c.position.pattern, c.position.row, i, S_COMMAND, 0xB0)
    ensures Ready(song, c) && |c.tracks| == PATTERN_WIDTH && OrdersKnown(c) && i < PATTERN_WIDTH
    ensures
      var d, here := Tick(song, c), Arrive(c.position);
      && d.tracks[i].loopPosition == (if here.row + 1 < Rows(song, here.pattern) then here.row else -1)
      && d.position == RowAfter(song, PlaySong, here)
  {
    hide Effects, CommandAt, NextOrder, HearAll, StillTrack;
    RowIsHeard(song, c, i, S_COMMAND, 0xB0);
    EffectsBut(song, StartRow(song, c), i, 0);
  }

  /** One run over SBx: while its count lasts it goes back to the marked row. */
  lemma LoopGoesBack(song: Score, c: Control, i: nat, x: u8)
    requires RowDue(song, c) && c.mode == PlaySong && 1 <= x <= 15
    requires CommandAt(song, c.position.pattern, c.position.row, i, S_COMMAND, 0xB0 + x as int)
    ensures Ready(song, c) && |c.tracks| == PATTERN_WIDTH && OrdersKnown(c) && i < PATTERN_WIDTH
    ensures
      var d, here, t := Tick(song, c), Arrive(c.position), c.tracks[i];
      && d.tracks[i].loopCount == (if t.loopCount > 0 then t.loopCount - 1 else x as int)
      && d.position == if t.loopCount == 1 then RowAfter(song, PlaySong, here)
                       else here.(row := t.loopPosition, forbidJump := true)
  {
    hide Effects, CommandAt, NextOrder, StillTrack, RowAfter;
    RowIsHeard(song, c, i, S_COMMAND, 0xB0 + x as int);
    RowKeepsLoops(song, c, i);
    LoopDigits(x);
    EffectsBut(song, StartRow(song, c), i, 0);
  }

  lemma LoopDigits(x: u8)
    requires 1 <= x <= 15
    ensures (0xB0 + x) / 16 == 0xB && (0xB0 + x) % 16 == x
  {
  }

  lemma RowKeepsLoops(song: Score, c: Control, i: nat)
    requires ValidScore(song) && RowExists(song, c.position.pattern, c.position.row) && OrdersKnown(c)
    requires |c.tracks| == PATTERN_WIDTH && i < PATTERN_WIDTH
    ensures var d := StartRow(song, c);
      d.tracks[i].loopCount == c.tracks[i].loopCount && d.tracks[i].loopPosition == c.tracks[i].loopPosition
  {
    hide RowAfter;
    PatternShape(song, c.position.pattern);
  }

  /** The count of SBx after a number of runs over it, as LoopGoesBack says of each. */
  function CountAfter(x: nat, runs: nat): nat {
    if runs == 0 then 0
    else
      var count := CountAfter(x, runs - 1);
      if count > 0 then count - 1 else x
  }

  /** From a count of 0, SBx goes back x times, falls through the next time, and then starts over. */
  lemma {:induction false} LoopRepeats(x: nat, runs: nat)
    requires 1 <= x
    ensures runs <= x ==> CountAfter(x, runs) == if runs == 0 then 0 else x + 1 - runs
    ensures CountAfter(x, x + 1 + runs) == CountAfter(x, runs)
  {
    if runs == 0 {
      LoopCounts(x, x);
    } else {
      LoopRepeats(x, runs - 1);
    }
  }

  lemma {:induction false} LoopCounts(x: nat, runs: nat)
    requires 1 <= runs <= x
    ensures CountAfter(x, runs) == x + 1 - runs
  {
    if runs == 1 {
    } else {
      LoopCounts(x, runs - 1);
    }
  }
}
