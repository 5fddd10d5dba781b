/** How long a song without jumps lasts, and exactly when it can be played for ever. */
module SongLength {
  import opened Notes
  import opened PatternStore
  import PatternCodec
  import opened Orders
  import opened PlayPosition

  /** A command that can neither move the position nor change the speed. */
  predicate Still(command: int, parameter: int) {
    && command != B_COMMAND as int && command != C_COMMAND as int
    && (command == A_COMMAND as int ==> parameter % 128 == 0)
    && (command == S_COMMAND as int ==> parameter / 16 != PATTERN_LOOP as int)
  }

  ghost predicate StillSong(song: Score) {
    forall p, i, r | 0 <= p < |song.patterns| && 0 <= i < |song.patterns[p]| && 0 <= r < |song.patterns[p][i]| ::
      Still(song.patterns[p][i][r].command as int, song.patterns[p][i][r].parameter as int)
  }

  predicate StillTrack(t: Track) {
    t.sEffect != PATTERN_LOOP && Still(t.command as int, t.parameter as int)
  }

  predicate StillTracks(c: Control) {
    |c.tracks| == PATTERN_WIDTH && forall i | 0 <= i < PATTERN_WIDTH :: StillTrack(c.tracks[i])
  }

  /** The rows of the playable orders from k on, up to the first empty order. */
  function TotalRows(song: Score, k: int): (n: int)
    requires 0 <= k && ValidScore(song)
    ensures 0 <= n
    decreases MAX_ORDERS - k
  {
    if Stops(song.orders, k) then 0
    else
      (if Playable(song.orders, k) then Rows(song, song.orders[k]) else 0) + TotalRows(song, k + 1)
  }

  lemma {:induction false} SkippingAddsNoRows(song: Score, p: int)
    requires ValidScore(song) && -1 <= p
    ensures var k := NextOrder(song.orders, p);
      TotalRows(song, p + 1) == if p < k && Playable(song.orders, k) then TotalRows(song, k) else 0
    decreases MAX_ORDERS - p
  {
    if !Stops(song.orders, p + 1) && !Playable(song.orders, p + 1) {
      SkippingAddsNoRows(song, p + 1);
    }
  }

  lemma EffectStill(song: Score, c: Control, i: nat)
    requires ValidScore(song) && StillTracks(c) && i < PATTERN_WIDTH && OrdersKnown(c)
    ensures var d := RunEffect(song, c, i); StillTracks(d) && d == c.(tracks := d.tracks)
  {
  }

  lemma StillWidth(c: Control)
    requires StillTracks(c)
    ensures |c.tracks| == PATTERN_WIDTH
  {
  }

  lemma {:induction false} EffectsStill(song: Score, c: Control, i: nat)
    requires ValidScore(song) && StillTracks(c) && i <= PATTERN_WIDTH && OrdersKnown(c)
    ensures var d := Effects(song, c, i); StillTracks(d) && d == c.(tracks := d.tracks)
    decreases PATTERN_WIDTH - i
  {
    hide RunEffect, StillTracks;
    StillWidth(c);
    if i == PATTERN_WIDTH {
    } else {
      if c.ticks < c.speed {
        EffectStill(song, c, i);
      }
      EffectsStill(song, if c.ticks < c.speed then RunEffect(song, c, i) else c, i + 1);
    }
  }

  lemma EffectKeepsEnd(song: Score, c: Control, i: nat)
    requires ValidScore(song) && |c.tracks| == PATTERN_WIDTH && i < PATTERN_WIDTH && OrdersKnown(c)
    ensures RunEffect(song, c, i).reachedEnd == c.reachedEnd && OrdersKnown(RunEffect(song, c, i))
  {
  }

  lemma {:induction false} EffectsKeepEnd(song: Score, c: Control, i: nat)
    requires ValidScore(song) && |c.tracks| == PATTERN_WIDTH && i <= PATTERN_WIDTH && OrdersKnown(c)
    ensures Effects(song, c, i).reachedEnd == c.reachedEnd
    decreases PATTERN_WIDTH - i
  {
    hide RunEffect;
    if i == PATTERN_WIDTH {
    } else {
      EffectKeepsEnd(song, c, i);
      EffectsKeepEnd(song, if c.ticks < c.speed then RunEffect(song, c, i) else c, i + 1);
    }
  }

  lemma {:induction false} EndStays(song: Score, c: Control, n: nat)
    requires ValidScore(song) && |c.tracks| == PATTERN_WIDTH && OrdersKnown(c) && c.reachedEnd
    ensures Ticks(song, c, n).reachedEnd
  {
    hide Effects, Ready, OrdersKnown;
    if n == 0 {
    } else {
      EndStays(song, c, n - 1);
      var d := Ticks(song, c, n - 1);
      if Ready(song, d) {
        EffectsKeepEnd(song, RowIfDue(song, d), 0);
      }
    }
  }

  lemma {:induction false} TicksAdd(song: Score, c: Control, m: nat, n: nat)
    requires ValidScore(song) && |c.tracks| == PATTERN_WIDTH && OrdersKnown(c)
    ensures Ticks(song, c, m + n) == Ticks(song, Ticks(song, c, m), n)
  {
    hide Tick, Ready, OrdersKnown;
    if n == 0 {
    } else {
      TicksAdd(song, c, m, n - 1);
    }
  }

  /** Until the next row is due, only the counter moves. */
  lemma {:induction false} Waits(song: Score, c: Control, n: nat)
    requires ValidScore(song) && StillTracks(c) && OrdersKnown(c) && c.ticks + n <= c.speed
    ensures var d := Ticks(song, c, n); StillTracks(d) && d == c.(ticks := c.ticks + n, tracks := d.tracks)
  {
    hide Effects, StillTrack;
    StillWidth(c);
    if n == 0 {
    } else {
      Waits(song, c, n - 1);
      EffectsStill(song, Ticks(song, c, n - 1), 0);
    }
  }

  /** A row of the song is due. */
  ghost predicate AtRow(song: Score, c: Control)
    requires ValidScore(song)
  {
    && c.mode == PlaySong && 1 <= c.speed == c.ticks && !c.reachedEnd
    && |c.tracks| == PATTERN_WIDTH && (forall i | 0 <= i < PATTERN_WIDTH :: c.tracks[i].sEffect != PATTERN_LOOP)
    && OrdersKnown(c) && c.position.forceNextOrder == -1
    && Playable(song.orders, c.position.order) && c.position.pattern == song.orders[c.position.order]
    && RowExists(song, c.position.pattern, c.position.row)
  }

  /** The rows from the one due on, up to the end of the song. */
  function RowsLeft(song: Score, c: Control): int
    requires ValidScore(song) && AtRow(song, c)
  {
    Rows(song, c.position.pattern) - c.position.row + TotalRows(song, c.position.order + 1)
  }

  predicate IsLastRow(song: Score, c: Control)
    requires ValidScore(song) && AtRow(song, c)
  {
    c.position.row + 1 == Rows(song, c.position.pattern) && NextOrder(song.orders, c.position.order) <= c.position.order
  }

  lemma LastRowIsLeft(song: Score, c: Control)
    requires ValidScore(song) && AtRow(song, c)
    ensures if IsLastRow(song, c) then RowsLeft(song, c) == 1 else 2 <= RowsLeft(song, c)
  {
    SkippingAddsNoRows(song, c.position.order);
    var next := NextOrder(song.orders, c.position.order);
    if next > c.position.order {
      PatternShape(song, song.orders[next]);
    }
  }

  lemma StartedRow(song: Score, c: Control)
    requires ValidScore(song) && StillSong(song) && AtRow(song, c)
    ensures var d := StartRow(song, c); StillTracks(d)
  {
    var p, row, d := c.position.pattern, c.position.row, StartRow(song, c);
    PatternShape(song, p);
    forall i | 0 <= i < PATTERN_WIDTH
      ensures StillTrack(d.tracks[i])
    {
      assert Still(song.patterns[p][i][row].command as int, song.patterns[p][i][row].parameter as int);
    }
  }

  lemma FirstTick(song: Score, c: Control)
    requires ValidScore(song) && StillSong(song) && AtRow(song, c)
    ensures var d, e := Ticks(song, c, 1), StartRow(song, c); StillTracks(d) && d == e.(tracks := d.tracks, ticks := 1)
  {
    hide StillSong, StillTrack, Effects;
    StartedRow(song, c);
    assert OrdersKnown(StartRow(song, c));
    EffectsStill(song, StartRow(song, c), 0);
    assert Ticks(song, c, 0) == c;
  }

  /** From one row of the song to the next, which follows after as many ticks as the speed says. */
  lemma NextRow(song: Score, c: Control, j: nat)
    requires ValidScore(song) && StillSong(song) && AtRow(song, c) && !IsLastRow(song, c) && 1 <= j <= c.speed
    ensures var d := Ticks(song, c, j); d.speed == c.speed && !d.reachedEnd && Ready(song, d)
    ensures j == c.speed ==>
      var d := Ticks(song, c, j); AtRow(song, d) && RowsLeft(song, d) == RowsLeft(song, c) - 1
  {
    hide Tick, StillSong, StartRow;
    FirstTick(song, c);
    NextRowIsThere(song, c);
    var d := Ticks(song, c, 1);
    Waits(song, d, j - 1);
    TicksAdd(song, c, 1, j - 1);
  }

  lemma NextRowIsThere(song: Score, c: Control)
    requires ValidScore(song) && AtRow(song, c) && !IsLastRow(song, c)
    ensures var d := StartRow(song, c);
      && d.mode == PlaySong && d.speed == c.speed && !d.reachedEnd && OrdersKnown(d) && d.position.forceNextOrder == -1
      && Playable(song.orders, d.position.order) && d.position.pattern == song.orders[d.position.order]
      && RowExists(song, d.position.pattern, d.position.row)
      && Rows(song, d.position.pattern) - d.position.row + TotalRows(song, d.position.order + 1)
         == RowsLeft(song, c) - 1
  {
    hide PatternCodec.Shape;
    SkippingAddsNoRows(song, c.position.order);
    PatternShape(song, c.position.pattern);
    var next := NextOrder(song.orders, c.position.order);
    if next > c.position.order {
      PatternShape(song, song.orders[next]);
    }
  }

  lemma LastTick(song: Score, c: Control)
    requires ValidScore(song) && StillSong(song) && AtRow(song, c) && IsLastRow(song, c)
    ensures WrappedAround(song, Ticks(song, c, 1), c.speed)
  {
    hide Tick, StillSong, StillTracks;
    FirstTick(song, c);
    StillWidth(Ticks(song, c, 1));
  }

  /** The song has ended and starts over at order 0, whatever that is. */
  ghost predicate WrappedAround(song: Score, c: Control, speed: int) {
    && c.reachedEnd && c.mode == PlaySong && c.ticks == 1 && c.speed == speed && StillTracks(c) && OrdersKnown(c)
    && c.position.order == 0 && c.position.row == 0 && c.position.pattern == song.orders[0]
  }

  /** The ticks until the last row that is left is due. */
  ghost function UntilLastRow(song: Score, c: Control): int
    requires ValidScore(song) && AtRow(song, c)
  {
    c.speed * (RowsLeft(song, c) - 1)
  }

  lemma UntilLastRowCounts(song: Score, c: Control)
    requires ValidScore(song) && AtRow(song, c)
    ensures IsLastRow(song, c) ==> UntilLastRow(song, c) == 0
    ensures !IsLastRow(song, c) ==> c.speed <= UntilLastRow(song, c)
  {
    LastRowIsLeft(song, c);
    Grows(c, RowsLeft(song, c) - 1);
  }

  lemma Grows(c: Control, n: int)
    ensures n == 0 ==> c.speed * n == 0
    ensures 1 <= n && 0 <= c.speed ==> c.speed <= c.speed * n
  {
  }

  lemma UntilLastRowFalls(song: Score, c: Control, d: Control)
    requires ValidScore(song) && AtRow(song, c) && AtRow(song, d)
    requires d.speed == c.speed && RowsLeft(song, d) == RowsLeft(song, c) - 1
    ensures UntilLastRow(song, d) == UntilLastRow(song, c) - c.speed
  {
    hide AtRow;
    Distributes(c.speed, RowsLeft(song, d) - 1);
  }

  lemma Distributes(speed: int, n: int)
    ensures speed * n == speed * (n + 1) - speed
  {
  }

  /** The end comes exactly when the last row that is left has started. */
  lemma {:induction false} EndsAt(song: Score, c: Control, t: nat)
    requires ValidScore(song) && StillSong(song) && AtRow(song, c)
    ensures var d, end := Ticks(song, c, t), UntilLastRow(song, c);
      && (t <= end ==> !d.reachedEnd && Ready(song, d))
      && (t == end + 1 ==> WrappedAround(song, d, c.speed))
    decreases t
  {
    hide Tick, StillSong, WrappedAround, UntilLastRow, RowsLeft, IsLastRow, NextOrder;
    UntilLastRowCounts(song, c);
    if IsLastRow(song, c) {
      if t == 1 {
        LastTick(song, c);
      }
    } else if t > 0 {
      NextRow(song, c, if t < c.speed then t else c.speed);
      if t > c.speed {
        var d := Ticks(song, c, c.speed);
        TicksAdd(song, c, c.speed, t - c.speed);
        UntilLastRowFalls(song, c, d);
        EndsAt(song, d, t - c.speed);
      }
    }
  }

  lemma StartsAtFirstRow(song: Score, previous: Position, speed: int)
    requires ValidScore(song) && 1 <= speed && -1 <= previous.order && -1 <= previous.forceNextOrder
    ensures var c := Started(song, previous, speed, -1, -1, -1);
      && OrdersKnown(c)
      && (TotalRows(song, 0) > 0 <==> Playable(song.orders, NextOrder(song.orders, -1)))
      && (TotalRows(song, 0) > 0 ==> AtRow(song, c) && RowsLeft(song, c) == TotalRows(song, 0))
  {
    hide PatternCodec.Shape;
    SkippingAddsNoRows(song, -1);
    var k := NextOrder(song.orders, -1);
    if Playable(song.orders, k) {
      PatternShape(song, song.orders[k]);
    }
  }

  /**
   * A song whose order 0 is a pattern, played from the start without jumps, loops and changes of speed, ends on tick
   * speed * (R - 1) + 1, where R is the number of rows its order list plays.
   */
  lemma SongLength(song: Score, previous: Position, speed: int, t: nat)
    requires Playing(song) && StillSong(song) && 1 <= speed && -1 <= previous.order && -1 <= previous.forceNextOrder
    ensures var c := Started(song, previous, speed, -1, -1, -1);
      OrdersKnown(c) && (Ticks(song, c, t).reachedEnd <==> t >= speed * (TotalRows(song, 0) - 1) + 1)
  {
    hide StillSong, AtRow, RowsLeft, NextOrder, Tick;
    var c := Started(song, previous, speed, -1, -1, -1);
    StartsAtFirstRow(song, previous, speed);
    FirstOrderIsFound(song);
    PatternShape(song, song.orders[0]);
    EndsAfter(song, c, t);
  }

  /** Played from any row of an order, the song ends when the last of the rows left has started. */
  lemma EndsAfter(song: Score, c: Control, t: nat)
    requires ValidScore(song) && StillSong(song) && AtRow(song, c)
    ensures Ticks(song, c, t).reachedEnd <==> t >= c.speed * (RowsLeft(song, c) - 1) + 1
  {
    hide StillSong, RowsLeft, NextOrder, Tick;
    var end := UntilLastRow(song, c);
    EndsAt(song, c, t);
    if t > end {
      UntilLastRowCounts(song, c);
      EndIsReached(song, c, end + 1, t - end - 1);
    }
  }

  lemma EndIsReached(song: Score, c: Control, end: nat, n: nat)
    requires ValidScore(song) && StillSong(song) && AtRow(song, c) && end == UntilLastRow(song, c) + 1
    ensures Ticks(song, c, end + n).reachedEnd
  {
    hide StillSong, RowsLeft, NextOrder, Tick, UntilLastRow;
    EndsAt(song, c, end);
    EndStays(song, Ticks(song, c, end), n);
    TicksAdd(song, c, end, n);
  }

  lemma FirstOrderIsFound(song: Score)
    requires Playing(song)
    ensures NextOrder(song.orders, -1) == 0
  {
  }

  /** With nothing to play the position stays where it is. */
  lemma {:induction false} StaysEmpty(song: Score, c: Control, t: nat)
    requires ValidScore(song) && StillTracks(c) && OrdersKnown(c) && c.position.pattern == EMPTY_FIELD as int
    ensures var d := Ticks(song, c, t);
      StillTracks(d) && Ready(song, d) && d.position.pattern == EMPTY_FIELD as int
  {
    hide Effects, StillTrack;
    StillWidth(c);
    if t == 0 {
    } else {
      StaysEmpty(song, c, t - 1);
      EffectsStill(song, RowIfDue(song, Ticks(song, c, t - 1)), 0);
    }
  }

  /**
   * Without jumps, loops and changes of speed, a song can be played for ever exactly when its order 0 is a pattern
   * or the end of the list: after the end the song starts over at order 0 without looking at what it holds.
   */
  lemma PlaysForEverIff(song: Score, previous: Position, speed: int)
    requires ValidScore(song) && StillSong(song) && 1 <= speed && -1 <= previous.order && -1 <= previous.forceNextOrder
    ensures var c := Started(song, previous, speed, -1, -1, -1);
      OrdersKnown(c)
      && ((forall t: nat :: Ready(song, Ticks(song, c, t))) <==>
          Playable(song.orders, 0) || song.orders[0] == ORDER_EMPTY)
  {
    hide StillSong, AtRow, RowsLeft, Tick;
    var c := Started(song, previous, speed, -1, -1, -1);
    StartsAtFirstRow(song, previous, speed);
    if Playable(song.orders, 0) {
      StillMeansNoLoops(song);
      StartIsSafe(song, previous, speed, -1, -1, -1);
      PatternShape(song, c.position.pattern);
      forall t: nat
        ensures Ready(song, Ticks(song, c, t))
      {
        EveryTickIsSafe(song, c, t);
      }
    } else if song.orders[0] == ORDER_EMPTY {
      forall t: nat
        ensures Ready(song, Ticks(song, c, t))
      {
        StaysEmpty(song, c, t);
      }
    } else {
      var t := StopsAtFirstOrder(song, previous, speed);
      assert !Ready(song, Ticks(song, c, t));
    }
  }

  lemma StopsAtFirstOrder(song: Score, previous: Position, speed: int) returns (t: nat)
    requires ValidScore(song) && StillSong(song) && 1 <= speed && -1 <= previous.order && -1 <= previous.forceNextOrder
    requires Skipped(song.orders, 0)
    ensures var c := Started(song, previous, speed, -1, -1, -1);
      OrdersKnown(c) && !Ready(song, Ticks(song, c, t))
  {
    hide StillSong, AtRow, RowsLeft, Tick, UntilLastRow, NextOrder, PatternCodec.Shape;
    var c := Started(song, previous, speed, -1, -1, -1);
    StartsAtFirstRow(song, previous, speed);
    if TotalRows(song, 0) > 0 {
      var end := UntilLastRow(song, c);
      UntilLastRowCounts(song, c);
      EndsAt(song, c, end + 1);
      Waits(song, Ticks(song, c, end + 1), speed - 1);
      TicksAdd(song, c, end + 1, speed - 1);
      t := end + speed;
    } else {
      t := 0;
    }
  }

  lemma StillMeansNoLoops(song: Score)
    requires StillSong(song)
    ensures NoLoopsWritten(song)
  {
    forall p, i, r | 0 <= p < |song.patterns| && 0 <= i < |song.patterns[p]| && 0 <= r < |song.patterns[p][i]|
      ensures !IsLoop(song.patterns[p][i][r])
    {
      assert Still(song.patterns[p][i][r].command as int, song.patterns[p][i][r].parameter as int);
    }
  }
}
