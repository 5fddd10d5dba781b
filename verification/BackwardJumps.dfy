/** Songs whose first moving command jumps back: exactly when their end is ever reported. */
module BackwardJumps {
  import opened Notes
  import opened PatternStore
  import opened Orders
  import opened PlayPosition
  import opened SongLength

  /** A note that leaves the position to go on row by row; it may change the speed. */
  predicate GoesOn(n: Note) {
    n.command != B_COMMAND && n.command != C_COMMAND && !IsLoop(n)
  }

  /** The first command that moves the position is on row r of order k: a jump, or several, to order k or before. */
  ghost predicate FirstJumpAt(song: Score, k: int, r: int)
    requires ValidScore(song)
  {
    && OnWalk(song.orders, k) && Playable(song.orders, k) && 0 <= r < Rows(song, song.orders[k])
    && (exists i | 0 <= i < PATTERN_WIDTH :: NoteAt(song, song.orders[k], i, r).command == B_COMMAND)
    && (forall i | 0 <= i < PATTERN_WIDTH :: JumpsOrGoesOn(song, k, NoteAt(song, song.orders[k], i, r)))
    && (forall o, i, q | 0 <= o <= k && Playable(song.orders, o) && (o < k || q < r) ::
          GoesOn(NoteAt(song, song.orders[o], i, q)))
  }

  /** Row r of order k is the last one of the song. */
  predicate LastOfSong(song: Score, k: int, r: int)
    requires ValidScore(song) && Playable(song.orders, k)
  {
    r + 1 == Rows(song, song.orders[k]) && NextOrder(song.orders, k) <= k
  }

  predicate JumpsOrGoesOn(song: Score, k: int, n: Note) {
    GoesOn(n) || (n.command == B_COMMAND && NextOrder(song.orders, n.parameter as int - 1) <= k)
  }

  /** The song plays, has not ended, and is not past row r of order k. */
  ghost predicate NotPast(song: Score, c: Control, k: int, r: int)
    requires ValidScore(song)
  {
    var o := Arrive(c.position).order;
    && Safe(song, c) && NoLoops(c) && c.mode == PlaySong && !c.reachedEnd && 1 <= c.speed && 1 <= c.ticks
    && 0 <= o <= k && (o < k || c.position.row <= r)
  }

  /** Row r of order k is due next. */
  predicate IsAt(c: Control, k: int, r: int) {
    Arrive(c.position).order == k && c.position.row == r
  }

  /** The tracks from j on have nothing but jumps to orders up to k, and commands that go on. */
  predicate Ahead(song: Score, c: Control, k: int, j: nat) {
    |c.tracks| == PATTERN_WIDTH && forall i | j <= i < PATTERN_WIDTH :: AheadTrack(song, k, c.tracks[i])
  }

  predicate AheadTrack(song: Score, k: int, t: Track) {
    && t.command != C_COMMAND && (t.command == B_COMMAND ==> NextOrder(song.orders, t.parameter as int - 1) <= k)
    && t.sEffect != PATTERN_LOOP && !(t.command == S_COMMAND && t.parameter / 16 == PATTERN_LOOP)
  }

  predicate SomeJump(c: Control, j: nat) {
    exists i | j <= i < |c.tracks| :: c.tracks[i].command == B_COMMAND
  }

  lemma EffectGoesOn(song: Score, c: Control, k: int, j: nat)
    requires ValidScore(song) && |c.tracks| == PATTERN_WIDTH && j < PATTERN_WIDTH && OrdersKnown(c)
    requires c.ticks == 0 && 1 <= c.speed && c.mode == PlaySong && !c.position.forbidJump
    requires AheadTrack(song, k, c.tracks[j])
    ensures var d := RunEffect(song, c, j);
      && OrdersKnown(d) && d.ticks == 0 && 1 <= d.speed && d.mode == PlaySong && !d.position.forbidJump
      && d.reachedEnd == c.reachedEnd && d.tracks == c.tracks[j := d.tracks[j]]
      && (if c.tracks[j].command == B_COMMAND
          then d.position.row == 0 && Arrive(d.position).order <= k
          else d.position == c.position)
  {
  }

  /** The effects of the row: the last jump decides, and without one the position stays. */
  lemma {:induction false} EffectsGoOn(song: Score, c: Control, k: int, j: nat)
    requires ValidScore(song) && Ahead(song, c, k, j) && j <= PATTERN_WIDTH && OrdersKnown(c)
    requires c.ticks == 0 && 1 <= c.speed && c.mode == PlaySong && !c.position.forbidJump
    ensures var d := Effects(song, c, j);
      && d.reachedEnd == c.reachedEnd && d.mode == PlaySong && 1 <= d.speed && d.ticks == 0
      && (if SomeJump(c, j) then d.position.row == 0 && Arrive(d.position).order <= k else d.position == c.position)
    decreases PATTERN_WIDTH - j
  {
    hide RunEffect, AheadTrack, Arrive;
    if j == PATTERN_WIDTH {
    } else {
      EffectGoesOn(song, c, k, j);
      var d := RunEffect(song, c, j);
      assert forall i | j < i < PATTERN_WIDTH :: d.tracks[i] == c.tracks[i];
      EffectsGoOn(song, d, k, j + 1);
      assert SomeJump(c, j) <==> c.tracks[j].command == B_COMMAND || SomeJump(d, j + 1);
    }
  }

  /** The notes of a row that is not past row r of order k. */
  lemma HearsNoteGoingOn(song: Score, c: Control, k: int, r: int, i: nat)
    requires Playing(song) && FirstJumpAt(song, k, r) && NotPast(song, c, k, r) && i < PATTERN_WIDTH
    ensures var o, n := Arrive(c.position).order, NoteAt(song, c.position.pattern, i, c.position.row);
      JumpsOrGoesOn(song, k, n) && (o < k || c.position.row < r ==> GoesOn(n))
  {
    PlayedOrder(song, c);
  }

  lemma HearsRow(song: Score, c: Control, i: nat)
    requires ValidScore(song) && Safe(song, c) && i < PATTERN_WIDTH
    ensures var n, t := NoteAt(song, c.position.pattern, i, c.position.row), StartRow(song, c).tracks[i];
      t == c.tracks[i].(command := n.command, parameter := n.parameter)
  {
    PatternShape(song, c.position.pattern);
  }

  /** What is ahead on the row that is due. */
  lemma RowIsAhead(song: Score, c: Control, k: int, r: int)
    requires Playing(song) && FirstJumpAt(song, k, r) && NotPast(song, c, k, r) && c.speed <= c.ticks
    ensures var d, o := StartRow(song, c), Arrive(c.position).order;
      && Ahead(song, d, k, 0) && NoLoops(d)
      && (SomeJump(d, 0) <==> o == k && c.position.row == r)
  {
    hide NextOrder, StartRow, FirstJumpAt;
    var d, p, row := StartRow(song, c), c.position.pattern, c.position.row;
    RowKeepsSafe(song, c);
    forall i | 0 <= i < PATTERN_WIDTH
      ensures AheadTrack(song, k, d.tracks[i])
      ensures d.tracks[i].command == NoteAt(song, p, i, row).command
      ensures d.tracks[i].command == B_COMMAND ==> Arrive(c.position).order == k && row == r
    {
      HearsRow(song, c, i);
      HearsNoteGoingOn(song, c, k, r, i);
    }
    if Arrive(c.position).order == k && row == r {
      PlayedOrder(song, c);
      var i := SomeJumpAt(song, k, r);
      assert d.tracks[i].command == B_COMMAND;
    }
  }

  lemma SomeJumpAt(song: Score, k: int, r: int) returns (i: int)
    requires ValidScore(song) && FirstJumpAt(song, k, r)
    ensures 0 <= i < PATTERN_WIDTH && NoteAt(song, song.orders[k], i, r).command == B_COMMAND
  {
    i :| 0 <= i < PATTERN_WIDTH && NoteAt(song, song.orders[k], i, r).command == B_COMMAND;
  }

  /** Moving on from a row before the jump does not end the song, and stays before the jump or comes to it. */
  lemma RowAfterIsNotPast(song: Score, c: Control, k: int, r: int)
    requires Playing(song) && FirstJumpAt(song, k, r) && NotPast(song, c, k, r) && c.speed <= c.ticks
    ensures var d := StartRow(song, c);
      if IsAt(c, k, r) then d.reachedEnd <==> LastOfSong(song, k, r)
      else
        var next := Arrive(d.position).order;
        !d.reachedEnd && 0 <= next <= k && (next < k || d.position.row <= r)
  {
    var o := Arrive(c.position).order;
    PlayedOrder(song, c);
    if o < k {
      NextApproaches(song.orders, o, k);
    }
  }

  /** A row that is due is not past the jump afterwards either, unless it holds the jump and is the last one. */
  lemma RowGoesOn(song: Score, c: Control, k: int, r: int)
    requires Playing(song) && FirstJumpAt(song, k, r) && NotPast(song, c, k, r) && c.speed <= c.ticks
    requires IsAt(c, k, r) ==> !LastOfSong(song, k, r)
    ensures NotPast(song, Tick(song, c), k, r)
    ensures !IsAt(c, k, r) ==> Tick(song, c).position == RowAfter(song, PlaySong, Arrive(c.position))
  {
    hide FirstJumpAt, Effects, StartRow, NextOrder, LastOfSong;
    var d := StartRow(song, c);
    RowKeepsSafe(song, c);
    RowIsAhead(song, c, k, r);
    RowAfterIsNotPast(song, c, k, r);
    EffectsSafe(song, d, 0);
    EffectsGoOn(song, d, k, 0);
    RowIsThere(song, c);
    var e := Effects(song, d, 0);
    ArrivesInTheList(song, e, k, r);
  }

  lemma RowIsThere(song: Score, c: Control)
    requires ValidScore(song) && Safe(song, c)
    ensures Ready(song, c) && c.position.pattern != EMPTY_FIELD as int
  {
  }

  lemma ArrivesInTheList(song: Score, c: Control, k: int, r: int)
    requires ValidScore(song) && Safe(song, c) && FirstJumpAt(song, k, r)
    ensures 0 <= Arrive(c.position).order && 0 <= r
  {
  }

  /** Between two rows only the counter goes on. */
  lemma TickBetweenRows(song: Score, c: Control, k: int, r: int)
    requires Playing(song) && NotPast(song, c, k, r) && c.ticks < c.speed
    ensures Ready(song, c) && NotPast(song, Tick(song, c), k, r)
    ensures var d := Tick(song, c); d.position == c.position && d.ticks == c.ticks + 1 && d.speed == c.speed
  {
    hide Effects, StartRow, SafePosition;
    RowIsThere(song, c);
    EffectsSafe(song, c, 0);
    LaterEffectsKeep(song, c, 0);
  }

  lemma {:induction false} StaysNotPast(song: Score, c: Control, k: int, r: int, n: nat)
    requires Playing(song) && FirstJumpAt(song, k, r) && !LastOfSong(song, k, r) && NotPast(song, c, k, r)
    ensures |c.tracks| == PATTERN_WIDTH && OrdersKnown(c) && NotPast(song, Ticks(song, c, n), k, r)
  {
    hide FirstJumpAt, Tick, LastOfSong;
    if n == 0 {
    } else {
      StaysNotPast(song, c, k, r, n - 1);
      var d := Ticks(song, c, n - 1);
      RowIsThere(song, d);
      if d.speed <= d.ticks {
        RowGoesOn(song, d, k, r);
      } else {
        TickBetweenRows(song, d, k, r);
      }
    }
  }

  lemma StartIsNotPast(song: Score, previous: Position, speed: int, k: int, r: int)
    requires Playing(song) && FirstJumpAt(song, k, r) && 1 <= speed
    requires -1 <= previous.order && -1 <= previous.forceNextOrder
    ensures var c := Started(song, previous, speed, -1, -1, -1); OrdersKnown(c) && NotPast(song, c, k, r)
  {
    hide FirstJumpAt;
    var c := Started(song, previous, speed, -1, -1, -1);
    FirstOrderIsFound(song);
    PatternShape(song, c.position.pattern);
    StartIsSafe(song, previous, speed, -1, -1, -1);
    ArrivesInTheList(song, c, k, r);
    JumpIsInTheList(song, k, r);
  }

  /** A song that jumps back before its last row, played from the start, never reports its end. */
  lemma NeverReportsEnd(song: Score, previous: Position, speed: int, k: int, r: int, n: nat)
    requires Playing(song) && FirstJumpAt(song, k, r) && !LastOfSong(song, k, r) && 1 <= speed
    requires -1 <= previous.order && -1 <= previous.forceNextOrder
    ensures var c := Started(song, previous, speed, -1, -1, -1);
      OrdersKnown(c) && !Ticks(song, c, n).reachedEnd
  {
    hide FirstJumpAt, LastOfSong, Tick;
    StartIsNotPast(song, previous, speed, k, r);
    StaysNotPast(song, Started(song, previous, speed, -1, -1, -1), k, r, n);
  }

  lemma JumpIsInTheList(song: Score, k: int, r: int)
    requires ValidScore(song) && FirstJumpAt(song, k, r)
    ensures 0 <= k && 0 <= r
  {
  }

  /** On the last row of the song the end is reported before any jump can take place. */
  lemma LastRowReportsEnd(song: Score, c: Control)
    requires Playing(song) && Safe(song, c) && c.mode == PlaySong && c.speed <= c.ticks
    requires var here := Arrive(c.position);
      LeavesPattern(song, c.mode, here) && NextOrder(song.orders, here.order) <= here.order
    ensures Ready(song, c) && Tick(song, c).reachedEnd
  {
    hide Effects;
    RowIsThere(song, c);
    RowKeepsSafe(song, c);
    EffectsKeepEnd(song, StartRow(song, c), 0);
  }

  /** Up to an order of the walk, the rows to come only become fewer. */
  lemma {:induction false} TotalRowsFall(song: Score, o: int, k: int)
    requires Playing(song) && 0 <= o <= k < MAX_ORDERS && OnWalk(song.orders, k)
    ensures TotalRows(song, k) <= TotalRows(song, o)
    decreases k - o
  {
    if o == k {
    } else {
      assert !Stops(song.orders, o);
      TotalRowsFall(song, o + 1, k);
    }
  }

  /** The rows to play until the jump. */
  ghost function RowsUntil(song: Score, c: Control, k: int, r: int): int
    requires Playing(song) && NotPast(song, c, k, r)
  {
    TotalRows(song, Arrive(c.position).order) - c.position.row - TotalRows(song, k) + r
  }

  lemma RowsUntilCount(song: Score, c: Control, k: int, r: int)
    requires Playing(song) && FirstJumpAt(song, k, r) && NotPast(song, c, k, r)
    ensures 0 <= RowsUntil(song, c, k, r)
  {
    var o := Arrive(c.position).order;
    PlayedOrder(song, c);
    if o < k {
      TotalRowsFall(song, o + 1, k);
    }
  }

  lemma RowsUntilFall(song: Score, c: Control, d: Control, k: int, r: int)
    requires Playing(song) && FirstJumpAt(song, k, r) && NotPast(song, c, k, r) && NotPast(song, d, k, r)
    requires !IsAt(c, k, r) && d.position == RowAfter(song, PlaySong, Arrive(c.position))
    ensures RowsUntil(song, d, k, r) == RowsUntil(song, c, k, r) - 1
  {
    var o := Arrive(c.position).order;
    PlayedOrder(song, c);
    SkippingAddsNoRows(song, o);
    if o < k {
      NextApproaches(song.orders, o, k);
    }
  }

  /** If the jump is on the last row of the song, that row is reached, and the end reported. */
  lemma {:induction false} ReachesEnd(song: Score, c: Control, k: int, r: int) returns (n: nat)
    requires Playing(song) && FirstJumpAt(song, k, r) && LastOfSong(song, k, r) && NotPast(song, c, k, r)
    ensures |c.tracks| == PATTERN_WIDTH && OrdersKnown(c) && Ticks(song, c, n).reachedEnd
    decreases RowsUntil(song, c, k, r), c.speed - c.ticks
  {
    hide FirstJumpAt, Tick, NextOrder, RowsUntil;
    RowIsThere(song, c);
    RowsUntilCount(song, c, k, r);
    assert Ticks(song, c, 0) == c;
    var d := Tick(song, c);
    assert Ticks(song, c, 1) == d;
    if c.ticks < c.speed {
      TickBetweenRows(song, c, k, r);
      SameRowsUntil(song, c, d, k, r);
      n := ReachesEnd(song, d, k, r);
      TicksAdd(song, c, 1, n);
      n := n + 1;
    } else if IsAt(c, k, r) {
      PlayedOrder(song, c);
      LastRowReportsEnd(song, c);
      n := 1;
    } else {
      RowGoesOn(song, c, k, r);
      RowsUntilFall(song, c, d, k, r);
      n := ReachesEnd(song, d, k, r);
      TicksAdd(song, c, 1, n);
      n := n + 1;
    }
  }

  lemma SameRowsUntil(song: Score, c: Control, d: Control, k: int, r: int)
    requires Playing(song) && NotPast(song, c, k, r) && NotPast(song, d, k, r) && d.position == c.position
    ensures RowsUntil(song, d, k, r) == RowsUntil(song, c, k, r)
  {
  }

  /**
   * A song whose first moving command is a jump back, played from the start, reports its end exactly if the jump is on
   * the last row of the song.
   */
  lemma EndReportedIff(song: Score, previous: Position, speed: int, k: int, r: int)
    requires Playing(song) && FirstJumpAt(song, k, r) && 1 <= speed
    requires -1 <= previous.order && -1 <= previous.forceNextOrder
    ensures var c := Started(song, previous, speed, -1, -1, -1);
      && OrdersKnown(c) && Playable(song.orders, k)
      && ((exists n: nat :: Ticks(song, c, n).reachedEnd) <==> LastOfSong(song, k, r))
  {
    hide Tick, LastOfSong, NextOrder;
    var c := Started(song, previous, speed, -1, -1, -1);
    StartIsNotPast(song, previous, speed, k, r);
    if LastOfSong(song, k, r) {
      var n := ReachesEnd(song, c, k, r);
      assert Ticks(song, c, n).reachedEnd;
    } else {
      forall n: nat
        ensures !Ticks(song, c, n).reachedEnd
      {
        NeverReportsEnd(song, previous, speed, k, r, n);
      }
    }
  }
}
