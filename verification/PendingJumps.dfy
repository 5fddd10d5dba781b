/** A B command leaves a jump pending; going to another order by hand before the next row then mixes the two up. */
module PendingJumps {
  import opened BitMath
  import opened Notes
  import opened PatternStore
  import opened PatternCodec
  import opened Orders
  import opened PlayPosition
  import opened SongLength
  import opened RowCommands

  /**
   * A song whose first row jumps to order q: after one tick the jump is pending, and going to an order is safe exactly
   * when that order has the pattern the jump leads to.
   */
  lemma JumpStaysPending(song: Score, previous: Position, speed: int, i: nat, q: u8, k: int)
    requires Playing(song) && 1 <= speed && -1 <= previous.order && -1 <= previous.forceNextOrder
    requires CommandAt(song, song.orders[NextOrder(song.orders, -1)], 0, i, B_COMMAND, q) && Playable(song.orders, k)
    ensures
      var d := Ticks(song, Started(song, previous, speed, -1, -1, -1), 1);
      var target := NextOrder(song.orders, q as int - 1);
      && Safe(song, d) && d.mode == PlaySong && d.position.forceNextOrder == target
      && (Safe(song, Goto(song, d, k)) <==> song.orders[target] == song.orders[k])
  {
    hide Effects, NextOrder, CommandAt, RowAfter, StillTrack;
    var c := Started(song, previous, speed, -1, -1, -1);
    StartIsSafe(song, previous, speed, -1, -1, -1);
    PatternShape(song, c.position.pattern);
    var d := StartRow(song, c);
    RowKeepsSafe(song, c);
    RowIsHeard(song, c, i, B_COMMAND, q);
    OneCommandNoLoops(song, d, i);
    EffectsAlone(song, d, i, 0);
    EffectsSafe(song, d, 0);
    assert Ticks(song, c, 0) == c;
    assert Ticks(song, c, 1) == Tick(song, c);
    GotoSafeIff(song, Ticks(song, c, 1), k);
  }

  /** Two orders with a pattern each; the first row of the first one jumps to the second. */
  function JumpSong(): Score {
    var jump := EMPTY.(command := B_COMMAND, parameter := 1);
    Score(seq(MAX_ORDERS, k => if k == 1 then 1 else 0),
          seq(MAX_PATTERNS, p => seq(PATTERN_WIDTH, c => [if p == 0 && c == 0 then jump else EMPTY])))
  }

  /** Restarting the first order by hand after that row: the row's pattern is not the one of the order it counts for. */
  lemma GotoMixesUpOrders(speed: int)
    requires 1 <= speed
    ensures
      var song := JumpSong();
      && Playing(song)
      && var d := Ticks(song, Started(song, Position(0, 0, 0, -1, false), speed, -1, -1, -1), 1);
         Safe(song, d) && !Safe(song, Goto(song, d, 0))
  {
    hide Ticks, Started, Safe, Still;
    var song := JumpSong();
    forall p | 0 <= p < MAX_PATTERNS
      ensures PatternOk(song.patterns[p])
    {
      assert Shape(song.patterns[p], 1);
    }
    assert NextOrder(song.orders, -1) == 0 && NextOrder(song.orders, 0) == 1;
    assert CommandAt(song, 0, 0, 0, B_COMMAND, 1) by {
      StillNote();
    }
    JumpStaysPending(song, Position(0, 0, 0, -1, false), speed, 0, 1, 0);
  }

  lemma StillNote()
    ensures Still(EMPTY.command as int, EMPTY.parameter as int)
  {
  }
}
