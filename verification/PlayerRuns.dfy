/** The player itself, run in place from play_start on. */
module PlayerRuns {
  import opened Division
  import opened PatternStore
  import opened Orders
  import opened PlayPosition
  import opened PlayerEngine
  import opened MarkedLoops
  import opened SongLength

  /** The player is where the run from its start is after n ticks, and the next tick can come. */
  ghost predicate HasPlayed(player: Player, score: Score, start: Control, n: nat)
    reads player, player.channel, player.song, player.song.order, player.song.patterns
  {
    && player.Valid() && player.song.Contents() == score && |start.tracks| == PATTERN_WIDTH && OrdersKnown(start)
    && player.State() == Ticks(score, start, n) && Ready(score, player.State())
  }

  /** Any number of ticks of a song with well-marked loops, from any start on a row that exists. */
  method PlayTicks(player: Player, pattern: int, order: int, row: int, speed: int, n: nat)
    requires player.Valid() && Playing(player.song.Contents()) && WellMarked(player.song.Contents())
    requires 1 <= speed && -1 <= order && -1 <= row && -1 <= pattern < MAX_PATTERNS
    requires
      var start := Started(player.song.Contents(), player.previous, speed, pattern, order, row);
      start.position.row < Rows(player.song.Contents(), start.position.pattern)
    modifies player, player.channel
    ensures old(player.Valid()) && player.Valid()
    ensures
      var start := Started(old(player.song.Contents()), old(player.previous), speed, pattern, order, row);
      HasPlayed(player, old(player.song.Contents()), start, n)
  {
    hide Song.Contents, Song.Valid, WellMarked, Playing, Tick, Started, Ready;
    ghost var score, previous := player.song.Contents(), player.previous;
    ghost var start := Started(score, previous, speed, pattern, order, row);
    player.PlayStart(pattern, order, row, speed);
    WellMarkedSongsAreSafe(score, previous, speed, pattern, order, row, 0);
    for i := 0 to n
      invariant HasPlayed(player, score, start, i)
    {
      player.HandleTick();
      WellMarkedSongsAreSafe(score, previous, speed, pattern, order, row, i + 1);
    }
  }

  lemma StillSongsAreWellMarked(song: Score)
    requires ValidScore(song) && StillSong(song)
    ensures WellMarked(song)
  {
    hide WellMarked;
    forall p, i, r | 0 <= p < |song.patterns| && 0 <= i < |song.patterns[p]| && 0 <= r < |song.patterns[p][i]|
      ensures !IsLoop(song.patterns[p][i][r])
    {
      assert Still(song.patterns[p][i][r].command as int, song.patterns[p][i][r].parameter as int);
    }
    NoLoopsAreWellMarked(song);
  }

  /** Plays a song without jumps, loops and changes of speed until it reports its end, and counts the ticks. */
  method PlayToEnd(player: Player, speed: int) returns (t: nat)
    requires player.Valid() && Playing(player.song.Contents()) && StillSong(player.song.Contents()) && 1 <= speed
    modifies player, player.channel
    ensures old(player.Valid()) && player.reachedEnd
    ensures HasPlayed(player, old(player.song.Contents()),
                      Started(old(player.song.Contents()), old(player.previous), speed, -1, -1, -1), t)
    ensures t == speed * (TotalRows(old(player.song.Contents()), 0) - 1) + 1
  {
    hide Song.Contents, Song.Valid, WellMarked, Tick, Started, Ready, StillSong, TotalRows;
    ghost var score, previous := player.song.Contents(), player.previous;
    ghost var start, length := Started(score, previous, speed, -1, -1, -1), speed * (TotalRows(score, 0) - 1) + 1;
    StillSongsAreWellMarked(score);
    StartHasARow(score, previous, speed);
    player.PlayStart(-1, -1, -1, speed);
    t := 0;
    WellMarkedSongsAreSafe(score, previous, speed, -1, -1, -1, t);
    SongIsNotEmpty(score, speed);
    while !player.reachedEnd
      invariant t <= length && HasPlayed(player, score, start, t)
      decreases length - t
    {
      SongLength.SongLength(score, previous, speed, t);
      player.HandleTick();
      t := t + 1;
      WellMarkedSongsAreSafe(score, previous, speed, -1, -1, -1, t);
    }
    SongLength.SongLength(score, previous, speed, t);
  }

  lemma SongIsNotEmpty(song: Score, speed: int)
    requires Playing(song) && 1 <= speed
    ensures 0 <= speed * (TotalRows(song, 0) - 1) + 1
  {
    assert 1 <= TotalRows(song, 0) by { PatternShape(song, song.orders[0]); }
    hide TotalRows, Playing;
    ProductGrows(speed, 0, TotalRows(song, 0) - 1);
  }

  lemma StartHasARow(song: Score, previous: Position, speed: int)
    requires Playing(song)
    ensures var start := Started(song, previous, speed, -1, -1, -1);
      start.position.row < Rows(song, start.position.pattern)
  {
    PatternShape(song, song.orders[NextOrder(song.orders, -1)]);
  }
}
