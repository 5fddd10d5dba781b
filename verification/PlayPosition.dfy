/** The playing position: what one tick does to it, where it can be, and when the song ends. */
module PlayPosition {
  import opened BitMath
  import opened Notes
  import opened PatternStore
  import opened PatternCodec
  import opened Orders

  datatype Mode = PlayNothing | PlayPattern | PlaySong

  datatype Position = Position(order: int, pattern: int, row: int, forceNextOrder: int, forbidJump: bool)

  /** The part of a channel that can move the position. */
  datatype Track = Track(command: u8, parameter: u8, sEffect: u8, sData: u8, loopPosition: int, loopCount: int)

  datatype Control = Control(
    mode: Mode, speed: int, ticks: int, reachedEnd: bool,
    position: Position, previous: Position, tracks: seq<Track>)

  /** The song as the player reads it: order list and patterns. */
  datatype Score = Score(orders: OrderList, patterns: seq<Grid>)

  ghost predicate PatternOk(g: Grid) {
    exists rows: nat | 1 <= rows <= MAX_PATTERN_LENGTH :: Shape(g, rows)
  }

  ghost predicate ValidScore(song: Score) {
    && |song.patterns| == MAX_PATTERNS
    && (forall p | 0 <= p < MAX_PATTERNS :: PatternOk(song.patterns[p]))
    && (forall k | 0 <= k < MAX_ORDERS :: 0 <= song.orders[k])
  }

  function Rows(song: Score, pattern: int): int
    requires 0 <= pattern < |song.patterns| && song.patterns[pattern] != []
  {
    |song.patterns[pattern][0]|
  }

  /** The note of a track in a pattern's row; there is none outside the patterns. */
  ghost function NoteAt(song: Score, p: int, i: int, r: int): Note {
    if 0 <= p < |song.patterns| && 0 <= i < |song.patterns[p]| && 0 <= r < |song.patterns[p][i]|
    then song.patterns[p][i][r]
    else EMPTY
  }

  ghost predicate RowExists(song: Score, pattern: int, row: int)
    requires ValidScore(song)
  {
    0 <= pattern < MAX_PATTERNS && 0 <= row < Rows(song, pattern)
  }

  /** Each track hears the note of its column. */
  function HearAll(tracks: seq<Track>, g: Grid, row: int): (heard: seq<Track>)
    requires |tracks| == |g| == PATTERN_WIDTH && 0 <= row && forall i | 0 <= i < PATTERN_WIDTH :: row < |g[i]|
    ensures |heard| == PATTERN_WIDTH
  {
    seq(PATTERN_WIDTH, i requires 0 <= i < PATTERN_WIDTH =>
      tracks[i].(command := g[i][row].command, parameter := g[i][row].parameter))
  }

  /** A pending jump decides the order the row belongs to. */
  function Arrive(p: Position): Position {
    p.(order := if p.forceNextOrder >= 0 then p.forceNextOrder else p.order, forceNextOrder := -1)
  }

  /** The end of a song's pattern leads to the next order. */
  predicate LeavesPattern(song: Score, mode: Mode, here: Position)
    requires ValidScore(song) && 0 <= here.pattern < MAX_PATTERNS
  {
    here.row + 1 >= Rows(song, here.pattern) && mode == PlaySong
  }

  function RowAfter(song: Score, mode: Mode, here: Position): (p: Position)
    requires ValidScore(song) && 0 <= here.pattern < MAX_PATTERNS && -1 <= here.order
    ensures -1 <= p.order && p.forceNextOrder == here.forceNextOrder
  {
    var p := here.(row := if here.row + 1 < Rows(song, here.pattern) then here.row + 1 else 0, forbidJump := false);
    if LeavesPattern(song, mode, here) then
      var next := NextOrder(song.orders, here.order);
      p.(order := next, pattern := song.orders[next])
    else p
  }

  /** handle_tick when a row is due: plays it, and moves on to the row after it. */
  function StartRow(song: Score, c: Control): Control
    requires ValidScore(song) && RowExists(song, c.position.pattern, c.position.row) && |c.tracks| == PATTERN_WIDTH
    requires -1 <= c.position.order && -1 <= c.position.forceNextOrder
  {
    var here := Arrive(c.position);
    c.(ticks := 0, previous := here, tracks := HearAll(c.tracks, song.patterns[here.pattern], here.row),
       position := RowAfter(song, c.mode, here),
       reachedEnd := c.reachedEnd
         || (LeavesPattern(song, c.mode, here) && NextOrder(song.orders, here.order) <= here.order))
  }

  const A_COMMAND: u8 := 0
  const B_COMMAND: u8 := 1
  const C_COMMAND: u8 := 2
  const S_COMMAND: u8 := 18
  const PATTERN_LOOP: u8 := 0xB

  function SetSpeed(c: Control, parameter: u8): Control {
    if c.ticks > 0 || parameter % 128 == 0 then c else c.(speed := parameter % 128, ticks := 0)
  }

  function JumpToOrder(song: Score, c: Control, parameter: u8): Control {
    if c.ticks != 0 || c.position.forbidJump then c
    else if c.mode == PlayPattern then c.(position := c.position.(row := 0))
    else
      var next := NextOrder(song.orders, parameter as int - 1);
      c.(position := c.position.(row := 0, pattern := song.orders[next], forceNextOrder := next))
  }

  /** A target row past the end of the target pattern becomes its first row. */
  function Clip(song: Score, pattern: int, row: int): int
    requires ValidScore(song)
  {
    if 0 <= pattern < MAX_PATTERNS && row < Rows(song, pattern) then row else 0
  }

  function BreakToRow(song: Score, c: Control, parameter: u8): Control
    requires ValidScore(song) && -1 <= c.position.order
  {
    if c.ticks != 0 || c.position.forbidJump then c
    else if c.mode == PlayPattern then c.(position := c.position.(row := Clip(song, c.position.pattern, parameter)))
    else
      var next := NextOrder(song.orders, c.position.order);
      c.(position := c.position.(
        row := Clip(song, song.orders[next], parameter), pattern := song.orders[next], forceNextOrder := next))
  }

  function SpecialEffect(c: Control, i: nat): Control
    requires i < |c.tracks|
  {
    var t := c.tracks[i];
    var u := if t.parameter == 0 then t else t.(sEffect := t.parameter / 16, sData := t.parameter % 16);
    var d := c.(tracks := c.tracks[i := u]);
    if u.sEffect != PATTERN_LOOP || c.ticks != 0 then d
    else if u.sData == 0 then c.(tracks := c.tracks[i := u.(loopPosition := c.position.row - 1)])
    else
      var v := u.(loopCount := if u.loopCount > 0 then u.loopCount - 1 else u.sData);
      var e := c.(tracks := c.tracks[i := v]);
      if v.loopCount > 0 then e.(position := c.previous.(row := v.loopPosition, forbidJump := true)) else e
  }

  function RunEffect(song: Score, c: Control, i: nat): (d: Control)
    requires ValidScore(song) && i < |c.tracks| && -1 <= c.position.order
    ensures |d.tracks| == |c.tracks|
  {
    var t := c.tracks[i];
    if t.command == A_COMMAND then SetSpeed(c, t.parameter)
    else if t.command == B_COMMAND then JumpToOrder(song, c, t.parameter)
    else if t.command == C_COMMAND then BreakToRow(song, c, t.parameter)
    else if t.command == S_COMMAND then SpecialEffect(c, i)
    else c
  }

  /** The effects of tracks i, i + 1, ... in turn; a changed speed counts at once. */
  function Effects(song: Score, c: Control, i: nat): (d: Control)
    requires ValidScore(song) && |c.tracks| == PATTERN_WIDTH && i <= PATTERN_WIDTH && OrdersKnown(c)
    ensures |d.tracks| == PATTERN_WIDTH && OrdersKnown(d)
    decreases PATTERN_WIDTH - i
  {
    if i == PATTERN_WIDTH then c
    else Effects(song, if c.ticks < c.speed then RunEffect(song, c, i) else c, i + 1)
  }

  /** The order fields never run off the front of the list. */
  predicate OrdersKnown(c: Control) {
    && -1 <= c.position.order && -1 <= c.position.forceNextOrder
    && -1 <= c.previous.order && -1 <= c.previous.forceNextOrder
  }

  function SkipEmptyPattern(c: Control): Control {
    var here := Arrive(c.position);
    c.(ticks := 0, previous := here, position := here.(forbidJump := false))
  }

  /** No row is due, there is nothing to play, or the row exists. */
  ghost predicate Ready(song: Score, c: Control)
    requires ValidScore(song)
  {
    c.speed <= c.ticks && c.mode != PlayNothing && c.position.pattern != EMPTY_FIELD ==>
      RowExists(song, c.position.pattern, c.position.row)
  }

  function RowIfDue(song: Score, c: Control): (d: Control)
    requires ValidScore(song) && |c.tracks| == PATTERN_WIDTH && OrdersKnown(c)
    requires Ready(song, c)
    ensures |d.tracks| == PATTERN_WIDTH && OrdersKnown(d)
  {
    if c.ticks < c.speed || c.mode == PlayNothing then c
    else if c.position.pattern == EMPTY_FIELD then SkipEmptyPattern(c)
    else StartRow(song, c)
  }

  function Tick(song: Score, c: Control): (d: Control)
    requires ValidScore(song) && |c.tracks| == PATTERN_WIDTH && OrdersKnown(c)
    requires Ready(song, c)
    ensures |d.tracks| == PATTERN_WIDTH && OrdersKnown(d)
  {
    var e := Effects(song, RowIfDue(song, c), 0);
    e.(ticks := e.ticks + 1)
  }

  /** A row that exists, in the pattern the order list names. */
  ghost predicate SafePosition(song: Score, mode: Mode, p: Position)
    requires ValidScore(song)
  {
    && 0 <= p.order < MAX_ORDERS && -1 <= p.forceNextOrder < MAX_ORDERS
    && RowExists(song, p.pattern, p.row)
    && (mode == PlaySong ==> p.pattern == song.orders[if p.forceNextOrder >= 0 then p.forceNextOrder else p.order])
  }

  /** Where the player may be. */
  ghost predicate Safe(song: Score, c: Control)
    requires ValidScore(song)
  {
    && |c.tracks| == PATTERN_WIDTH && 0 <= c.speed && 0 <= c.ticks
    && SafePosition(song, c.mode, c.position) && OrdersKnown(c)
  }

  /** No track is about to run a pattern loop, by its parameter or from memory. */
  predicate NoLoops(c: Control) {
    forall i | 0 <= i < |c.tracks| ::
      && c.tracks[i].sEffect != PATTERN_LOOP
      && !(c.tracks[i].command == S_COMMAND && c.tracks[i].parameter / 16 == PATTERN_LOOP)
  }

  predicate IsLoop(n: Note) {
    n.command == S_COMMAND && n.parameter / 16 == PATTERN_LOOP
  }

  predicate NoLoopsWritten(song: Score) {
    forall p, i, r | 0 <= p < |song.patterns| && 0 <= i < |song.patterns[p]| && 0 <= r < |song.patterns[p][i]| ::
      !IsLoop(song.patterns[p][i][r])
  }

  /** A song that can be played: it starts with a pattern. */
  ghost predicate Playing(song: Score) {
    ValidScore(song) && Playable(song.orders, 0)
  }

  lemma PatternShape(song: Score, p: int)
    requires ValidScore(song) && 0 <= p < MAX_PATTERNS
    ensures song.patterns[p] != [] && 1 <= Rows(song, p) <= MAX_PATTERN_LENGTH && Shape(song.patterns[p], Rows(song, p))
  {
    assert PatternOk(song.patterns[p]);
  }

  /** Any row that is due leads on to a row that exists, whatever its notes will do. */
  lemma RowKeepsSafe(song: Score, c: Control)
    requires Playing(song) && Safe(song, c) && c.speed <= c.ticks && c.mode != PlayNothing
    ensures var d := StartRow(song, c);
      && Safe(song, d) && SafePosition(song, c.mode, d.previous)
      && d.previous == Arrive(c.position) && d.position == RowAfter(song, c.mode, Arrive(c.position))
      && d.ticks == 0 && d.speed == c.speed && d.mode == c.mode && !d.position.forbidJump
  {
    PatternShape(song, c.position.pattern);
    PatternShape(song, song.orders[NextOrder(song.orders, Arrive(c.position).order)]);
  }

  lemma RowSafe(song: Score, c: Control)
    requires Playing(song) && NoLoopsWritten(song) && Safe(song, c) && NoLoops(c)
    ensures Safe(song, RowIfDue(song, c)) && NoLoops(RowIfDue(song, c))
    ensures c.speed <= c.ticks && c.mode == PlaySong ==>
      var played := RowIfDue(song, c).previous;
      && Playable(song.orders, played.order) && played.pattern == song.orders[played.order]
      && RowExists(song, played.pattern, played.row)
  {
    hide StartRow;
    if c.speed <= c.ticks && c.mode != PlayNothing {
      RowKeepsSafe(song, c);
      RowHasNoLoops(song, c);
      PlayedOrder(song, c);
    }
  }

  lemma PlayedOrder(song: Score, c: Control)
    requires Playing(song) && Safe(song, c)
    ensures c.mode == PlaySong ==>
      var here := Arrive(c.position);
      Playable(song.orders, here.order) && here.pattern == song.orders[here.order]
  {
  }

  lemma RowHasNoLoops(song: Score, c: Control)
    requires ValidScore(song) && NoLoopsWritten(song) && Safe(song, c) && NoLoops(c)
    ensures NoLoops(StartRow(song, c))
  {
    var d, p, row := StartRow(song, c), c.position.pattern, c.position.row;
    PatternShape(song, p);
    forall i | 0 <= i < PATTERN_WIDTH
      ensures d.tracks[i].sEffect != PATTERN_LOOP
      ensures !(d.tracks[i].command == S_COMMAND && d.tracks[i].parameter / 16 == PATTERN_LOOP)
    {
      assert !IsLoop(song.patterns[p][i][row]);
    }
  }

  lemma EffectSafe(song: Score, c: Control, i: nat)
    requires Playing(song) && i < PATTERN_WIDTH && Safe(song, c) && NoLoops(c)
    ensures Safe(song, RunEffect(song, c, i)) && NoLoops(RunEffect(song, c, i))
  {
  }

  lemma {:induction false} EffectsSafe(song: Score, c: Control, i: nat)
    requires Playing(song) && i <= PATTERN_WIDTH && Safe(song, c) && NoLoops(c)
    ensures Safe(song, Effects(song, c, i)) && NoLoops(Effects(song, c, i))
    decreases PATTERN_WIDTH - i
  {
    hide RunEffect, Safe, NoLoops;
    if i == PATTERN_WIDTH {
    } else {
      if c.ticks < c.speed {
        EffectSafe(song, c, i);
      }
      SafeIsKnown(song, c);
      EffectsSafe(song, if c.ticks < c.speed then RunEffect(song, c, i) else c, i + 1);
    }
  }

  lemma SafeIsKnown(song: Score, c: Control)
    requires ValidScore(song) && Safe(song, c)
    ensures |c.tracks| == PATTERN_WIDTH && OrdersKnown(c)
  {
  }

  /** The state after n ticks; the run stops before a row that does not exist. */
  ghost function Ticks(song: Score, c: Control, n: nat): (d: Control)
    requires ValidScore(song) && |c.tracks| == PATTERN_WIDTH && OrdersKnown(c)
    ensures |d.tracks| == PATTERN_WIDTH && OrdersKnown(d)
  {
    if n == 0 then c else
    var d := Ticks(song, c, n - 1);
    if Ready(song, d) then Tick(song, d) else d
  }

  lemma TickSafe(song: Score, c: Control)
    requires Playing(song) && NoLoopsWritten(song) && Safe(song, c) && NoLoops(c)
    ensures Ready(song, c) && Safe(song, Tick(song, c)) && NoLoops(Tick(song, c))
  {
    hide Effects, RowIfDue;
    RowSafe(song, c);
    EffectsSafe(song, RowIfDue(song, c), 0);
  }

  /** Every tick of every run plays a row that exists, in the pattern the order list names. */
  lemma {:induction false} EveryTickIsSafe(song: Score, c: Control, n: nat)
    requires Playing(song) && NoLoopsWritten(song) && Safe(song, c) && NoLoops(c)
    ensures |c.tracks| == PATTERN_WIDTH && OrdersKnown(c)
    ensures Safe(song, Ticks(song, c, n)) && NoLoops(Ticks(song, c, n)) && Ready(song, Ticks(song, c, n))
  {
    hide Tick, Safe, NoLoops, Ready;
    SafeIsKnown(song, c);
    if n == 0 {
      TickSafe(song, c);
    } else {
      EveryTickIsSafe(song, c, n - 1);
      TickSafe(song, Ticks(song, c, n - 1));
      TickSafe(song, Ticks(song, c, n));
    }
  }

  const RESET_TRACK := Track(0, 0, 0, 0, 0, 0)

  function ResetTracks(): (tracks: seq<Track>)
    ensures |tracks| == PATTERN_WIDTH && forall i | 0 <= i < PATTERN_WIDTH :: tracks[i] == RESET_TRACK
  {
    seq(PATTERN_WIDTH, _ => RESET_TRACK)
  }

  /** play_start: -1 stands for no pattern, the first order, or the first row. */
  function Started(song: Score, previous: Position, speed: int, pattern: int, order: int, row: int): (c: Control)
    requires -1 <= order
    ensures |c.tracks| == PATTERN_WIDTH
  {
    var k := if pattern != -1 then 0 else NextOrder(song.orders, if order == -1 then order else order - 1);
    var p := if pattern != -1 then pattern else song.orders[k];
    Control(if pattern != -1 then PlayPattern else PlaySong, speed, speed, false,
            Position(k, p, if row != -1 then row else 0, -1, false), previous, ResetTracks())
  }

  lemma StartIsSafe(song: Score, previous: Position, speed: int, pattern: int, order: int, row: int)
    requires Playing(song) && -1 <= order && -1 <= row && -1 <= pattern < MAX_PATTERNS && 0 <= speed
    requires -1 <= previous.order && -1 <= previous.forceNextOrder
    ensures var c := Started(song, previous, speed, pattern, order, row);
      NoLoops(c) && (Safe(song, c) <==> c.position.row < Rows(song, c.position.pattern))
  {
    var c := Started(song, previous, speed, pattern, order, row);
    PatternShape(song, c.position.pattern);
  }

  /** After the first tick of a row, effects change nothing but what their tracks remember. */
  lemma LaterEffectKeeps(song: Score, c: Control, i: nat)
    requires ValidScore(song) && i < |c.tracks| && OrdersKnown(c) && 1 <= c.ticks
    ensures var d := RunEffect(song, c, i); d == c.(tracks := d.tracks)
  {
  }

  lemma {:induction false} LaterEffectsKeep(song: Score, c: Control, i: nat)
    requires ValidScore(song) && |c.tracks| == PATTERN_WIDTH && i <= PATTERN_WIDTH && OrdersKnown(c) && 1 <= c.ticks
    ensures var d := Effects(song, c, i); d == c.(tracks := d.tracks)
    decreases PATTERN_WIDTH - i
  {
    hide RunEffect;
    if i == PATTERN_WIDTH {
    } else if c.ticks < c.speed {
      LaterEffectKeeps(song, c, i);
      LaterEffectsKeep(song, RunEffect(song, c, i), i + 1);
    } else {
      LaterEffectsKeep(song, c, i + 1);
    }
  }

  /** goto_next_order and goto_previous_order: a jump a B or C command has asked for stays pending. */
  function Goto(song: Score, c: Control, k: int): Control
    requires 0 <= k < MAX_ORDERS
  {
    c.(position := c.position.(row := 0, order := k, pattern := song.orders[k]))
  }

  /** Going to another order is safe unless a jump to an order with another pattern is pending. */
  lemma GotoSafeIff(song: Score, c: Control, k: int)
    requires Playing(song) && Safe(song, c) && c.mode == PlaySong && Playable(song.orders, k)
    ensures Safe(song, Goto(song, c, k)) <==>
      c.position.forceNextOrder == -1 || song.orders[c.position.forceNextOrder] == song.orders[k]
  {
    PatternShape(song, song.orders[k]);
  }
}
