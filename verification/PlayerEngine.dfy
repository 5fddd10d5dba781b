/** The player's position and control variables, updated tick by tick. */
module PlayerEngine {
  import opened Notes
  import opened PatternStore
  import PatternCodec
  import opened Orders
  import opened PlayPosition

  class Song {
    const order: array<int>
    const patterns: seq<Pattern>

    constructor (order: array<int>, patterns: seq<Pattern>)
      ensures this.order == order && this.patterns == patterns
    {
      this.order, this.patterns := order, patterns;
    }

    ghost predicate Valid()
      reads this, order, patterns
    {
      && order.Length == MAX_ORDERS && |patterns| == MAX_PATTERNS
      && (forall k | 0 <= k < MAX_ORDERS :: 0 <= order[k])
      && (forall p | 0 <= p < MAX_PATTERNS :: patterns[p].Valid())
    }

    ghost function Contents(): (score: Score)
      requires Valid()
      reads this, order, patterns
      ensures ValidScore(score)
    {
      var grids := seq(MAX_PATTERNS,
        p requires Valid() && 0 <= p < MAX_PATTERNS reads this, order, patterns => patterns[p].Grid());
      var score := Score(order[..], grids);
      assert ValidScore(score) by {
        forall p | 0 <= p < MAX_PATTERNS
          ensures PatternOk(grids[p])
        {
          PatternShape(p);
        }
      }
      score
    }

    lemma PatternShape(p: int)
      requires Valid() && 0 <= p < MAX_PATTERNS
      ensures PatternOk(patterns[p].Grid())
    {
      assert PatternCodec.Shape(patterns[p].Grid(), patterns[p].length as nat);
    }

    lemma OrderContents()
      requires Valid()
      ensures order.Length == MAX_ORDERS && Contents().orders == order[..]
    {
    }

    lemma PatternContents(p: int)
      requires Valid() && 0 <= p < MAX_PATTERNS
      ensures |patterns| == MAX_PATTERNS && patterns[p].Valid()
      ensures Contents().patterns[p] == patterns[p].Grid() && Rows(Contents(), p) == patterns[p].length as int
    {
    }
  }

  class Player {
    const song: Song
    const channel: array<Track>
    var mode: Mode
    var speed: int
    var ticks: int
    var reachedEnd: bool
    var position: Position
    var previous: Position

    ghost function State(): Control
      reads this, channel
    {
      Control(mode, speed, ticks, reachedEnd, position, previous, channel[..])
    }

    ghost predicate Valid()
      reads this, channel, song, song.order, song.patterns
    {
      song.Valid() && channel.Length == PATTERN_WIDTH && OrdersKnown(State())
    }

    constructor (song: Song)
      requires song.Valid()
      ensures Valid() && fresh(this) && fresh(channel) && this.song == song && mode == PlayNothing
    {
      this.song := song;
      channel := new Track[PATTERN_WIDTH](_ => RESET_TRACK);
      mode, speed, ticks, reachedEnd := PlayNothing, 5, 0, false;
      position := Position(0, 0, 0, -1, false);
      previous := Position(0, 0, 0, -1, false);
    }

    /** The channels are reset. */
    method ResetChannels()
      requires channel.Length == PATTERN_WIDTH
      modifies channel
      ensures channel[..] == ResetTracks()
    {
      for i := 0 to PATTERN_WIDTH
        invariant forall k | 0 <= k < i :: channel[k] == RESET_TRACK
      {
        channel[i] := RESET_TRACK;
      }
    }

    /** play_start, which first stops and resets; initialSpeed is the song's. */
    method PlayStart(pattern: int, order: int, row: int, initialSpeed: int)
      requires Valid() && -1 <= order
      modifies this, channel
      ensures Valid()
      ensures State() == Started(song.Contents(), old(previous), initialSpeed, pattern, order, row)
    {
      hide Song.Contents, Song.Valid, NextOrder;
      ghost var score := song.Contents();
      song.OrderContents();
      var start := Position(0, 0, if row != -1 then row else 0, -1, false);
      if pattern != -1 {
        start := start.(pattern := pattern);
      } else {
        var k := GetNextOrder(song.order, if order == -1 then order else order - 1);
        start := start.(order := k, pattern := song.order[k]);
      }
      ResetChannels();
      speed, ticks, reachedEnd, position := initialSpeed, initialSpeed, false, start;
      mode := if pattern != -1 then PlayPattern else PlaySong;
      assert song.Contents() == score;
      assert OrdersKnown(State());
    }

    /** The notes of a row reach the tracks. */
    method ProcessNotes(pattern: Pattern, row: int)
      requires channel.Length == PATTERN_WIDTH && pattern.Valid() && 0 <= row < pattern.length as int
      modifies channel
      ensures channel[..] == HearAll(old(channel[..]), pattern.Grid(), row)
    {
      hide pattern.Valid, pattern.At;
      ghost var grid: Grid, before: seq<Track> := pattern.Grid(), channel[..];
      for i := 0 to PATTERN_WIDTH
        invariant forall k: int | 0 <= k < i ::
          channel[k] == before[k].(command := grid[k][row].command, parameter := grid[k][row].parameter)
        invariant forall k | i <= k < PATTERN_WIDTH :: channel[k] == before[k]
      {
        var note := pattern.GetNote(i, row);
        pattern.GridCell(i, row);
        channel[i] := channel[i].(command := note.command, parameter := note.parameter);
      }
    }

    /** Where the row after the given one is, and whether the song ends before it. */
    method FindRowAfter(here: Position) returns (p: Position, ends: bool)
      requires Valid() && RowExists(song.Contents(), here.pattern, here.row) && -1 <= here.order
      ensures p == RowAfter(song.Contents(), mode, here)
      ensures var score := song.Contents();
        ends <==> LeavesPattern(score, mode, here) && NextOrder(score.orders, here.order) <= here.order
    {
      hide Song.Contents, Song.Valid, NextOrder;
      song.PatternContents(here.pattern);
      song.OrderContents();
      p, ends := here.(forbidJump := false, row := here.row + 1), false;
      if p.row >= song.patterns[p.pattern].length as int {
        if mode == PlaySong {
          var next := GetNextOrder(song.order, p.order);
          ends := next <= p.order;
          p := p.(pattern := song.order[next], order := next);
        }
        p := p.(row := 0);
      }
    }

    /** The part of handle_tick that plays a row when one is due. */
    method PlayRow()
      requires Valid() && Ready(song.Contents(), State())
      modifies this, channel
      ensures Valid()
      ensures State() == RowIfDue(song.Contents(), old(State()))
    {
      hide Song.Contents, Song.Valid, NextOrder, HearAll, RowAfter, LeavesPattern, Pattern.Grid, Pattern.Valid,
        PatternOk;
      if ticks < speed || mode == PlayNothing {
        return;
      }
      ghost var score := song.Contents();
      var here := position;
      if here.forceNextOrder >= 0 {
        here := here.(order := here.forceNextOrder);
      }
      here := here.(forceNextOrder := -1);
      if here.pattern != EMPTY_FIELD as int {
        var next, ends := FindRowAfter(here);
        song.PatternContents(here.pattern);
        ProcessNotes(song.patterns[here.pattern], here.row);
        ticks, previous, position, reachedEnd := 0, here, next, reachedEnd || ends;
      } else {
        ticks, previous, position := 0, here, here.(forbidJump := false);
      }
      assert song.Contents() == score;
      assert OrdersKnown(State());
    }

    /** The row a C command asks for, or the first row when the pattern is too short. */
    method ClipRow(pattern: int, row: int) returns (r: int)
      requires Valid()
      ensures r == Clip(song.Contents(), pattern, row)
    {
      hide Song.Contents, Song.Valid, Pattern.Grid, Pattern.Valid, PatternOk;
      r := 0;
      if 0 <= pattern < MAX_PATTERNS {
        song.PatternContents(pattern);
        if row < song.patterns[pattern].length as int {
          r := row;
        }
      }
    }

    /** The S effect; only the pattern loop moves the position. */
    method DoEffectS(i: nat)
      requires Valid() && i < PATTERN_WIDTH
      modifies this`position, channel
      ensures Valid()
      ensures State() == SpecialEffect(old(State()), i)
    {
      hide Song.Contents, Song.Valid, Pattern.Grid, Pattern.Valid, PatternOk;
      var t := channel[i];
      if t.parameter != 0 {
        t := t.(sEffect := t.parameter / 16, sData := t.parameter % 16);
      }
      if t.sEffect == PATTERN_LOOP && ticks == 0 {
        if t.sData != 0 {
          if t.loopCount > 0 {
            t := t.(loopCount := t.loopCount - 1);
          } else {
            t := t.(loopCount := t.sData as int);
          }
          if t.loopCount > 0 {
            position := previous.(row := t.loopPosition, forbidJump := true);
          }
        } else {
          t := t.(loopPosition := position.row - 1);
        }
      }
      channel[i] := t;
    }

    method RunEffects(i: nat)
      requires Valid() && i < PATTERN_WIDTH
      modifies this, channel
      ensures Valid()
      ensures State() == RunEffect(song.Contents(), old(State()), i)
    {
      hide Song.Contents, Song.Valid, Pattern.Grid, Pattern.Valid, PatternOk, NextOrder, SpecialEffect, Clip;
      ghost var score := song.Contents();
      song.OrderContents();
      var parameter := channel[i].parameter;
      if channel[i].command == A_COMMAND {
        if !(ticks > 0) && parameter % 128 > 0 {
          speed, ticks := (parameter % 128) as int, 0;
        }
      } else if channel[i].command == B_COMMAND {
        if ticks == 0 && !position.forbidJump {
          if mode == PlayPattern {
            position := position.(row := 0);
          } else {
            var next := GetNextOrder(song.order, parameter as int - 1);
            position := position.(row := 0, pattern := song.order[next], forceNextOrder := next);
          }
        }
      } else if channel[i].command == C_COMMAND {
        if ticks == 0 && !position.forbidJump {
          if mode == PlayPattern {
            var row := ClipRow(position.pattern, parameter as int);
            position := position.(row := row);
          } else {
            var next := GetNextOrder(song.order, position.order);
            var row := ClipRow(song.order[next], parameter as int);
            position := position.(row := row, pattern := song.order[next], forceNextOrder := next);
          }
        }
      } else if channel[i].command == S_COMMAND {
        DoEffectS(i);
      }
      assert song.Contents() == score;
    }

    method PreProcessEffects()
      requires Valid()
      modifies this, channel
      ensures Valid()
      ensures State() == Effects(song.Contents(), old(State()), 0)
    {
      hide Song.Contents, Song.Valid, RunEffect;
      ghost var score := song.Contents();
      for i := 0 to PATTERN_WIDTH
        invariant Valid() && song.Contents() == score
        invariant Effects(score, State(), i) == Effects(score, old(State()), 0)
      {
        if ticks < speed {
          RunEffects(i);
        }
      }
    }

    method HandleTick()
      requires Valid() && Ready(song.Contents(), State())
      modifies this, channel
      ensures Valid()
      ensures State() == Tick(song.Contents(), old(State()))
    {
      hide Song.Contents, Song.Valid, RowIfDue, Effects;
      ghost var score := song.Contents();
      PlayRow();
      PreProcessEffects();
      ticks := ticks + 1;
      assert song.Contents() == score;
    }

    method GotoNextOrder()
      requires Valid()
      modifies this`position
      ensures Valid()
      ensures State() ==
        if mode != PlaySong then old(State())
        else Goto(song.Contents(), old(State()), NextOrder(song.order[..], old(position.order)))
    {
      hide Song.Contents, Song.Valid, NextOrder;
      if mode != PlaySong {
        return;
      }
      song.OrderContents();
      var next := GetNextOrder(song.order, position.order);
      position := position.(row := 0, order := next, pattern := song.order[next]);
    }

    /** The search ends only for an order that is on the walk. */
    method GotoPreviousOrder()
      requires Valid()
      requires mode == PlaySong ==> position.order < MAX_ORDERS && OnWalk(song.Contents().orders, position.order)
      modifies this`position
      ensures Valid()
      ensures mode != PlaySong ==> State() == old(State())
      ensures mode == PlaySong ==>
        && 0 <= position.order < MAX_ORDERS && State() == Goto(song.Contents(), old(State()), position.order)
        && NextOrder(song.Contents().orders, position.order) == old(position.order)
    {
      hide Song.Contents, Song.Valid, NextOrder;
      if mode != PlaySong {
        return;
      }
      song.OrderContents();
      var previous := PreviousOrder(song.order, position.order);
      position := position.(row := 0, order := previous, pattern := song.order[previous]);
    }
  }
}
