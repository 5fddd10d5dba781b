/** Tone portamento: the G command slides the period of every layer towards the period of its note. */
module Portamento {
  import opened BitMath
  import opened Notes

  type u16 = x: int | 0 <= x < 0x1_0000

  /** The periods of one layer. A tick without G plays the auxiliary period. */
  datatype Layer = Layer(period: u32, auxPeriod: u16, slideToPeriod: u16)

  /** One tick of a channel: with a G command or without one that touches the periods. */
  datatype Event = Glide(ticks: nat, parameter: u8) | Rest

  function Wrap16(x: int): u16 {
    x % 0x1_0000
  }

  function Wrap32(x: int): u32 {
    x % 0x1_0000_0000
  }

  /** Unsigned subtraction stored into an int. */
  function Distance(period: u32, target: u16): int {
    var d := Wrap32(period - target);
    if d < 0x8000_0000 then d else d - 0x1_0000_0000
  }

  function Abs(x: int): (y: int)
    ensures 0 <= y
  {
    if x < 0 then -x else x
  }

  /** do_pitch_slide_to_note on one layer. */
  function Slid(l: Layer, speed: u8, ticks: nat): Layer {
    var dist := Distance(l.period, l.slideToPeriod);
    if ticks == 0 then l.(auxPeriod := Wrap16(l.period))
    else if dist == 0 || 4 * speed as int > Abs(dist) then
      l.(period := l.slideToPeriod as int, auxPeriod := l.slideToPeriod)
    else if dist > 0 then l.(period := Wrap32(l.period - 4 * speed), auxPeriod := Wrap16(l.auxPeriod - 4 * speed))
    else l.(period := Wrap32(l.period + 4 * speed), auxPeriod := Wrap16(l.auxPeriod + 4 * speed))
  }

  /** A zero parameter keeps the speed. */
  function SpeedAfter(speed: u8, e: Event): u8 {
    if e.Glide? && e.parameter > 0 then e.parameter else speed
  }

  function After(l: Layer, speed: u8, e: Event): Layer {
    match e
    case Rest => l.(period := l.auxPeriod as int)
    case Glide(ticks, _) => Slid(l, SpeedAfter(speed, e), ticks)
  }

  function Run(l: Layer, speed: u8, events: seq<Event>): Layer
    decreases |events|
  {
    if events == [] then l else Run(After(l, speed, events[0]), SpeedAfter(speed, events[0]), events[1..])
  }

  /** How far a run can carry a period: four times the speed for every gliding tick but the first of its row. */
  function Travel(speed: u8, events: seq<Event>): (d: int)
    ensures 0 <= d
    decreases |events|
  {
    if events == [] then 0
    else
      var s := SpeedAfter(speed, events[0]);
      (if events[0].Glide? && events[0].ticks != 0 then 4 * s as int else 0) + Travel(s, events[1..])
  }

  /** Before the first gliding row a note may have set the auxiliary period; the row's first tick takes it back. */
  predicate Synced(l: Layer, events: seq<Event>) {
    && l.period < 0x1_0000
    && (l.auxPeriod as int == l.period || (|events| > 0 && events[0].Glide? && events[0].ticks == 0))
  }

  /** d1 lies between 0 and d0. */
  predicate SameSide(d0: int, d1: int) {
    0 <= d1 <= d0 || d0 <= d1 <= 0
  }

  lemma NoWrap(x: int)
    requires 0 <= x < 0x1_0000
    ensures Wrap16(x) == x && Wrap32(x) == x
  {
  }

  lemma TrueDistance(period: u32, target: u16)
    requires period < 0x1_0000
    ensures Distance(period, target) == period - target
  {
  }

  lemma OneSlide(l: Layer, speed: u8, ticks: nat)
    requires l.period < 0x1_0000 && (ticks != 0 ==> l.auxPeriod as int == l.period)
    ensures var m := Slid(l, speed, ticks);
      && m.slideToPeriod == l.slideToPeriod && m.period < 0x1_0000 && m.auxPeriod as int == m.period
      && SameSide(l.period - l.slideToPeriod, m.period - m.slideToPeriod)
      && var step := if ticks != 0 then 4 * speed as int else 0;
         Abs(m.period - m.slideToPeriod) == AtLeastZero(Abs(l.period - l.slideToPeriod) - step)
  {
    hide Wrap16, Wrap32, Distance;
    TrueDistance(l.period, l.slideToPeriod);
    var dist, m := l.period - l.slideToPeriod, Slid(l, speed, ticks);
    if ticks == 0 {
      NoWrap(l.period);
    } else if dist != 0 && 4 * speed as int <= Abs(dist) {
      var p := if dist > 0 then l.period - 4 * speed else l.period + 4 * speed;
      NoWrap(p);
      assert m.period == p && m.auxPeriod as int == p;
    }
  }

  function AtLeastZero(d: int): nat {
    if d < 0 then 0 else d
  }

  lemma OneTick(l: Layer, speed: u8, e: Event)
    requires Synced(l, [e])
    ensures var m := After(l, speed, e);
      && m.slideToPeriod == l.slideToPeriod && m.period < 0x1_0000 && m.auxPeriod as int == m.period
      && SameSide(l.period - l.slideToPeriod, m.period - m.slideToPeriod)
      && Abs(m.period - m.slideToPeriod) == AtLeastZero(Abs(l.period - l.slideToPeriod) - Travel(speed, [e]))
  {
    hide Slid;
    assert [e][1..] == [];
    assert Travel(speed, [e]) == if e.Glide? && e.ticks != 0 then 4 * SpeedAfter(speed, e) as int else 0;
    if e.Glide? {
      OneSlide(l, SpeedAfter(speed, e), e.ticks);
    }
  }

  /**
   * The closed form: the distance to the target falls by what the run has travelled, stops at zero, never changes
   * sign, and outlives the effect.
   */
  lemma {:induction false} GlideClosedForm(l: Layer, speed: u8, events: seq<Event>)
    requires Synced(l, events)
    ensures var m := Run(l, speed, events);
      && m.slideToPeriod == l.slideToPeriod && m.period < 0x1_0000
      && SameSide(l.period - l.slideToPeriod, m.period - m.slideToPeriod)
      && Abs(m.period - m.slideToPeriod) == AtLeastZero(Abs(l.period - l.slideToPeriod) - Travel(speed, events))
      && (events != [] ==> m.auxPeriod as int == m.period)
    decreases |events|
  {
    hide After, SpeedAfter;
    if events == [] {
    } else {
      var e, rest := events[0], events[1..];
      assert [e][1..] == [];
      OneTick(l, speed, e);
      var m, s := After(l, speed, e), SpeedAfter(speed, e);
      GlideClosedForm(m, s, rest);
      assert Travel(speed, events) == Travel(speed, [e]) + Travel(s, rest);
      assert Run(l, speed, events) == Run(m, s, rest);
    }
  }

  /** Every tick glides with the same parameter, or repeats it with a zero. */
  predicate Steady(speed: u8, events: seq<Event>) {
    forall i | 0 <= i < |events| :: events[i].Glide? && (events[i].parameter == 0 || events[i].parameter == speed)
  }

  function NonZeroTicks(events: seq<Event>): (k: nat)
  {
    if events == [] then 0
    else (if events[0].Glide? && events[0].ticks != 0 then 1 else 0) + NonZeroTicks(events[1..])
  }

  lemma {:induction false} SteadyTravel(speed: u8, events: seq<Event>)
    requires Steady(speed, events)
    ensures Travel(speed, events) == 4 * speed * NonZeroTicks(events)
  {
    if events == [] {
    } else {
      assert Steady(speed, events[1..]);
      SteadyTravel(speed, events[1..]);
      OneMoreStep(4 * speed, NonZeroTicks(events[1..]));
    }
  }

  /** A new parameter is the speed from then on, whatever it was before. */
  lemma NewSpeedTravels(speed: u8, p: u8, events: seq<Event>)
    requires 0 < p && events != [] && events[0].Glide? && events[0].parameter == p && Steady(p, events)
    ensures Travel(speed, events) == 4 * p * NonZeroTicks(events)
  {
    SteadyTravel(p, events);
  }

  lemma OneMoreStep(step: int, k: int)
    ensures step * (k + 1) == step * k + step
  {
  }

  class Channel {
    const layers: array<Layer>
    var portamentoSpeed: u8
    var oldNote: u8
    var hasOwnPeriod: bool

    constructor ()
      ensures layers.Length == MAX_LAYERS && fresh(layers) && portamentoSpeed == 0 && oldNote == 255 && !hasOwnPeriod
      ensures forall i | 0 <= i < MAX_LAYERS :: layers[i] == Layer(0, 0, 0)
    {
      layers := new Layer[MAX_LAYERS](_ => Layer(0, 0, 0));
      portamentoSpeed, oldNote, hasOwnPeriod := 0, 255, false;
    }

    method PitchSlideToNote(ticks: nat)
      requires layers.Length == MAX_LAYERS
      modifies layers
      ensures forall i | 0 <= i < MAX_LAYERS :: layers[i] == Slid(old(layers[i]), portamentoSpeed, ticks)
    {
      hide Wrap16, Wrap32, Distance, Abs;
      if ticks != 0 {
        for i := 0 to MAX_LAYERS
          invariant forall k | 0 <= k < i :: layers[k] == Slid(old(layers[k]), portamentoSpeed, ticks)
          invariant forall k | i <= k < MAX_LAYERS :: layers[k] == old(layers[k])
        {
          var l, step := layers[i], 4 * portamentoSpeed as int;
          var dist := Distance(l.period, l.slideToPeriod);
          if dist == 0 || step > Abs(dist) {
            layers[i] := l.(auxPeriod := l.slideToPeriod, period := l.slideToPeriod as int);
          } else if dist > 0 {
            layers[i] := l.(auxPeriod := Wrap16(l.auxPeriod - step), period := Wrap32(l.period - step));
          } else {
            layers[i] := l.(auxPeriod := Wrap16(l.auxPeriod + step), period := Wrap32(l.period + step));
          }
        }
      } else {
        for i := 0 to MAX_LAYERS
          invariant forall k | 0 <= k < i :: layers[k] == Slid(old(layers[k]), portamentoSpeed, ticks)
          invariant forall k | i <= k < MAX_LAYERS :: layers[k] == old(layers[k])
        {
          layers[i] := layers[i].(auxPeriod := Wrap16(layers[i].period));
        }
      }
    }

    /** A tick of pre_process_effects as far as the periods go; without a previous note the G command does nothing. */
    method ProcessTick(e: Event)
      requires layers.Length == MAX_LAYERS
      modifies this`portamentoSpeed, this`hasOwnPeriod, layers
      ensures portamentoSpeed == SpeedAfter(old(portamentoSpeed), e)
      ensures forall i | 0 <= i < MAX_LAYERS ::
        layers[i] == After(old(layers[i]), old(portamentoSpeed), if oldNote <= 120 then e else Rest)
    {
      hasOwnPeriod := false;
      if e.Glide? {
        if e.parameter != 0 {
          portamentoSpeed := e.parameter;
        }
        if oldNote <= 120 {
          PitchSlideToNote(e.ticks);
          hasOwnPeriod := true;
        }
      }
      if !hasOwnPeriod {
        for i := 0 to MAX_LAYERS
          invariant portamentoSpeed == SpeedAfter(old(portamentoSpeed), e)
          invariant forall k | 0 <= k < i :: layers[k] == After(old(layers[k]), old(portamentoSpeed), Rest)
          invariant forall k | i <= k < MAX_LAYERS :: layers[k] == old(layers[k])
        {
          layers[i] := layers[i].(period := layers[i].auxPeriod as int);
        }
      }
    }
  }
}
