/** Where the slides of volume, panning and tempo end after the ticks of a row, and what the other effects add up to. */
module Slides {
  import opened BitMath
  import opened Division
  import opened Options
  import opened Notes
  import opened Levels

  function AtMost(x: int, high: int): int {
    if x < high then x else high
  }

  function AtLeast(x: int, low: int): int {
    if x > low then x else low
  }

  function Within(x: int, low: int, high: int): int {
    AtLeast(AtMost(x, high), low)
  }

  /** A value after the first n ticks of a row, changed on each. */
  function Ticked(change: (int, nat) -> int, v: int, n: nat): int {
    if n == 0 then v else change(Ticked(change, v, n - 1), n - 1)
  }

  /** The controls after n ticks of a row with one effect. */
  function Rowed(m: Controls, e: Event, n: nat): (r: Controls)
    requires |m.layers| == MAX_LAYERS
    ensures |r.layers| == MAX_LAYERS
  {
    if n == 0 then m else After(Rowed(m, e, n - 1), e, n - 1)
  }

  lemma Travel(d: int, k: nat)
    ensures d * (k + 1) == d * k + d
    ensures if 0 <= d then 0 <= d * k else d * k <= 0
  {
    if 0 <= d {
      ProductGrows(d, 0, k);
    } else {
      ProductGrows(-d, 0, k);
      Opposite(d, k);
    }
  }

  lemma Opposite(d: int, k: int)
    ensures -d * k == -(d * k)
  {
  }

  /** A change on every tick. */
  lemma {:induction false} EveryTick(change: (int, nat) -> int, v: int, d: int, low: int, high: int, n: nat)
    requires low <= v <= high
    requires forall u, t | low <= u <= high :: change(u, t) == Within(u + d, low, high)
    ensures Ticked(change, v, n) == Within(v + d * n, low, high)
  {
    if n == 0 {
    } else {
      EveryTick(change, v, d, low, high, n - 1);
      Travel(d, n - 1);
    }
  }

  /** A change on every tick but the first. */
  lemma {:induction false} LaterTicks(change: (int, nat) -> int, v: int, d: int, low: int, high: int, n: nat)
    requires low <= v <= high && 1 <= n
    requires forall u | low <= u <= high :: change(u, 0) == u
    requires forall u, t | low <= u <= high && 0 < t :: change(u, t) == Within(u + d, low, high)
    ensures Ticked(change, v, n) == Within(v + d * (n - 1), low, high)
  {
    if n == 1 {
      assert Ticked(change, v, 0) == v;
    } else {
      LaterTicks(change, v, d, low, high, n - 1);
      Travel(d, n - 2);
    }
  }

  /** A change on the first tick only. */
  lemma {:induction false} FirstTick(change: (int, nat) -> int, v: int, d: int, low: int, high: int, n: nat)
    requires low <= v <= high && 1 <= n
    requires forall u | low <= u <= high :: change(u, 0) == Within(u + d, low, high)
    requires forall u, t | low <= u <= high && 0 < t :: change(u, t) == u
    ensures Ticked(change, v, n) == Within(v + d, low, high)
  {
    if n == 1 {
      assert Ticked(change, v, 0) == v;
    } else {
      FirstTick(change, v, d, low, high, n - 1);
    }
  }

  function Volumes(inf: u8): (int, nat) -> int {
    (v: int, t: nat) => VolumeSlid(v, inf, t)
  }

  lemma VolumeSteps(inf: u8)
    ensures var x, y := inf / 16, inf % 16;
      forall u: int, t: nat {:trigger Volumes(inf)(u, t)} | 0 <= u <= 64 ::
        Volumes(inf)(u, t) ==
        (if y == 0 then (if t == 0 then u else Within(u + x, 0, 64))
         else if x == 0 then (if t == 0 then u else Within(u - y, 0, 64))
         else if y == 15 then (if t == 0 then Within(u + x, 0, 64) else u)
         else if x == 15 then (if t == 0 then Within(u - y, 0, 64) else u)
         else u)
  {
  }

  /** Dx0 slides up on all ticks but the first, D0y down; DxF up once on the first tick, DFy down once. */
  lemma VolumeOfTicks(inf: u8, v: int, n: nat)
    requires 0 <= v <= 64 && 1 <= n
    ensures var x, y := inf / 16, inf % 16;
      Ticked(Volumes(inf), v, n) ==
      if y == 0 then AtMost(v + x * (n - 1), 64)
      else if x == 0 then AtLeast(v - y * (n - 1), 0)
      else if y == 15 then AtMost(v + x, 64)
      else if x == 15 then AtLeast(v - y, 0)
      else v
  {
    hide Volumes;
    var change, x, y := Volumes(inf), inf / 16, inf % 16;
    VolumeSteps(inf);
    if y == 0 {
      LaterTicks(change, v, x, 0, 64, n);
      Travel(x, n - 1);
    } else if x == 0 {
      LaterTicks(change, v, -y, 0, 64, n);
      Travel(y, n - 1);
      Opposite(y, n - 1);
    } else if y == 15 {
      FirstTick(change, v, x, 0, 64, n);
    } else if x == 15 {
      FirstTick(change, v, -y, 0, 64, n);
    } else {
      FirstTick(change, v, 0, 0, 64, n);
    }
  }

  function ChannelVolumes(inf: u8): (int, nat) -> int {
    (v: int, t: nat) => ChannelVolumeSlid(v, inf, t)
  }

  lemma ChannelVolumeSteps(inf: u8)
    ensures var x, y := inf / 16, inf % 16;
      forall u: int, t: nat {:trigger ChannelVolumes(inf)(u, t)} | 0 <= u <= 64 ::
        ChannelVolumes(inf)(u, t) ==
        (if x == 0 then Within(u - y, 0, 64)
         else if y == 0 then Within(u + x, 0, 64)
         else if x == 15 then (if t == 0 then Within(u - y, 0, 64) else u)
         else if y == 15 then (if t == 0 then Within(u + x, 0, 64) else u)
         else u)
  {
  }

  /** N0y slides down on every tick, Nx0 up; NFy down once on the first tick, NxF up once. */
  lemma ChannelVolumeOfTicks(inf: u8, v: int, n: nat)
    requires 0 <= v <= 64 && 1 <= n
    ensures var x, y := inf / 16, inf % 16;
      Ticked(ChannelVolumes(inf), v, n) ==
      if x == 0 then AtLeast(v - y * n, 0)
      else if y == 0 then AtMost(v + x * n, 64)
      else if x == 15 then AtLeast(v - y, 0)
      else if y == 15 then AtMost(v + x, 64)
      else v
  {
    hide ChannelVolumes;
    var change, x, y := ChannelVolumes(inf), inf / 16, inf % 16;
    ChannelVolumeSteps(inf);
    if x == 0 {
      EveryTick(change, v, -y, 0, 64, n);
      Travel(y, n);
      Opposite(y, n);
    } else if y == 0 {
      EveryTick(change, v, x, 0, 64, n);
      Travel(x, n);
    } else if x == 15 {
      FirstTick(change, v, -y, 0, 64, n);
    } else if y == 15 {
      FirstTick(change, v, x, 0, 64, n);
    } else {
      FirstTick(change, v, 0, 0, 64, n);
    }
  }

  function GlobalVolumes(inf: u8): (int, nat) -> int {
    (v: int, t: nat) => GlobalVolumeSlid(v, inf, t)
  }

  lemma GlobalVolumeSteps(inf: u8)
    ensures var x, y := inf / 16, inf % 16;
      forall u: int, t: nat {:trigger GlobalVolumes(inf)(u, t)} | 0 <= u <= 128 ::
        GlobalVolumes(inf)(u, t) ==
        (if y == 0 then (if t == 0 then u else Within(u + x, 0, 128))
         else if x == 0 then (if t == 0 then u else Within(u - y, 0, 128))
         else if y == 15 then (if t == 0 then Within(u + x, 0, 128) else u)
         else if x == 15 then (if t == 0 then Within(u - y, 0, 128) else u)
         else u)
  {
  }

  /** Wx0 slides up on all ticks but the first, W0y down; WxF up once on the first tick, WFy down once. */
  lemma GlobalVolumeOfTicks(inf: u8, v: int, n: nat)
    requires 0 <= v <= 128 && 1 <= n
    ensures var x, y := inf / 16, inf % 16;
      Ticked(GlobalVolumes(inf), v, n) ==
      if y == 0 then AtMost(v + x * (n - 1), 128)
      else if x == 0 then AtLeast(v - y * (n - 1), 0)
      else if y == 15 then AtMost(v + x, 128)
      else if x == 15 then AtLeast(v - y, 0)
      else v
  {
    hide GlobalVolumes;
    var change, x, y := GlobalVolumes(inf), inf / 16, inf % 16;
    GlobalVolumeSteps(inf);
    if y == 0 {
      LaterTicks(change, v, x, 0, 128, n);
      Travel(x, n - 1);
    } else if x == 0 {
      LaterTicks(change, v, -y, 0, 128, n);
      Travel(y, n - 1);
      Opposite(y, n - 1);
    } else if y == 15 {
      FirstTick(change, v, x, 0, 128, n);
    } else if x == 15 {
      FirstTick(change, v, -y, 0, 128, n);
    } else {
      FirstTick(change, v, 0, 0, 128, n);
    }
  }

  function Pans(inf: u8): (int, nat) -> int {
    (v: int, t: nat) => PanSlid(v, inf, t)
  }

  lemma PanSteps(inf: u8)
    ensures var x, y := inf / 16, inf % 16;
      forall u: int, t: nat {:trigger Pans(inf)(u, t)} | 0 <= u <= 255 ::
        Pans(inf)(u, t) ==
        (if x == 0 then Within(u + 4 * y, 0, 255)
         else if y == 0 then Within(u - 4 * x, 0, 255)
         else if x == 15 then (if t == 0 then Within(u + 4 * y, 0, 255) else u)
         else if y == 15 then (if t == 0 then Within(u - 4 * x, 0, 255) else u)
         else u)
  {
  }

  /** P0y slides right by four times y on every tick, Px0 left; PFy right once on the first tick, PxF left once. */
  lemma PanOfTicks(inf: u8, v: int, n: nat)
    requires 0 <= v <= 255 && 1 <= n
    ensures var x, y := inf / 16, inf % 16;
      Ticked(Pans(inf), v, n) ==
      if x == 0 then AtMost(v + 4 * y * n, 255)
      else if y == 0 then AtLeast(v - 4 * x * n, 0)
      else if x == 15 then AtMost(v + 4 * y, 255)
      else if y == 15 then AtLeast(v - 4 * x, 0)
      else v
  {
    hide Pans;
    var change, x, y := Pans(inf), inf / 16, inf % 16;
    PanSteps(inf);
    if x == 0 {
      EveryTick(change, v, 4 * y, 0, 255, n);
      Travel(4 * y, n);
    } else if y == 0 {
      EveryTick(change, v, -(4 * x), 0, 255, n);
      Travel(4 * x, n);
      Opposite(4 * x, n);
    } else if x == 15 {
      FirstTick(change, v, 4 * y, 0, 255, n);
    } else if y == 15 {
      FirstTick(change, v, -(4 * x), 0, 255, n);
    } else {
      FirstTick(change, v, 0, 0, 255, n);
    }
  }

  function Tempos(dat: u8): (int, nat) -> int {
    (v: int, t: nat) => TempoAfter(v, dat, t)
  }

  /** T with 32 or more sets the tempo at once; T1y raises it by y on all ticks but the first, T0y lowers it. */
  lemma TempoOfTicks(dat: u8, v: int, n: nat)
    requires 32 <= v <= 255 && 1 <= n
    ensures var y := dat % 16;
      Ticked(Tempos(dat), v, n) ==
      if 32 <= dat then dat as int
      else if 16 <= dat then AtMost(v + y * (n - 1), 255)
      else AtLeast(v - y * (n - 1), 32)
  {
    var change, y := Tempos(dat), dat % 16;
    if 32 <= dat {
      TempoIsSet(dat, v, n);
    } else if 16 <= dat {
      LaterTicks(change, v, y, 32, 255, n);
      Travel(y, n - 1);
    } else {
      LaterTicks(change, v, -y, 32, 255, n);
      Travel(y, n - 1);
      Opposite(y, n - 1);
    }
  }

  lemma {:induction false} TempoIsSet(dat: u8, v: int, n: nat)
    requires 32 <= dat && 1 <= n
    ensures Ticked(Tempos(dat), v, n) == dat as int
  {
    if n == 1 {
      assert Ticked(Tempos(dat), v, 0) == v;
    } else {
      TempoIsSet(dat, v, n - 1);
    }
  }

  /** In every layer, the volume of a row with a volume slide is what its ticks make of it, and nothing else changes. */
  lemma {:induction false} RowOfVolumeSlide(m: Controls, inf: u8, n: nat, i: nat)
    requires |m.layers| == MAX_LAYERS && i < MAX_LAYERS
    ensures Rowed(m, VolumeSlide(inf), n).layers[i] ==
      m.layers[i].(auxVolume := Ticked(Volumes(inf), m.layers[i].auxVolume, n))
    ensures Rowed(m, VolumeSlide(inf), n) == m.(layers := Rowed(m, VolumeSlide(inf), n).layers)
  {
    hide VolumeSlid;
    if n == 0 {
    } else {
      RowOfVolumeSlide(m, inf, n - 1, i);
    }
  }

  lemma {:induction false} RowOfPanSlide(m: Controls, inf: u8, n: nat, i: nat)
    requires |m.layers| == MAX_LAYERS && i < MAX_LAYERS
    ensures var r := Rowed(m, PanSlide(inf), n);
      && r.layers[i] == m.layers[i].(panning := Ticked(Pans(inf), m.layers[i].panning, n))
      && r.channelPanning == (if n == 0 then m.channelPanning else r.layers[0].panning)
  {
    hide PanSlid;
    if n == 0 {
    } else {
      RowOfPanSlide(m, inf, n - 1, i);
    }
  }

  /** A slide takes a surround panning to the center first. */
  lemma {:induction false} SurroundSlides(inf: u8, n: nat)
    requires 1 <= n
    ensures Ticked(Pans(inf), 512, n) == Ticked(Pans(inf), 128, n)
  {
    if n == 1 {
      assert Ticked(Pans(inf), 512, 0) == 512 && Ticked(Pans(inf), 128, 0) == 128;
    } else {
      SurroundSlides(inf, n - 1);
    }
  }

  lemma {:induction false} RowOfChannelVolumeSlide(m: Controls, inf: u8, n: nat)
    requires |m.layers| == MAX_LAYERS
    ensures Rowed(m, ChannelVolumeSlide(inf), n) == m.(channelVolume := Ticked(ChannelVolumes(inf), m.channelVolume, n))
  {
    hide ChannelVolumeSlid;
    if n == 0 {
    } else {
      RowOfChannelVolumeSlide(m, inf, n - 1);
      LayersStay(Rowed(m, ChannelVolumeSlide(inf), n - 1), ChannelVolumeSlide(inf), n - 1);
    }
  }

  lemma {:induction false} RowOfGlobalVolumeSlide(m: Controls, inf: u8, n: nat)
    requires |m.layers| == MAX_LAYERS
    ensures Rowed(m, GlobalVolumeSlide(inf), n) == m.(globalVolume := Ticked(GlobalVolumes(inf), m.globalVolume, n))
  {
    hide GlobalVolumeSlid;
    if n == 0 {
    } else {
      RowOfGlobalVolumeSlide(m, inf, n - 1);
      LayersStay(Rowed(m, GlobalVolumeSlide(inf), n - 1), GlobalVolumeSlide(inf), n - 1);
    }
  }

  lemma {:induction false} RowOfTempoEffect(m: Controls, inf: u8, n: nat)
    requires |m.layers| == MAX_LAYERS
    ensures Rowed(m, TempoEffect(inf), n) == m.(tempo := Ticked(Tempos(inf), m.tempo, n))
  {
    hide TempoAfter;
    if n == 0 {
    } else {
      RowOfTempoEffect(m, inf, n - 1);
      LayersStay(Rowed(m, TempoEffect(inf), n - 1), TempoEffect(inf), n - 1);
    }
  }

  lemma LayersStay(m: Controls, e: Event, t: nat)
    requires |m.layers| == MAX_LAYERS && (e.ChannelVolumeSlide? || e.GlobalVolumeSlide? || e.TempoEffect?)
    ensures After(m, e, t).layers == m.layers
  {
    hide ChannelVolumeSlid, GlobalVolumeSlid, TempoAfter;
  }

  /** A slide goes one way: the ticks of a row never turn it around. */
  lemma SlideIsMonotone(inf: u8, v: int, k: nat, n: nat)
    requires 0 <= v <= 64 && 1 <= k <= n
    ensures var at, end := Ticked(Volumes(inf), v, k), Ticked(Volumes(inf), v, n);
      v <= at <= end || end <= at <= v
  {
    hide Volumes;
    VolumeOfTicks(inf, v, k);
    VolumeOfTicks(inf, v, n);
    ProductGrows(inf / 16, k - 1, n - 1);
    ProductGrows(inf % 16, k - 1, n - 1);
  }

  /** Starting a note again, on all ticks but the first, changes its volume by the slide's number. */
  lemma RetriggerTable(v: int, t: nat)
    requires 0 <= v <= 64
    ensures forall s: u8 | s < 16 :: Retriggered(v, s, 0) == v
    ensures Retriggered(v, 0, t + 1) == Retriggered(v, 8, t + 1) == v
    ensures Retriggered(v, 1, t + 1) == AtLeast(v - 1, 0) && Retriggered(v, 9, t + 1) == AtMost(v + 1, 64)
    ensures Retriggered(v, 2, t + 1) == AtLeast(v - 2, 0) && Retriggered(v, 10, t + 1) == AtMost(v + 2, 64)
    ensures Retriggered(v, 3, t + 1) == AtLeast(v - 4, 0) && Retriggered(v, 11, t + 1) == AtMost(v + 4, 64)
    ensures Retriggered(v, 4, t + 1) == AtLeast(v - 8, 0) && Retriggered(v, 12, t + 1) == AtMost(v + 8, 64)
    ensures Retriggered(v, 5, t + 1) == AtLeast(v - 16, 0) && Retriggered(v, 13, t + 1) == AtMost(v + 16, 64)
    ensures var r := Retriggered(v, 6, t + 1); 3 * r <= 2 * v < 3 * r + 3
    ensures var r := Retriggered(v, 7, t + 1); 2 * r <= v < 2 * r + 2
    ensures var r := Retriggered(v, 14, t + 1); if v <= 43 then 2 * r <= 3 * v < 2 * r + 2 else r == 64
    ensures Retriggered(v, 15, t + 1) == AtMost(2 * v, 64)
  {
    assert Shl(1, 0) == 1 && Shl(1, 1) == 2 && Shl(1, 2) == 4 && Shl(1, 3) == 8 && Shl(1, 4) == 16;
  }

  /** The sine of the tremolo rises over the first half of its table and falls likewise over the second. */
  lemma SineShape(q: nat)
    requires 1 <= q < 16
    ensures |VIBRATO_TABLE| == 32 && VIBRATO_TABLE[0] == 0 && VIBRATO_TABLE[16] == 255
    ensures VIBRATO_TABLE[q - 1] < VIBRATO_TABLE[q] < 255 && VIBRATO_TABLE[32 - q] == VIBRATO_TABLE[q]
  {
  }

  /**
   * The tremolo over one period of 256 positions: the sine's two halves are alike, the ramp rises in eights and then
   * falls, the square is constant.
   */
  lemma WaveShape(position: int, random: u8)
    requires 0 <= position < 128
    ensures TremoloWave(0, position, random) == TremoloWave(0, position - 128, random) == VIBRATO_TABLE[position / 4]
    ensures TremoloWave(1, position, random) == 8 * (position / 4)
    ensures TremoloWave(1, position - 128, random) == 255 - 8 * (position / 4)
    ensures TremoloWave(2, position, random) == TremoloWave(2, position - 128, random) == 255
    ensures TremoloWave(3, position, random) == random
  {
    PositionInTable(position);
  }

  lemma PositionInTable(position: int)
    requires 0 <= position < 128
    ensures position / 4 % 32 == position / 4 && (position - 128) / 4 % 32 == position / 4
  {
    assert (position - 128) / 4 == position / 4 - 32;
  }

  /** The wave moves the volume by its value times the depth, divided by 128: up or down, but not past the limits. */
  lemma TremoloMoves(v: int, wave: u8, depth: u8)
    requires 0 <= v <= 64
    ensures var amount, d := TremoloAmount(wave, depth), depth as int % 16;
      && 128 * amount <= wave as int * d < 128 * amount + 128
      && Trembling(v, amount, true) == AtMost(v + amount, 64) && Trembling(v, amount, false) == AtLeast(v - amount, 0)
  {
    ProductGrows(wave, 0, depth % 16);
    DivisionBounds(wave as int * (depth % 16) as int, 128);
  }

  /** The sixteen positions go from left through the center to right. */
  lemma FinePositions(x: u8, y: u8, inf: u8)
    requires x < y < 16
    ensures FinePosition(inf) == FinePosition(inf % 16)
    ensures FinePosition(0) == 0 && FinePosition(8) == 128 && FinePosition(9) == 153 && FinePosition(15) == 255
    ensures FinePosition(x) < FinePosition(y)
  {
  }

  /** A panning of 0 to 64 becomes one of 0 to 255, rounded down. */
  lemma ColumnPanningIs(v: u8)
    requires 128 <= v <= 192
    ensures var r := ColumnPanning(v); 64 * r <= 255 * (v as int - 128) < 64 * r + 64
  {
  }

  /** Where a note starts: at its default if it has one, moved by separation and chance unless it is surround. */
  lemma StartPanningIs(channel: int, s: Start)
    requires s.panning.Some? ==> 0 <= s.panning.value <= 64
    ensures s == Start(s.volume, None, None, None) ==> StartPanning(channel, s) == channel
    ensures s == Start(s.volume, s.panning, None, None) && s.panning.Some? ==>
      var r := StartPanning(channel, s); 64 * r <= 255 * s.panning.value < 64 * r + 64
    ensures s == Start(s.volume, None, s.separation, None) && s.separation.Some? ==>
      StartPanning(channel, s) == if channel == 512 then 512 else Within(channel + s.separation.value, 0, 255)
    ensures s == Start(s.volume, None, None, s.random) && s.random.Some? ==>
      StartPanning(channel, s) == if channel == 512 then 512 else Within(channel + s.random.value, 0, 255)
  {
  }

  /** Full volumes make 256, and each of the four factors scales the output. */
  lemma OutputVolumeIs(volume: int, sampleVolume: int, layerVolume: int, variation: int)
    requires 0 <= volume <= 64 && 0 <= sampleVolume <= 64 && 0 <= layerVolume <= 128 && 0 <= variation <= 100
    ensures OutputVolume(64, 64, 128, 100) == 256
    ensures OutputVolume(volume, 64, 128, 100) == 4 * volume
    ensures OutputVolume(64, sampleVolume, 128, 100) == 4 * sampleVolume
    ensures OutputVolume(64, 64, layerVolume, 100) == 2 * layerVolume
    ensures var r := OutputVolume(64, 64, 128, variation); 100 * r <= 256 * variation < 100 * r + 100
  {
  }

  /** What the commands that set a level make of every layer. */
  lemma LayersAreSet(m: Controls, p: u8, i: nat, t: nat)
    requires |m.layers| == MAX_LAYERS && i < MAX_LAYERS
    ensures p <= 64 ==> LayerAfter(m, i, VolumeColumn(p), t) == m.layers[i].(auxVolume := p as int)
    ensures 65 <= p < 125 || 193 <= p ==> LayerAfter(m, i, VolumeColumn(p), t) == m.layers[i]
    ensures LayerAfter(m, i, Tremor(true), t) == m.layers[i].(volume := m.layers[i].auxVolume)
    ensures LayerAfter(m, i, Tremor(false), t) == m.layers[i].(volume := 0)
    ensures LayerAfter(m, i, OwnVolumeEnds, t) == m.layers[i].(volume := m.layers[i].auxVolume)
    ensures LayerAfter(m, i, Surround, t) == m.layers[i].(panning := 512)
    ensures LayerAfter(m, i, SetPanning(p), t) == m.layers[i].(panning := p as int)
    ensures p < 16 ==>
      LayerAfter(m, i, CutAfter(p), t) == if t < p as int then m.layers[i] else m.layers[i].(auxVolume := 0)
  {
  }

  /** What they make of the channel and the song. */
  lemma ControlsAreSet(m: Controls, p: u8, t: nat)
    requires |m.layers| == MAX_LAYERS
    ensures After(m, Surround, t).channelPanning == 512 && After(m, SetPanning(p), t).channelPanning == p as int
    ensures After(m, SetChannelVolume(p), t) == m.(channelVolume := AtMost(p as int, 64))
    ensures After(m, SetGlobalVolume(p), t) == m.(globalVolume := AtMost(p as int, 128))
  {
    assert After(m, SetChannelVolume(p), t).layers == m.layers;
    assert After(m, SetGlobalVolume(p), t).layers == m.layers;
  }

  /** A note starts at its volume, and keeps the old one without. */
  lemma NoteStarts(m: Controls, starts: seq<Option<Start>>, i: nat, t: nat)
    requires |m.layers| == MAX_LAYERS && i < MAX_LAYERS
    ensures var l, k := m.layers[i], LayerAfter(m, i, NewNote(starts), t);
      if |starts| <= i || starts[i].None? then k == l
      else
        var s := starts[i].value;
        && k.panning == StartPanning(m.channelPanning, s)
        && (s.volume.Some? ==> k.volume == k.auxVolume == s.volume.value)
        && (s.volume.None? ==> k.volume == l.volume && k.auxVolume == l.auxVolume)
  {
    hide StartPanning;
  }

  /** A channel starts with its own volume and panning, and silent layers. */
  lemma ResetIs(volume: int, panning: int, surround: bool, globalVolume: int, tempo: int)
    requires 0 <= panning <= 64
    ensures
      var m := Reset(volume, panning, surround, globalVolume, tempo);
      && m.channelVolume == volume && m.globalVolume == globalVolume && m.tempo == tempo
      && (if surround then m.channelPanning == 512
          else 64 * m.channelPanning <= 255 * panning < 64 * m.channelPanning + 64)
      && forall i | 0 <= i < |m.layers| :: m.layers[i].volume == m.layers[i].auxVolume == 0
  {
  }

  /** A signed byte: in range, and off by a multiple of 256. */
  lemma SignedByteIs(x: int) returns (q: int)
    ensures -128 <= SignedByte(x) < 128 && x == SignedByte(x) + 256 * q
  {
    q := (x + 128) / 256;
  }
}
