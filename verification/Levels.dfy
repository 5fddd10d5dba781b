/** Volumes, pannings and tempo of the player, and the ranges they keep whatever is played. */
module Levels {
  import opened BitMath
  import opened Options
  import opened Division
  import opened Notes

  const PAN_LEFT := 0
  const PAN_CENTER := 128
  const PAN_RIGHT := 255
  const PAN_SURROUND := 512

  /** One layer of a channel: where it plays, how loud on this tick, and how loud when no effect interferes. */
  datatype Layer = Layer(panning: int, volume: int, auxVolume: int)

  /** A channel, and the global controls its effects can change. */
  datatype Controls = Controls(
    layers: seq<Layer>, channelVolume: int, channelPanning: int, globalVolume: int, tempo: int)

  /** How a layer starts a note: default volume, default panning, pitch separation, random panning. */
  datatype Start = Start(volume: Option<int>, panning: Option<int>, separation: Option<int>, random: Option<int>)

  /**
   * What can happen to the levels. Remembered parameters may be any byte; wave values and depths come from the
   * tables.
   */
  datatype Event =
    | NewNote(starts: seq<Option<Start>>)
    | CutNote
    | VolumeColumn(volume: u8)
    | VolumeSlide(inf: u8)
    | Tremor(on: bool)
    | SetChannelVolume(parameter: u8)
    | ChannelVolumeSlide(inf: u8)
    | PanSlide(inf: u8)
    | Retrig(slide: u8)
    | Tremolo(wave: u8, depth: u8, up: bool)
    | FinePanning(inf: u8)
    | Surround
    | CutAfter(inf: u8)
    | TempoEffect(dat: u8)
    | SetGlobalVolume(parameter: u8)
    | GlobalVolumeSlide(inf: u8)
    | SetPanning(parameter: u8)
    | Panbrello(amount: int)
    | OwnVolumeEnds

  function Clamp(x: int, low: int, high: int): int {
    if x < low then low else if x > high then high else x
  }

  /** The slide command, in either direction, on every tick or on the first one only. */
  function VolumeSlid(volume: int, inf: u8, ticks: nat): int {
    var hi, lo := inf / 16, inf % 16;
    if lo == 0 then Clamp(if ticks != 0 then volume + hi else volume, 0, 64)
    else if hi == 0 then Clamp(if ticks != 0 then volume - lo else volume, 0, 64)
    else if lo == 0xF then Clamp(if ticks == 0 then volume + hi else volume, 0, 64)
    else if hi == 0xF then Clamp(if ticks == 0 then volume - lo else volume, 0, 64)
    else volume
  }

  function ChannelVolumeSlid(volume: int, inf: u8, ticks: nat): int {
    var hi, lo := inf / 16, inf % 16;
    Clamp(
      if hi == 0 then volume - lo
      else if lo == 0 then volume + hi
      else if hi == 0xF then if ticks == 0 then volume - lo else volume
      else if lo == 0xF then if ticks == 0 then volume + hi else volume
      else volume,
      0, 64)
  }

  function GlobalVolumeSlid(volume: int, inf: u8, ticks: nat): int {
    var hi, lo := inf / 16, inf % 16;
    Clamp(
      if lo == 0 then if ticks != 0 then volume + hi else volume
      else if hi == 0 then if ticks != 0 then volume - lo else volume
      else if lo == 0xF then if ticks == 0 then volume + hi else volume
      else if hi == 0xF then if ticks == 0 then volume - lo else volume
      else volume,
      0, 128)
  }

  /** Sliding a surround panning starts from the center. */
  function PanSlid(panning: int, inf: u8, ticks: nat): int {
    var hi, lo := inf / 16, inf % 16;
    var pan := if panning == PAN_SURROUND then PAN_CENTER else panning;
    Clamp(
      if hi == 0 then pan + 4 * lo
      else if lo == 0 then pan - 4 * hi
      else if hi == 0xF then if ticks == 0 then pan + 4 * lo else pan
      else if lo == 0xF then if ticks == 0 then pan - 4 * hi else pan
      else pan,
      PAN_LEFT, PAN_RIGHT)
  }

  function Retriggered(volume: int, slide: u8, ticks: nat): int {
    if ticks == 0 then volume
    else
      var v :=
        if 1 <= slide <= 5 then volume - Shl(1, slide - 1)
        else if slide == 6 then TruncatingDiv(2 * volume, 3)
        else if slide == 7 then volume / 2
        else if 9 <= slide <= 0xD then volume + Shl(1, slide - 9)
        else if slide == 0xE then 3 * volume / 2
        else if slide == 0xF then 2 * volume
        else volume;
      Clamp(v, 0, 64)
  }

  const VIBRATO_TABLE: seq<u8> := [
    0, 24, 49, 74, 97, 120, 141, 161, 180, 197, 212, 224, 235, 244, 250, 253,
    255, 253, 250, 244, 235, 224, 212, 197, 180, 161, 141, 120, 97, 74, 49, 24]

  /** Half a period of the tremolo: a sine, a ramp that turns around for the other half, a square, or a random value. */
  function TremoloWave(kind: u8, position: int, random: u8): u8 {
    var q := position / 4 % 32;
    if kind == 0 then VIBRATO_TABLE[q]
    else if kind == 1 then if position < 0 then 255 - 8 * q else 8 * q
    else if kind == 2 then 255
    else if kind == 3 then random
    else 0
  }

  function TremoloAmount(wave: u8, depth: u8): nat {
    wave as int * (depth % 16) as int / 128
  }

  /** The limit is checked on the side the volume moves to. */
  function Trembling(volume: int, amount: nat, up: bool): int {
    if up then (if volume + amount > 64 then 64 else volume + amount)
    else (if volume - amount < 0 then 0 else volume - amount)
  }

  /** A signed byte. */
  function SignedByte(x: int): int {
    (x + 0x80) % 0x100 - 0x80
  }

  function TempoAfter(tempo: int, dat: u8, ticks: nat): int {
    if dat >= 0x20 then if ticks != 0 then tempo else dat as int
    else if ticks == 0 then tempo
    else Clamp(if (dat / 0x10) % 2 == 1 then tempo + dat % 0x10 else tempo - dat, 0x20, 255)
  }

  /** S8x: the sixteen panning positions. */
  function FinePosition(inf: u8): int {
    if inf % 16 <= 8 then inf % 16 * 16 else inf % 16 * 17
  }

  /** Volume bytes from 125 to 192 set the panning; those below 128 set a negative one. */
  function ColumnPanning(volume: u8): int {
    TruncatingDiv((volume - 128) * PAN_RIGHT, 64)
  }

  function StartPanning(channelPanning: int, s: Start): int {
    var p := if s.panning.Some? then TruncatingDiv(s.panning.value * 255, 64) else channelPanning;
    var q :=
      if s.separation.Some? && channelPanning != PAN_SURROUND then Clamp(p + s.separation.value, PAN_LEFT, PAN_RIGHT)
      else p;
    if s.random.Some? && q != PAN_SURROUND then Clamp(q + s.random.value, PAN_LEFT, PAN_RIGHT) else q
  }

  function Started(l: Layer, channelPanning: int, s: Start): Layer {
    var p := l.(panning := StartPanning(channelPanning, s));
    if s.volume.Some? then p.(volume := s.volume.value, auxVolume := s.volume.value) else p
  }

  /** What an event does to layer i. Cutting a note silences the first layer only. */
  function LayerAfter(m: Controls, i: nat, e: Event, ticks: nat): Layer
    requires i < |m.layers|
  {
    var l := m.layers[i];
    match e
    case NewNote(starts) => if i < |starts| && starts[i].Some? then Started(l, m.channelPanning, starts[i].value) else l
    case CutNote => if i == 0 then l.(auxVolume := 0) else l
    case VolumeColumn(v) =>
      if v < 65 then l.(auxVolume := v as int) else if 125 <= v < 193 then l.(panning := ColumnPanning(v)) else l
    case VolumeSlide(inf) => l.(auxVolume := VolumeSlid(l.auxVolume, inf, ticks))
    case Tremor(on) => l.(volume := if on then l.auxVolume else 0)
    case PanSlide(inf) => l.(panning := PanSlid(l.panning, inf, ticks))
    case Retrig(slide) => l.(auxVolume := Retriggered(l.auxVolume, slide, ticks))
    case Tremolo(wave, depth, up) => l.(volume := Trembling(l.auxVolume, TremoloAmount(wave, depth), up))
    case FinePanning(inf) => l.(panning := FinePosition(inf))
    case Surround => l.(panning := PAN_SURROUND)
    case CutAfter(inf) => if ticks >= (inf % 16) as int then l.(auxVolume := 0) else l
    case SetPanning(p) => l.(panning := p as int)
    case Panbrello(amount) =>
      if l.panning != PAN_SURROUND then l.(panning := Clamp(m.channelPanning + amount, PAN_LEFT, PAN_RIGHT)) else l
    case OwnVolumeEnds => l.(volume := l.auxVolume)
    case _ => l
  }

  function After(m: Controls, e: Event, ticks: nat): (n: Controls)
    requires |m.layers| == MAX_LAYERS
    ensures |n.layers| == MAX_LAYERS
  {
    var layers := seq(MAX_LAYERS, i requires 0 <= i < MAX_LAYERS => LayerAfter(m, i, e, ticks));
    var n := m.(layers := layers);
    match e
    case SetChannelVolume(p) => n.(channelVolume := Clamp(p as int, 0, 64))
    case ChannelVolumeSlide(inf) => n.(channelVolume := ChannelVolumeSlid(m.channelVolume, inf, ticks))
    case PanSlide(_) => n.(channelPanning := layers[0].panning)
    case FinePanning(inf) => n.(channelPanning := FinePosition(inf))
    case Surround => n.(channelPanning := PAN_SURROUND)
    case TempoEffect(dat) => n.(tempo := TempoAfter(m.tempo, dat, ticks))
    case SetGlobalVolume(p) => n.(globalVolume := Clamp(p as int, 0, 128))
    case GlobalVolumeSlide(inf) => n.(globalVolume := GlobalVolumeSlid(m.globalVolume, inf, ticks))
    case SetPanning(p) => n.(channelPanning := p as int)
    case _ => n
  }

  predicate PanningOk(p: int) {
    PAN_LEFT <= p <= PAN_RIGHT || p == PAN_SURROUND
  }

  predicate LayerOk(l: Layer) {
    PanningOk(l.panning) && 0 <= l.volume <= 64 && 0 <= l.auxVolume <= 64
  }

  predicate InRange(m: Controls) {
    && |m.layers| == MAX_LAYERS && (forall i | 0 <= i < MAX_LAYERS :: LayerOk(m.layers[i]))
    && 0 <= m.channelVolume <= 64 && PanningOk(m.channelPanning) && 0 <= m.globalVolume <= 128 && 31 <= m.tempo <= 255
  }

  /** Events from songs whose settings are in range. */
  predicate Proper(e: Event) {
    match e
    case NewNote(starts) =>
      forall i | 0 <= i < |starts| && starts[i].Some? ::
        && (starts[i].value.volume.Some? ==> 0 <= starts[i].value.volume.value <= 64)
        && (starts[i].value.panning.Some? ==> 0 <= starts[i].value.panning.value <= 64)
    case _ => true
  }

  /** The one way out of the ranges: a volume byte that is no volume, no panning and no volume command. */
  predicate Stray(e: Event) {
    e.VolumeColumn? && 125 <= e.volume < 128
  }

  lemma ColumnPanningIff(volume: u8)
    requires 125 <= volume < 193
    ensures PanningOk(ColumnPanning(volume)) <==> 128 <= volume
  {
  }

  lemma StartIsOk(channelPanning: int, s: Start)
    requires PanningOk(channelPanning) && (s.panning.Some? ==> 0 <= s.panning.value <= 64)
    ensures PanningOk(StartPanning(channelPanning, s))
  {
  }

  lemma LayerAfterIsOk(m: Controls, i: nat, e: Event, ticks: nat)
    requires InRange(m) && i < MAX_LAYERS && Proper(e)
    ensures LayerOk(LayerAfter(m, i, e, ticks)) <==> !Stray(e)
  {
    hide Retriggered, VolumeSlid, PanSlid, ColumnPanning, StartPanning, FinePosition;
    var l := m.layers[i];
    match e {
      case NewNote(starts) =>
        if i < |starts| && starts[i].Some? {
          StartIsOk(m.channelPanning, starts[i].value);
        }
      case VolumeColumn(v) =>
        if 125 <= v < 193 {
          ColumnPanningIff(v);
        }
      case VolumeSlide(inf) => SlidesAreOk(l.auxVolume, l.panning, inf, ticks);
      case PanSlide(inf) => SlidesAreOk(l.auxVolume, l.panning, inf, ticks);
      case Retrig(slide) => RetriggeredIsOk(l.auxVolume, slide, ticks);
      case FinePanning(inf) => SlidesAreOk(l.auxVolume, l.panning, inf, ticks);
      case _ =>
    }
  }

  lemma RetriggeredIsOk(volume: int, slide: u8, ticks: nat)
    requires 0 <= volume <= 64
    ensures 0 <= Retriggered(volume, slide, ticks) <= 64
  {
    hide TruncatingDiv, Shl;
  }

  lemma SlidesAreOk(volume: int, panning: int, inf: u8, ticks: nat)
    requires 0 <= volume <= 64
    ensures 0 <= VolumeSlid(volume, inf, ticks) <= 64
    ensures PanningOk(PanSlid(panning, inf, ticks)) && PanningOk(FinePosition(inf))
  {
  }

  /** One event keeps every level in range unless it is a stray volume byte. */
  lemma StaysInRangeIff(m: Controls, e: Event, ticks: nat)
    requires InRange(m) && Proper(e)
    ensures InRange(After(m, e, ticks)) <==> !Stray(e)
  {
    hide LayerAfter, LayerOk, FinePosition, VolumeSlid, PanSlid, ChannelVolumeSlid, GlobalVolumeSlid, TempoAfter;
    forall i | 0 <= i < MAX_LAYERS
      ensures LayerOk(LayerAfter(m, i, e, ticks)) <==> !Stray(e)
    {
      LayerAfterIsOk(m, i, e, ticks);
    }
    var n := After(m, e, ticks);
    assert forall i | 0 <= i < MAX_LAYERS :: n.layers[i] == LayerAfter(m, i, e, ticks);
    assert LayerOk(n.layers[0]) <==> !Stray(e);
    if !Stray(e) {
      FirstLayerPanning(n.layers[0]);
      ControlsAreOk(m, e, ticks);
    }
  }

  lemma FirstLayerPanning(l: Layer)
    requires LayerOk(l)
    ensures PanningOk(l.panning)
  {
  }

  lemma ControlsAreOk(m: Controls, e: Event, ticks: nat)
    requires 0 <= m.channelVolume <= 64 && 0 <= m.globalVolume <= 128 && 31 <= m.tempo <= 255
    ensures e.ChannelVolumeSlide? ==> 0 <= ChannelVolumeSlid(m.channelVolume, e.inf, ticks) <= 64
    ensures e.GlobalVolumeSlide? ==> 0 <= GlobalVolumeSlid(m.globalVolume, e.inf, ticks) <= 128
    ensures e.TempoEffect? ==> 31 <= TempoAfter(m.tempo, e.dat, ticks) <= 255
    ensures e.FinePanning? ==> PanningOk(FinePosition(e.inf))
  {
  }

  datatype Timed = Timed(event: Event, ticks: nat)

  function Run(m: Controls, events: seq<Timed>): (n: Controls)
    requires |m.layers| == MAX_LAYERS
    ensures |n.layers| == MAX_LAYERS
  {
    if |events| == 0 then m
    else After(Run(m, events[..|events| - 1]), events[|events| - 1].event, events[|events| - 1].ticks)
  }

  /** Over every run without stray volume bytes, every level is in range. */
  lemma {:induction false} EveryRunIsInRange(m: Controls, events: seq<Timed>)
    requires InRange(m) && forall k | 0 <= k < |events| :: Proper(events[k].event) && !Stray(events[k].event)
    ensures InRange(Run(m, events))
  {
    hide LayerOk, After, Proper, Stray;
    if |events| == 0 {
    } else {
      EveryRunIsInRange(m, events[..|events| - 1]);
      StaysInRangeIff(Run(m, events[..|events| - 1]), events[|events| - 1].event, events[|events| - 1].ticks);
    }
  }

  /** The levels after a reset, from the song's settings for the channel. */
  function Reset(volume: int, panning: int, surround: bool, globalVolume: int, tempo: int): Controls {
    Controls(seq(MAX_LAYERS, _ => Layer(0, 0, 0)), volume,
        if surround then PAN_SURROUND else TruncatingDiv(panning * 255, 64), globalVolume, tempo)
  }

  lemma ResetIsInRange(volume: int, panning: int, surround: bool, globalVolume: int, tempo: int)
    requires 0 <= volume <= 64 && 0 <= panning <= 64 && 0 <= globalVolume <= 128 && 31 <= tempo <= 255
    ensures InRange(Reset(volume, panning, surround, globalVolume, tempo))
  {
  }

  /** The volume handed to the mixer, before its clamp. */
  function OutputVolume(volume: int, sampleVolume: int, layerVolume: int, variation: int): int {
    TruncatingDiv(TruncatingDiv(volume * sampleVolume * layerVolume, 2048) * variation, 100)
  }

  /** The clamp of the output volume to 0..256 never changes it. */
  lemma OutputNeedsNoClamp(volume: int, sampleVolume: int, layerVolume: int, variation: int)
    requires 0 <= volume <= 64 && 0 <= sampleVolume <= 64 && 0 <= layerVolume <= 128 && 0 <= variation <= 100
    ensures 0 <= OutputVolume(volume, sampleVolume, layerVolume, variation) <= 256
  {
    Product(volume, sampleVolume, 64, 64);
    Product(volume * sampleVolume, layerVolume, 4096, 128);
    var q := TruncatingDiv(volume * sampleVolume * layerVolume, 2048);
    Product(q, variation, 256, 100);
  }

  lemma Product(a: int, b: int, x: int, y: int)
    requires 0 <= a <= x && 0 <= b <= y
    ensures 0 <= a * b <= x * y
  {
    assert a * b <= x * b <= x * y;
  }

  lemma RangeIsKept(m: Controls, e: Event, ticks: nat)
    requires |m.layers| == MAX_LAYERS
    ensures KeepsRange(m, e, After(m, e, ticks))
  {
    if InRange(m) && Proper(e) {
      StaysInRangeIff(m, e, ticks);
    }
  }

  /** What every method of a channel promises of the ranges. */
  predicate KeepsRange(m: Controls, e: Event, n: Controls) {
    InRange(m) && Proper(e) && !Stray(e) ==> InRange(n)
  }

  predicate Silent(m: Controls) {
    forall i | 0 <= i < |m.layers| :: m.layers[i].auxVolume == 0
  }

  /** Cutting a note silences the channel exactly when the layers after the first were silent before. */
  lemma CutNoteSilencesIff(m: Controls, ticks: nat)
    requires |m.layers| == MAX_LAYERS
    ensures Silent(After(m, CutNote, ticks)) <==> forall i | 1 <= i < MAX_LAYERS :: m.layers[i].auxVolume == 0
  {
    var n := After(m, CutNote, ticks);
    assert n.layers[0].auxVolume == 0;
    assert forall i | 1 <= i < MAX_LAYERS :: n.layers[i] == m.layers[i];
  }

  class Channel {
    const layers: array<Layer>
    var tremoloType: u8
    var tremoloPosition: int
    var tremoloSpeed: u8
    var tremoloDepth: u8
    var tremorInfo: u8
    var tremorPosition: int
    var retrigSlide: u8
    var retrigSpeed: u8
    var retrigCounter: int
    var channelVolume: int
    var channelPanning: int
    var globalVolume: int
    var tempo: int

    constructor (volume: int, panning: int, surround: bool, globalVolume: int, tempo: int)
      ensures layers.Length == MAX_LAYERS && fresh(layers)
      ensures State() == Reset(volume, panning, surround, globalVolume, tempo)
    {
      layers := new Layer[MAX_LAYERS](_ => Layer(0, 0, 0));
      channelVolume := volume;
      channelPanning := if surround then PAN_SURROUND else TruncatingDiv(panning * 255, 64);
      this.globalVolume, this.tempo := globalVolume, tempo;
      tremoloType, tremoloPosition, tremoloSpeed, tremoloDepth := 0, 0, 0, 0;
      tremorInfo, tremorPosition, retrigSlide, retrigSpeed, retrigCounter := 0, 0, 0, 0, 0;
    }

    function State(): Controls
      reads this, layers
    {
      Controls(layers[..], channelVolume, channelPanning, globalVolume, tempo)
    }

    method DoVolumeSlide(inf: u8, ticks: nat)
      requires layers.Length == MAX_LAYERS
      modifies layers
      ensures State() == After(old(State()), VolumeSlide(inf), ticks)
      ensures KeepsRange(old(State()), VolumeSlide(inf), State())
    {
      ghost var m := State();
      var hi, lo := inf / 16, inf % 16;
      for i := 0 to MAX_LAYERS
        invariant forall k | 0 <= k < i :: layers[k] == LayerAfter(m, k, VolumeSlide(inf), ticks)
        invariant forall k | i <= k < MAX_LAYERS :: layers[k] == m.layers[k]
      {
        var v := layers[i].auxVolume;
        if lo == 0 {
          if ticks != 0 {
            v := v + hi;
          }
        } else if hi == 0 {
          if ticks != 0 {
            v := v - lo;
          }
        } else if lo == 0xF {
          if ticks == 0 {
            v := v + hi;
          }
        } else if hi == 0xF {
          if ticks == 0 {
            v := v - lo;
          }
        } else {
          continue;
        }
        if v < 0 {
          v := 0;
        } else if v > 64 {
          v := 64;
        }
        layers[i] := layers[i].(auxVolume := v);
      }
      RangeIsKept(m, VolumeSlide(inf), ticks);
    }

    method DoPanSlide(inf: u8, ticks: nat)
      requires layers.Length == MAX_LAYERS
      modifies layers, this`channelPanning
      ensures State() == After(old(State()), PanSlide(inf), ticks)
      ensures KeepsRange(old(State()), PanSlide(inf), State())
    {
      ghost var m := State();
      var hi, lo := inf / 16, inf % 16;
      for i := 0 to MAX_LAYERS
        invariant forall k | 0 <= k < i :: layers[k] == LayerAfter(m, k, PanSlide(inf), ticks)
        invariant forall k | i <= k < MAX_LAYERS :: layers[k] == m.layers[k]
        invariant channelPanning == m.channelPanning && channelVolume == m.channelVolume
        invariant globalVolume == m.globalVolume && tempo == m.tempo
      {
        var pan := if layers[i].panning == PAN_SURROUND then PAN_CENTER else layers[i].panning;
        if hi == 0 {
          pan := pan + 4 * lo;
        } else if lo == 0 {
          pan := pan - 4 * hi;
        } else if hi == 0xF {
          if ticks == 0 {
            pan := pan + 4 * lo;
          }
        } else if lo == 0xF {
          if ticks == 0 {
            pan := pan - 4 * hi;
          }
        }
        pan := if pan < PAN_LEFT then PAN_LEFT else if pan > PAN_RIGHT then PAN_RIGHT else pan;
        layers[i] := layers[i].(panning := pan);
      }
      channelPanning := layers[0].panning;
      RangeIsKept(m, PanSlide(inf), ticks);
    }

    /** The volume change of a note that is started again. */
    method RetrigVolumes(slide: u8, ticks: nat)
      requires layers.Length == MAX_LAYERS
      modifies layers
      ensures State() == After(old(State()), Retrig(slide), ticks)
      ensures KeepsRange(old(State()), Retrig(slide), State())
    {
      hide Shl, TruncatingDiv;
      ghost var m := State();
      for i := 0 to MAX_LAYERS
        invariant forall k | 0 <= k < i :: layers[k] == LayerAfter(m, k, Retrig(slide), ticks)
        invariant forall k | i <= k < MAX_LAYERS :: layers[k] == m.layers[k]
      {
        if ticks != 0 {
          var v := layers[i].auxVolume;
          if 1 <= slide <= 5 {
            v := v - Shl(1, slide - 1);
          } else if slide == 6 {
            v := TruncatingDiv(2 * v, 3);
          } else if slide == 7 {
            v := v / 2;
          } else if 9 <= slide <= 0xD {
            v := v + Shl(1, slide - 9);
          } else if slide == 0xE {
            v := 3 * v / 2;
          } else if slide == 0xF {
            v := 2 * v;
          }
          if v < 0 {
            v := 0;
          } else if v > 64 {
            v := 64;
          }
          layers[i] := layers[i].(auxVolume := v);
        }
      }
      RangeIsKept(m, Retrig(slide), ticks);
    }

    /** Up for the first half of the wave, down for the other. */
    method TremoloVolumes(wave: u8, up: bool)
      requires layers.Length == MAX_LAYERS
      modifies layers
      ensures State() == After(old(State()), Tremolo(wave, tremoloDepth, up), 0)
      ensures KeepsRange(old(State()), Tremolo(wave, tremoloDepth, up), State())
    {
      hide TremoloAmount;
      ghost var m := State();
      var amount := TremoloAmount(wave, tremoloDepth);
      for i := 0 to MAX_LAYERS
        invariant forall k | 0 <= k < i :: layers[k] == LayerAfter(m, k, Tremolo(wave, tremoloDepth, up), 0)
        invariant forall k | i <= k < MAX_LAYERS :: layers[k] == m.layers[k]
      {
        var v := if up then layers[i].auxVolume + amount else layers[i].auxVolume - amount;
        if up && v > 64 {
          v := 64;
        } else if !up && v < 0 {
          v := 0;
        }
        layers[i] := layers[i].(volume := v);
      }
      RangeIsKept(m, Tremolo(wave, tremoloDepth, up), 0);
    }

    /** A note starts the wave again. */
    method DoTremolo(rowHasNote: bool, random: u8, ticks: nat)
      requires layers.Length == MAX_LAYERS
      modifies layers, this`tremoloPosition
      ensures var start := if ticks == 0 && rowHasNote then 0 else old(tremoloPosition);
        var e := Tremolo(TremoloWave(tremoloType, start, random), tremoloDepth, start >= 0);
        && State() == After(old(State()), e, 0)
        && tremoloPosition == SignedByte(start + tremoloSpeed)
      ensures old(InRange(State())) ==> InRange(State())
    {
      hide LayerAfter;
      if ticks == 0 && rowHasNote {
        tremoloPosition := 0;
      }
      var q := tremoloPosition / 4 % 32;
      var wave: u8 := 0;
      if tremoloType == 0 {
        wave := VIBRATO_TABLE[q];
      } else if tremoloType == 1 {
        wave := 8 * q;
        if tremoloPosition < 0 {
          wave := 255 - wave;
        }
      } else if tremoloType == 2 {
        wave := 255;
      } else if tremoloType == 3 {
        wave := random;
      }
      TremoloVolumes(wave, tremoloPosition >= 0);
      tremoloPosition := SignedByte(tremoloPosition + tremoloSpeed);
    }

    /** On for some ticks and off for some; without a parameter so far, nothing happens. */
    method DoTremor(parameter: u8)
      requires layers.Length == MAX_LAYERS && 0 <= tremorPosition
      modifies layers, this`tremorInfo, this`tremorPosition
      ensures tremorInfo == if parameter != 0 then parameter else old(tremorInfo)
      ensures tremorInfo == 0 ==> State() == old(State()) && tremorPosition == old(tremorPosition)
      ensures tremorInfo != 0 ==>
        var at := old(tremorPosition) % (tremorInfo / 16 + tremorInfo % 16) as int;
        State() == After(old(State()), Tremor(at < tremorInfo as int / 16), 0) && tremorPosition == at + 1
      ensures old(InRange(State())) ==> InRange(State())
    {
      if parameter != 0 {
        tremorInfo := parameter;
      }
      if tremorInfo == 0 {
        return;
      }
      var on, off := tremorInfo as int / 16, tremorInfo as int % 16;
      tremorPosition := tremorPosition % (on + off);
      TremorVolumes(tremorPosition < on);
      tremorPosition := tremorPosition + 1;
    }

    /** Every few ticks the note starts again, with its volume changed; the kick itself is not modelled. */
    method DoRetrig(parameter: u8, ticks: nat)
      requires layers.Length == MAX_LAYERS
      modifies layers, this`retrigSlide, this`retrigSpeed, this`retrigCounter
      ensures retrigSlide == if parameter != 0 then parameter / 16 else old(retrigSlide)
      ensures retrigSpeed == if parameter != 0 then parameter % 16 else old(retrigSpeed)
      ensures retrigSpeed == 0 ==> State() == old(State()) && retrigCounter == old(retrigCounter)
      ensures retrigSpeed != 0 && old(retrigCounter) != 0 ==>
        State() == old(State()) && retrigCounter == SignedByte(old(retrigCounter) - 1)
      ensures retrigSpeed != 0 && old(retrigCounter) == 0 ==>
        State() == After(old(State()), Retrig(retrigSlide), ticks) && retrigCounter == SignedByte(retrigSpeed - 1)
      ensures old(InRange(State())) ==> InRange(State())
    {
      hide Retriggered;
      if parameter != 0 {
        retrigSlide, retrigSpeed := parameter / 16, parameter % 16;
      }
      if retrigSpeed > 0 {
        if retrigCounter == 0 {
          retrigCounter := retrigSpeed as int;
          RetrigVolumes(retrigSlide, ticks);
        }
        retrigCounter := SignedByte(retrigCounter - 1);
      }
    }

    method TremorVolumes(on: bool)
      requires layers.Length == MAX_LAYERS
      modifies layers
      ensures State() == After(old(State()), Tremor(on), 0)
      ensures KeepsRange(old(State()), Tremor(on), State())
    {
      ghost var m := State();
      for i := 0 to MAX_LAYERS
        invariant forall k | 0 <= k < i :: layers[k] == LayerAfter(m, k, Tremor(on), 0)
        invariant forall k | i <= k < MAX_LAYERS :: layers[k] == m.layers[k]
      {
        layers[i] := layers[i].(volume := if on then layers[i].auxVolume else 0);
      }
      RangeIsKept(m, Tremor(on), 0);
    }

    method DoPanbrello(amount: int)
      requires layers.Length == MAX_LAYERS
      modifies layers
      ensures State() == After(old(State()), Panbrello(amount), 0)
      ensures KeepsRange(old(State()), Panbrello(amount), State())
    {
      ghost var m := State();
      var pan := amount + channelPanning;
      for i := 0 to MAX_LAYERS
        invariant forall k | 0 <= k < i :: layers[k] == LayerAfter(m, k, Panbrello(amount), 0)
        invariant forall k | i <= k < MAX_LAYERS :: layers[k] == m.layers[k]
      {
        if layers[i].panning != PAN_SURROUND {
          var limited := if pan < PAN_LEFT then PAN_LEFT else if pan > PAN_RIGHT then PAN_RIGHT else pan;
          layers[i] := layers[i].(panning := limited);
        }
      }
      RangeIsKept(m, Panbrello(amount), 0);
    }

    method ProcessVolumeColumn(volume: u8)
      requires layers.Length == MAX_LAYERS
      modifies layers
      ensures State() == After(old(State()), VolumeColumn(volume), 0)
      ensures KeepsRange(old(State()), VolumeColumn(volume), State())
    {
      hide TruncatingDiv;
      ghost var m := State();
      for i := 0 to MAX_LAYERS
        invariant forall k | 0 <= k < i :: layers[k] == LayerAfter(m, k, VolumeColumn(volume), 0)
        invariant forall k | i <= k < MAX_LAYERS :: layers[k] == m.layers[k]
      {
        if volume < 65 {
          layers[i] := layers[i].(auxVolume := volume as int);
        } else if 125 <= volume < 193 {
          layers[i] := layers[i].(panning := TruncatingDiv((volume - 128) * PAN_RIGHT, 64));
        }
      }
      RangeIsKept(m, VolumeColumn(volume), 0);
    }

    /** The levels of a new note, layer by layer. */
    method StartNotes(starts: seq<Option<Start>>)
      requires layers.Length == MAX_LAYERS
      modifies layers
      ensures State() == After(old(State()), NewNote(starts), 0)
      ensures KeepsRange(old(State()), NewNote(starts), State())
    {
      hide TruncatingDiv, Clamp;
      ghost var m := State();
      for i := 0 to MAX_LAYERS
        invariant forall k | 0 <= k < i :: layers[k] == LayerAfter(m, k, NewNote(starts), 0)
        invariant forall k | i <= k < MAX_LAYERS :: layers[k] == m.layers[k]
      {
        if i < |starts| && starts[i].Some? {
          var start := starts[i].value;
          var pan := channelPanning;
          if start.panning.Some? {
            pan := TruncatingDiv(start.panning.value * 255, 64);
          }
          if start.separation.Some? && channelPanning != PAN_SURROUND {
            pan := Clamp(pan + start.separation.value, PAN_LEFT, PAN_RIGHT);
          }
          if start.random.Some? && pan != PAN_SURROUND {
            pan := Clamp(pan + start.random.value, PAN_LEFT, PAN_RIGHT);
          }
          layers[i] := layers[i].(panning := pan);
          if start.volume.Some? {
            layers[i] := layers[i].(volume := start.volume.value, auxVolume := start.volume.value);
          }
        }
      }
      RangeIsKept(m, NewNote(starts), 0);
    }

    /** Without an effect of its own, the volume follows the auxiliary one. */
    method EndOwnVolume()
      requires layers.Length == MAX_LAYERS
      modifies layers
      ensures State() == After(old(State()), OwnVolumeEnds, 0)
      ensures KeepsRange(old(State()), OwnVolumeEnds, State())
    {
      ghost var m := State();
      for i := 0 to MAX_LAYERS
        invariant forall k | 0 <= k < i :: layers[k] == LayerAfter(m, k, OwnVolumeEnds, 0)
        invariant forall k | i <= k < MAX_LAYERS :: layers[k] == m.layers[k]
      {
        layers[i] := layers[i].(volume := layers[i].auxVolume);
      }
      RangeIsKept(m, OwnVolumeEnds, 0);
    }

    method DoChannelVolumeSlide(inf: u8, ticks: nat)
      requires layers.Length == MAX_LAYERS
      modifies this`channelVolume
      ensures State() == After(old(State()), ChannelVolumeSlide(inf), ticks)
      ensures KeepsRange(old(State()), ChannelVolumeSlide(inf), State())
    {
      ghost var m := State();
      var hi, lo, v := inf / 16, inf % 16, channelVolume;
      if hi == 0 {
        v := v - lo;
      } else if lo == 0 {
        v := v + hi;
      } else if hi == 0xF {
        if ticks == 0 {
          v := v - lo;
        }
      } else if lo == 0xF {
        if ticks == 0 {
          v := v + hi;
        }
      }
      if v < 0 {
        v := 0;
      }
      channelVolume := if v > 64 then 64 else v;
      assert layers[..] == After(m, ChannelVolumeSlide(inf), ticks).layers;
      RangeIsKept(m, ChannelVolumeSlide(inf), ticks);
    }

    method DoGlobalVolumeSlide(inf: u8, ticks: nat)
      requires layers.Length == MAX_LAYERS
      modifies this`globalVolume
      ensures State() == After(old(State()), GlobalVolumeSlide(inf), ticks)
      ensures KeepsRange(old(State()), GlobalVolumeSlide(inf), State())
    {
      ghost var m := State();
      var hi, lo, v := inf / 16, inf % 16, globalVolume;
      if lo == 0 {
        if ticks != 0 {
          v := v + hi;
        }
      } else if hi == 0 {
        if ticks != 0 {
          v := v - lo;
        }
      } else if lo == 0xF {
        if ticks == 0 {
          v := v + hi;
        }
      } else if hi == 0xF {
        if ticks == 0 {
          v := v - lo;
        }
      }
      if v < 0 {
        v := 0;
      }
      globalVolume := if v > 128 then 128 else v;
      assert layers[..] == After(m, GlobalVolumeSlide(inf), ticks).layers;
      RangeIsKept(m, GlobalVolumeSlide(inf), ticks);
    }

    method DoTempo(dat: u8, ticks: nat)
      requires layers.Length == MAX_LAYERS
      modifies this`tempo
      ensures State() == After(old(State()), TempoEffect(dat), ticks)
      ensures KeepsRange(old(State()), TempoEffect(dat), State())
    {
      ghost var m := State();
      if dat >= 0x20 {
        if ticks == 0 {
          tempo := dat as int;
        }
      } else if ticks != 0 {
        var t := if (dat / 0x10) % 2 == 1 then tempo + dat % 0x10 else tempo - dat;
        tempo := if t > 255 then 255 else if t < 0x20 then 0x20 else t;
      }
      assert layers[..] == After(m, TempoEffect(dat), ticks).layers;
      RangeIsKept(m, TempoEffect(dat), ticks);
    }

    /** The loop runs over all layers, but silences the first one every time. */
    method CutNotes()
      requires layers.Length == MAX_LAYERS
      modifies layers
      ensures State() == After(old(State()), CutNote, 0)
      ensures KeepsRange(old(State()), CutNote, State())
    {
      ghost var m := State();
      for i := 0 to MAX_LAYERS
        invariant layers[0] == if i == 0 then m.layers[0] else LayerAfter(m, 0, CutNote, 0)
        invariant forall k | 1 <= k < MAX_LAYERS :: layers[k] == m.layers[k]
      {
        layers[0] := layers[0].(auxVolume := 0);
      }
      RangeIsKept(m, CutNote, 0);
    }
  }
}
