/**
 * The packed pattern format shared by the .ct and the .it files: per channel, each field is written only when it
 * differs from the channel's previous value, and the mask byte only when it changes.
 *
 * The .it variant also rescales the parameters of Z commands, in the caches only (z is true).
 */
module PatternCodec {
  import opened BitMath
  import opened Notes
  import opened PatternStore

  const Z_COMMAND: u8 := 25

  const WRITE_NOTE: u8 := 1
  const WRITE_INSTRUMENT: u8 := 2
  const WRITE_VOLUME: u8 := 4
  const WRITE_COMMAND: u8 := 8
  const REUSE_NOTE: u8 := 16
  const REUSE_INSTRUMENT: u8 := 32
  const REUSE_VOLUME: u8 := 64
  const REUSE_COMMAND: u8 := 128

  predicate HasBit(mask: u8, bit: u8)
    requires 0 < bit
  {
    (mask / bit) % 2 == 1
  }

  /** What the saver or the loader remembers of a channel. */
  datatype Channel = Channel(cache: Note, mask: u8)

  const UNUSED := Channel(EMPTY, 0)

  /** The flag of one field: absent, written, or the same as in the cache. */
  function FieldFlag(cached: u8, field: u8, write: u8): int {
    if field == EMPTY_FIELD then 0 else if field != cached then write else 16 * write
  }

  predicate HasCommand(n: Note) {
    n.command != EMPTY_FIELD || n.parameter != 0
  }

  function CommandFlag(cache: Note, n: Note): int {
    if !HasCommand(n) then 0
    else if n.command != cache.command || n.parameter != cache.parameter then WRITE_COMMAND
    else REUSE_COMMAND
  }

  function Flags(cache: Note, n: Note): u8 {
    FieldFlag(cache.note, n.note, WRITE_NOTE) + FieldFlag(cache.instrument, n.instrument, WRITE_INSTRUMENT)
    + FieldFlag(cache.volume, n.volume, WRITE_VOLUME) + CommandFlag(cache, n)
  }

  function SavedParameter(z: bool, command: u8, parameter: u8): u8 {
    if z && command == Z_COMMAND && parameter < 0x7F then
      if 2 * parameter as int >= 0x7F then 0x7F else 2 * parameter as int
    else parameter
  }

  function LoadedParameter(z: bool, command: u8, parameter: u8): u8 {
    if z && command == Z_COMMAND && parameter < 0x7F then parameter / 2 else parameter
  }

  /** The saver's cache after a note. */
  function Remember(z: bool, cache: Note, n: Note): Note {
    var c := cache.(
      note := if n.note != EMPTY_FIELD then n.note else cache.note,
      instrument := if n.instrument != EMPTY_FIELD then n.instrument else cache.instrument,
      volume := if n.volume != EMPTY_FIELD then n.volume else cache.volume);
    if CommandFlag(cache, n) == WRITE_COMMAND
    then c.(command := n.command, parameter := SavedParameter(z, n.command, n.parameter))
    else c
  }

  function NoteByte(note: u8): u8 {
    if note == EMPTY_FIELD then 0 else if note == OFF then 255 else if note == CUT then 254 else note
  }

  function Part(flags: u8, bit: u8, bytes: seq<u8>): seq<u8>
    requires 0 < bit
  {
    if HasBit(flags, bit) then bytes else []
  }

  /** The field bytes of a cell. */
  function Fields(flags: u8, n: Note): seq<u8> {
    Part(flags, WRITE_NOTE, [NoteByte(n.note)])
    + (Part(flags, WRITE_INSTRUMENT, [(n.instrument + 1) % 0x100])
       + (Part(flags, WRITE_VOLUME, [n.volume])
          + Part(flags, WRITE_COMMAND, [(n.command + 1) % 0x100, n.parameter])))
  }

  function Mark(j: nat, mask: u8, flags: u8): seq<u8>
    requires j < PATTERN_WIDTH
  {
    if flags != mask then [j + 1 + 128, flags] else [j + 1]
  }

  predicate Shape(g: Grid, rows: nat) {
    |g| == PATTERN_WIDTH && forall c | 0 <= c < PATTERN_WIDTH :: |g[c]| == rows
  }

  /** A pattern without notes. */
  function EmptyGrid(rows: nat): (g: Grid)
    ensures Shape(g, rows) && forall c, r | InRange(c, r, rows) :: g[c][r] == EMPTY
  {
    seq(PATTERN_WIDTH, _ => seq(rows, _ => EMPTY))
  }

  function After(z: bool, ch: Channel, n: Note): Channel {
    Channel(Remember(z, ch.cache, n), Flags(ch.cache, n))
  }

  /** The block from cell (j, r) on, row by row; every row ends with a zero. */
  function Pack(z: bool, g: Grid, rows: nat, channels: seq<Channel>, r: nat, j: nat): seq<u8>
    requires Shape(g, rows) && |channels| == PATTERN_WIDTH && r <= rows && j <= PATTERN_WIDTH
    decreases rows - r, PATTERN_WIDTH - j
  {
    if r == rows then []
    else if j == PATTERN_WIDTH then [0] + Pack(z, g, rows, channels, r + 1, 0)
    else if g[j][r] == EMPTY then Pack(z, g, rows, channels, r, j + 1)
    else
      var n, ch := g[j][r], channels[j];
      var flags := Flags(ch.cache, n);
      Mark(j, ch.mask, flags) + Fields(flags, n) + Pack(z, g, rows, channels[j := After(z, ch, n)], r, j + 1)
  }

  function Fresh(): (channels: seq<Channel>)
    ensures |channels| == PATTERN_WIDTH && forall c | 0 <= c < PATTERN_WIDTH :: channels[c] == UNUSED
  {
    seq(PATTERN_WIDTH, _ => UNUSED)
  }

  function PackGrid(z: bool, g: Grid, rows: nat): seq<u8>
    requires Shape(g, rows)
  {
    Pack(z, g, rows, Fresh(), 0, 0)
  }

  /** A cell being read: its value so far, the channel's remembered values, and the bytes still to come. */
  datatype Reading = Reading(cell: Note, last: Note, rest: seq<u8>) | OutOfData

  /** A row past the pattern's end cannot be written. */
  function Seen(visible: bool, n: Note): Note {
    if visible then n else EMPTY
  }

  function ReadNote(mask: u8, visible: bool, x: Reading): Reading {
    if x.OutOfData? || !HasBit(mask, WRITE_NOTE) then x
    else if x.rest == [] then OutOfData
    else
      var b := x.rest[0];
      var note := if b < 120 then b else if b == 255 then OFF else if b == 254 then CUT else EMPTY_FIELD;
      var cell := Seen(visible, x.cell.(note := note));
      Reading(cell, x.last.(note := cell.note), x.rest[1..])
  }

  function ReadInstrument(mask: u8, visible: bool, x: Reading): Reading {
    if x.OutOfData? || !HasBit(mask, WRITE_INSTRUMENT) then x
    else if x.rest == [] then OutOfData
    else
      var b := x.rest[0];
      var cell := Seen(visible, x.cell.(instrument := if b < 100 then (b - 1) % 0x100 else EMPTY_FIELD));
      Reading(cell, x.last.(instrument := cell.instrument), x.rest[1..])
  }

  function ReadVolume(mask: u8, visible: bool, x: Reading): Reading {
    if x.OutOfData? || !HasBit(mask, WRITE_VOLUME) then x
    else if x.rest == [] then OutOfData
    else
      var b := x.rest[0];
      var cell := Seen(visible, x.cell.(volume := if b < 213 then b else EMPTY_FIELD));
      Reading(cell, x.last.(volume := cell.volume), x.rest[1..])
  }

  function ReadCommand(z: bool, mask: u8, visible: bool, x: Reading): Reading {
    if x.OutOfData? || !HasBit(mask, WRITE_COMMAND) then x
    else if |x.rest| < 2 then OutOfData
    else
      var b := x.rest[0];
      var command := if b < 213 then (b - 1) % 0x100 else EMPTY_FIELD;
      var cell := Seen(visible, x.cell.(command := command, parameter := x.rest[1]));
      Reading(cell,
              x.last.(command := cell.command, parameter := LoadedParameter(z, cell.command, cell.parameter)),
              x.rest[2..])
  }

  function Reuse(mask: u8, visible: bool, x: Reading): Reading {
    if x.OutOfData? then x else
    var n := if HasBit(mask, REUSE_NOTE) then x.cell.(note := x.last.note) else x.cell;
    var i := if HasBit(mask, REUSE_INSTRUMENT) then n.(instrument := x.last.instrument) else n;
    var v := if HasBit(mask, REUSE_VOLUME) then i.(volume := x.last.volume) else i;
    var c := if HasBit(mask, REUSE_COMMAND) then v.(command := x.last.command, parameter := x.last.parameter) else v;
    x.(cell := Seen(visible, c))
  }

  function ReadCell(z: bool, mask: u8, visible: bool, x: Reading): Reading {
    Reuse(mask, visible,
          ReadCommand(z, mask, visible,
                      ReadVolume(mask, visible, ReadInstrument(mask, visible, ReadNote(mask, visible, x)))))
  }

  lemma ReadCellConsumes(z: bool, mask: u8, visible: bool, x: Reading)
    ensures var y := ReadCell(z, mask, visible, x); x.Reading? && y.Reading? ==> |y.rest| <= |x.rest|
  {
    hide HasBit;
  }

  datatype Unpacked = Unpacked(grid: Grid, rest: seq<u8>) | Truncated

  /** The cell as the loader sees it: rows past the pattern's end read as empty. */
  function Peek(g: Grid, c: nat, r: nat): Note {
    if c < |g| && r < |g[c]| then g[c][r] else EMPTY
  }

  function Poke(g: Grid, c: nat, r: nat, n: Note): Grid {
    if c < |g| && r < |g[c]| then Put(g, c, r, n) else g
  }

  datatype Stepped = Stepped(channels: seq<Channel>, grid: Grid, rest: seq<u8>) | Stuck

  /** Reads one marked cell of the given row. */
  function ReadMarked(z: bool, channels: seq<Channel>, g: Grid, row: nat, s: seq<u8>): (step: Stepped)
    requires |channels| == PATTERN_WIDTH && |g| == PATTERN_WIDTH && s != []
    ensures step.Stepped? ==>
      |step.channels| == PATTERN_WIDTH && |step.grid| == PATTERN_WIDTH && |step.rest| < |s|
  {
    var c := (s[0] - 1) % PATTERN_WIDTH;
    var marked := s[0] >= 128;
    if marked && |s| < 2 then Stuck else
    var mask := if marked then s[1] else channels[c].mask;
    var start := Reading(Peek(g, c, row), channels[c].cache, if marked then s[2..] else s[1..]);
    ReadCellConsumes(z, mask, row < |g[c]|, start);
    match ReadCell(z, mask, row < |g[c]|, start)
    case OutOfData => Stuck
    case Reading(cell, last, rest) => Stepped(channels[c := Channel(last, mask)], Poke(g, c, row, cell), rest)
  }

  /** The loader from a given row on, until it has seen the end of as many rows as the file announces. */
  function Unpack(z: bool, rows: nat, channels: seq<Channel>, g: Grid, row: nat, s: seq<u8>): Unpacked
    requires |channels| == PATTERN_WIDTH && |g| == PATTERN_WIDTH
    decreases |s|
  {
    if s == [] then Truncated
    else if s[0] == 0 then
      if row + 1 < rows then Unpack(z, rows, channels, g, row + 1, s[1..]) else Unpacked(g, s[1..])
    else
      match ReadMarked(z, channels, g, row, s)
      case Stuck => Truncated
      case Stepped(channels', h, rest) =>
        if row < rows then Unpack(z, rows, channels', h, row, rest) else Unpacked(h, rest)
  }
}
