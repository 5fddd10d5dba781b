/** The packed pattern format in numbers: what the bytes of a pattern are, and what a loader makes of any bytes. */
module PatternFormat {
  import opened BitMath
  import opened Notes
  import opened PatternStore
  import opened PatternCodec

  /** Notes below 120 as themselves, note off as 255, note cut as 254. */
  function NoteBytes(n: Note): seq<u8> {
    if n.note == 255 then [] else if n.note == 254 then [255] else if n.note == 253 then [254] else [n.note]
  }

  function InstrumentBytes(n: Note): seq<u8> {
    if n.instrument == 255 then [] else [n.instrument as int + 1]
  }

  function VolumeBytes(n: Note): seq<u8> {
    if n.volume == 255 then [] else [n.volume]
  }

  /** A parameter without a command goes with command 0. */
  function CommandBytes(n: Note): seq<u8> {
    if n.command == 255 && n.parameter == 0 then []
    else [if n.command == 255 then 0 else n.command as int + 1, n.parameter]
  }

  function If(condition: bool, bit: u8): u8 {
    if condition then bit else 0
  }

  /** The mask names the fields that follow. */
  function FieldMask(n: Note): u8 {
    If(n.note != 255, 1) + If(n.instrument != 255, 2) + If(n.volume != 255, 4) as int
    + If(n.command != 255 || n.parameter != 0, 8)
  }

  /** The first cell of a channel. */
  function CellBytes(channel: nat, n: Note): seq<u8>
    requires channel < 64
  {
    [channel + 129, FieldMask(n)] + (NoteBytes(n) + InstrumentBytes(n) + VolumeBytes(n) + CommandBytes(n))
  }

  function RowBytes(g: Grid, r: nat, channel: nat): seq<u8>
    requires |g| == 64 && channel <= 64 && forall c | 0 <= c < 64 :: r < |g[c]|
    decreases 64 - channel
  {
    if channel == 64 then []
    else (if g[channel][r] == EMPTY then [] else CellBytes(channel, g[channel][r])) + RowBytes(g, r, channel + 1)
  }

  function Zeros(n: nat): (s: seq<u8>)
    ensures |s| == n
  {
    seq(n, _ => 0)
  }

  lemma ZerosAdd(m: nat, n: nat)
    ensures Zeros(m + n) == Zeros(m) + Zeros(n)
  {
  }

  lemma FewZeros()
    ensures Zeros(0) == [] && Zeros(1) == [0]
  {
  }

  predicate EmptyFrom(g: Grid, rows: nat, r: nat, j: nat) {
    Shape(g, rows) && (forall c | j <= c < PATTERN_WIDTH && r < rows :: g[c][r] == EMPTY)
    && forall c, q | 0 <= c < PATTERN_WIDTH && r < q < rows :: g[c][q] == EMPTY
  }

  /** Empty rows are a zero each. */
  lemma {:induction false} PackEmptyRows(z: bool, g: Grid, rows: nat, channels: seq<Channel>, r: nat, j: nat)
    requires EmptyFrom(g, rows, r, j) && |channels| == PATTERN_WIDTH && r <= rows && j <= PATTERN_WIDTH
    ensures Pack(z, g, rows, channels, r, j) == Zeros(rows - r)
    decreases rows - r, PATTERN_WIDTH - j
  {
    if r == rows {
    } else if j == PATTERN_WIDTH {
      PackEmptyRows(z, g, rows, channels, r + 1, 0);
      ZerosAdd(1, rows - r - 1);
    } else {
      PackEmptyRows(z, g, rows, channels, r, j + 1);
    }
  }

  /** The bytes of a cell in a channel that has not been used yet. */
  lemma FirstCell(j: nat, n: Note)
    requires j < PATTERN_WIDTH && n != EMPTY
    ensures var flags := Flags(EMPTY, n); Mark(j, 0, flags) + Fields(flags, n) == CellBytes(j, n)
  {
    hide HasBit, Fields;
    var flags := Flags(EMPTY, n);
    FlagBitsOf(FieldFlag(255, n.note, 1), FieldFlag(255, n.instrument, 2), FieldFlag(255, n.volume, 4),
               CommandFlag(EMPTY, n));
    FieldsInBytes(flags, n);
    assert flags == FieldMask(n) && flags != 0;
  }

  /** The fields that the low bits of a mask name. */
  lemma FieldsInBytes(flags: u8, n: Note)
    requires (n.note == 255 ==> !HasBit(flags, 1)) && (n.instrument == 255 ==> !HasBit(flags, 2))
    requires (n.volume == 255 ==> !HasBit(flags, 4)) && (n.command == 255 && n.parameter == 0 ==> !HasBit(flags, 8))
    ensures Fields(flags, n) ==
      (if HasBit(flags, 1) then NoteBytes(n) else []) + (if HasBit(flags, 2) then InstrumentBytes(n) else [])
      + (if HasBit(flags, 4) then VolumeBytes(n) else []) + (if HasBit(flags, 8) then CommandBytes(n) else [])
  {
    hide HasBit, Part, NoteBytes, InstrumentBytes, VolumeBytes, CommandBytes, NoteByte;
    FieldBytes(n);
    PartIs(flags, 1, [NoteByte(n.note)]);
    PartIs(flags, 2, [(n.instrument + 1) % 0x100]);
    PartIs(flags, 4, [n.volume]);
    PartIs(flags, 8, [(n.command + 1) % 0x100, n.parameter]);
    LeftToRight(if HasBit(flags, 1) then NoteBytes(n) else [], if HasBit(flags, 2) then InstrumentBytes(n) else [],
                if HasBit(flags, 4) then VolumeBytes(n) else [], if HasBit(flags, 8) then CommandBytes(n) else []);
  }

  lemma FieldBytes(n: Note)
    ensures n.note != 255 ==> NoteBytes(n) == [NoteByte(n.note)]
    ensures n.instrument != 255 ==> InstrumentBytes(n) == [(n.instrument + 1) % 0x100]
    ensures n.volume != 255 ==> VolumeBytes(n) == [n.volume]
    ensures n.command != 255 || n.parameter != 0 ==> CommandBytes(n) == [(n.command + 1) % 0x100, n.parameter]
  {
  }

  lemma PartIs(flags: u8, bit: u8, bytes: seq<u8>)
    requires 0 < bit
    ensures Part(flags, bit, bytes) == if HasBit(flags, bit) then bytes else []
  {
  }

  lemma LeftToRight(a: seq<u8>, b: seq<u8>, c: seq<u8>, d: seq<u8>)
    ensures a + (b + (c + d)) == a + b + c + d
  {
  }

  /** The write bits of a mask made of one flag for each field. */
  lemma FlagBitsOf(a: int, b: int, c: int, d: int)
    requires (a == 0 || a == 1 || a == 16) && (b == 0 || b == 2 || b == 32)
    requires (c == 0 || c == 4 || c == 64) && (d == 0 || d == 8 || d == 128)
    ensures HasBit(a + b + c + d, 1) <==> a == 1
    ensures HasBit(a + b + c + d, 2) <==> b == 2
    ensures HasBit(a + b + c + d, 4) <==> c == 4
    ensures HasBit(a + b + c + d, 8) <==> d == 8
  {
    hide HasBit;
    LowFlags(a, b, c, d);
    HighFlags(a, b, c, d);
  }

  lemma LowFlags(a: int, b: int, c: int, d: int)
    requires (a == 0 || a == 1 || a == 16) && (b == 0 || b == 2 || b == 32)
    requires (c == 0 || c == 4 || c == 64) && (d == 0 || d == 8 || d == 128)
    ensures HasBit(a + b + c + d, 1) <==> a == 1
    ensures HasBit(a + b + c + d, 2) <==> b == 2
  {
  }

  lemma HighFlags(a: int, b: int, c: int, d: int)
    requires (a == 0 || a == 1 || a == 16) && (b == 0 || b == 2 || b == 32)
    requires (c == 0 || c == 4 || c == 64) && (d == 0 || d == 8 || d == 128)
    ensures HasBit(a + b + c + d, 4) <==> c == 4
    ensures HasBit(a + b + c + d, 8) <==> d == 8
  {
  }

  /** Channels not yet passed in the row have not been used. */
  predicate UnusedFrom(channels: seq<Channel>, j: nat) {
    |channels| == PATTERN_WIDTH && forall c | j <= c < PATTERN_WIDTH :: channels[c] == UNUSED
  }

  lemma {:induction false} PackFirstRow(z: bool, g: Grid, rows: nat, channels: seq<Channel>, r: nat, j: nat)
    requires Shape(g, rows) && r < rows && j <= PATTERN_WIDTH && UnusedFrom(channels, j)
    requires forall c, q | 0 <= c < PATTERN_WIDTH && r < q < rows :: g[c][q] == EMPTY
    ensures Pack(z, g, rows, channels, r, j) == RowBytes(g, r, j) + Zeros(rows - r)
    decreases PATTERN_WIDTH - j
  {
    hide Flags, Mark, Fields, CellBytes, Remember;
    if j == PATTERN_WIDTH {
      PackEmptyRows(z, g, rows, channels, r + 1, 0);
      ZerosAdd(1, rows - r - 1);
    } else if g[j][r] == EMPTY {
      PackFirstRow(z, g, rows, channels, r, j + 1);
    } else {
      FirstCell(j, g[j][r]);
      PackFirstRow(z, g, rows, channels[j := After(z, channels[j], g[j][r])], r, j + 1);
      var cell, row := CellBytes(j, g[j][r]), RowBytes(g, r, j + 1);
      assert cell + (row + Zeros(rows - r)) == (cell + row) + Zeros(rows - r);
    }
  }

  /** A pattern with cells in one row only, byte for byte: a zero ends each row, the channels follow in turn. */
  lemma {:induction false} OneRowInBytes(z: bool, g: Grid, rows: nat, r: nat)
    requires Shape(g, rows) && r < rows
    requires forall c, q | 0 <= c < PATTERN_WIDTH && 0 <= q < rows && q != r :: g[c][q] == EMPTY
    ensures PackGrid(z, g, rows) == Zeros(r) + RowBytes(g, r, 0) + Zeros(rows - r)
  {
    hide Pack, RowBytes, Zeros;
    RowsBefore(z, g, rows, r, 0, 0);
    assert Zeros(r - 0) + (RowBytes(g, r, 0) + Zeros(rows - r)) == Zeros(r) + RowBytes(g, r, 0) + Zeros(rows - r);
  }

  lemma {:induction false} RowsBefore(z: bool, g: Grid, rows: nat, r: nat, q: nat, j: nat)
    requires Shape(g, rows) && q <= r < rows && j <= PATTERN_WIDTH && (q == r ==> j == 0)
    requires forall c, i | 0 <= c < PATTERN_WIDTH && 0 <= i < rows && i != r :: g[c][i] == EMPTY
    ensures Pack(z, g, rows, Fresh(), q, j) == Zeros(r - q) + (RowBytes(g, r, 0) + Zeros(rows - r))
    decreases r - q, PATTERN_WIDTH - j
  {
    hide RowBytes, Zeros, Flags, Mark, Fields, Remember;
    var rest := RowBytes(g, r, 0) + Zeros(rows - r);
    FewZeros();
    if q == r {
      PackFirstRow(z, g, rows, Fresh(), r, 0);
      assert [] + rest == rest;
    } else if j == PATTERN_WIDTH {
      RowsBefore(z, g, rows, r, q + 1, 0);
      ZerosAdd(1, r - q - 1);
      assert [0] + (Zeros(r - q - 1) + rest) == ([0] + Zeros(r - q - 1)) + rest;
    } else {
      RowsBefore(z, g, rows, r, q, j + 1);
    }
  }

  /** What is remembered of a cell's command: an .it file doubles the parameters of Z commands up to 127. */
  function KnownParameter(z: bool, n: Note): u8 {
    if z && n.command == 25 && n.parameter < 127 then if n.parameter < 64 then 2 * n.parameter as int else 127
    else n.parameter
  }

  /** The flag of a field that comes again: 16 times its bit when it has not changed. */
  function Again(empty: bool, same: bool, bit: int): int {
    if empty then 0 else if same then 16 * bit else bit
  }

  function NoteFlag(a: Note, b: Note): int {
    Again(b.note == 255, b.note == a.note, 1)
  }

  function InstrumentFlag(a: Note, b: Note): int {
    Again(b.instrument == 255, b.instrument == a.instrument, 2)
  }

  function VolumeFlag(a: Note, b: Note): int {
    Again(b.volume == 255, b.volume == a.volume, 4)
  }

  function CommandAgain(z: bool, a: Note, b: Note): int {
    Again(b.command == 255 && b.parameter == 0, b.command == a.command && b.parameter == KnownParameter(z, a), 8)
  }

  /** The second cell of a channel: only what has changed, and no mask if that is the same. */
  function NextBytes(z: bool, channel: nat, a: Note, b: Note): seq<u8>
    requires channel < 64
  {
    var mask := NoteFlag(a, b) + InstrumentFlag(a, b) + VolumeFlag(a, b) + CommandAgain(z, a, b);
    (if mask == FieldMask(a) as int then [channel + 1] else [channel + 129, mask])
    + ((if NoteFlag(a, b) == 1 then NoteBytes(b) else [])
       + (if InstrumentFlag(a, b) == 2 then InstrumentBytes(b) else [])
       + (if VolumeFlag(a, b) == 4 then VolumeBytes(b) else [])
       + (if CommandAgain(z, a, b) == 8 then CommandBytes(b) else []))
  }

  lemma NextCell(z: bool, j: nat, a: Note, b: Note)
    requires j < PATTERN_WIDTH && a != EMPTY && b != EMPTY
    ensures var ch := Channel(Remember(z, EMPTY, a), FieldMask(a));
      Mark(j, ch.mask, Flags(ch.cache, b)) + Fields(Flags(ch.cache, b), b) == NextBytes(z, j, a, b)
  {
    hide KnownParameter, HasBit, Fields, FieldFlag, CommandFlag, Remember, FieldMask, NoteBytes, InstrumentBytes,
      VolumeBytes, CommandBytes;
    SameFlags(z, a, b);
    var flags := Flags(Remember(z, EMPTY, a), b);
    FlagBitsOf(NoteFlag(a, b), InstrumentFlag(a, b), VolumeFlag(a, b), CommandAgain(z, a, b));
    FieldsInBytes(flags, b);
    assert flags as int == NoteFlag(a, b) + InstrumentFlag(a, b) + VolumeFlag(a, b) + CommandAgain(z, a, b);
  }

  lemma SameFlags(z: bool, a: Note, b: Note)
    ensures var cache := Remember(z, EMPTY, a);
      && FieldFlag(cache.note, b.note, 1) == NoteFlag(a, b)
      && FieldFlag(cache.instrument, b.instrument, 2) == InstrumentFlag(a, b)
      && FieldFlag(cache.volume, b.volume, 4) == VolumeFlag(a, b)
      && CommandFlag(cache, b) == CommandAgain(z, a, b)
  {
  }

  /** The cells from one place to another, in the order they are saved. */
  predicate EmptyBetween(g: Grid, r: nat, j: nat, q: nat, i: nat)
    requires |g| == PATTERN_WIDTH && forall c | 0 <= c < PATTERN_WIDTH :: q < |g[c]|
  {
    forall c, p | 0 <= c < PATTERN_WIDTH && r <= p <= q && (p == r ==> j <= c) && (p == q ==> c < i) ::
      g[c][p] == EMPTY
  }

  lemma {:induction false} SkipEmpty(
      z: bool, g: Grid, rows: nat, channels: seq<Channel>, r: nat, j: nat, q: nat, i: nat)
    requires Shape(g, rows) && |channels| == PATTERN_WIDTH && r <= q < rows && j <= PATTERN_WIDTH && i <= PATTERN_WIDTH
    requires (r == q ==> j <= i) && EmptyBetween(g, r, j, q, i)
    ensures Pack(z, g, rows, channels, r, j) == Zeros(q - r) + Pack(z, g, rows, channels, q, i)
    decreases q - r, PATTERN_WIDTH - j
  {
    hide Zeros, Flags, Mark, Fields, Remember;
    FewZeros();
    if r == q && j == i {
      assert [] + Pack(z, g, rows, channels, q, i) == Pack(z, g, rows, channels, q, i);
    } else if j == PATTERN_WIDTH {
      SkipEmpty(z, g, rows, channels, r + 1, 0, q, i);
      ZerosAdd(1, q - r - 1);
      var rest := Pack(z, g, rows, channels, q, i);
      assert [0] + (Zeros(q - r - 1) + rest) == ([0] + Zeros(q - r - 1)) + rest;
    } else {
      SkipEmpty(z, g, rows, channels, r, j + 1, q, i);
    }
  }

  /** A pattern with two cells, in the same channel, byte for byte. */
  lemma TwoCellsInBytes(z: bool, g: Grid, rows: nat, c: nat, r: nat, q: nat)
    requires Shape(g, rows) && c < PATTERN_WIDTH && r < q < rows && g[c][r] != EMPTY && g[c][q] != EMPTY
    requires forall i, p | 0 <= i < PATTERN_WIDTH && 0 <= p < rows && !(i == c && (p == r || p == q)) ::
      g[i][p] == EMPTY
    ensures PackGrid(z, g, rows) ==
      Zeros(r) + (CellBytes(c, g[c][r]) + (Zeros(q - r) + (NextBytes(z, c, g[c][r], g[c][q]) + Zeros(rows - q))))
  {
    hide Zeros, Flags, Mark, Fields, Remember, CellBytes, NextBytes;
    var a, b, channels := g[c][r], g[c][q], Fresh();
    SkipEmpty(z, g, rows, channels, 0, 0, r, c);
    FirstCell(c, a);
    FirstFlags(a);
    var used := channels[c := After(z, channels[c], a)];
    SkipEmpty(z, g, rows, used, r, c + 1, q, c);
    NextCell(z, c, a, b);
    PackEmptyRows(z, g, rows, used[c := After(z, used[c], b)], q, c + 1);
  }

  lemma FirstFlags(n: Note)
    ensures Flags(EMPTY, n) == FieldMask(n)
  {
  }

  /** What the bytes of a cell's fields mean; a byte no saver writes gives an empty field. */
  function NoteFrom(b: u8): u8 {
    if b < 120 then b else if b == 255 then 254 else if b == 254 then 253 else 255
  }

  function InstrumentFrom(b: u8): u8 {
    if 1 <= b < 100 then b - 1 else 255
  }

  function VolumeFrom(b: u8): u8 {
    if b < 213 then b else 255
  }

  function CommandFrom(b: u8): u8 {
    if 1 <= b < 213 then b - 1 else 255
  }

  /** The bytes of a cell as they stand in the file, those its mask names. */
  datatype Raw = Raw(note: u8, instrument: u8, volume: u8, command: u8, parameter: u8)

  predicate Bit(mask: u8, k: nat)
    requires k < 8
  {
    (mask / [1, 2, 4, 8, 16, 32, 64, 128][k]) % 2 == 1
  }

  function RawBytes(mask: u8, raw: Raw): seq<u8> {
    (if Bit(mask, 0) then [raw.note] else []) + ((if Bit(mask, 1) then [raw.instrument] else [])
    + ((if Bit(mask, 2) then [raw.volume] else []) + (if Bit(mask, 3) then [raw.command, raw.parameter] else [])))
  }

  /** An .it file halves the parameters of Z commands before they are used again. */
  function HalvedParameter(z: bool, command: u8, parameter: u8): u8 {
    if z && command == 25 && parameter < 127 then parameter / 2 else parameter
  }

  /** What a channel remembers after a cell: every field that was read. */
  function LastFrom(z: bool, mask: u8, raw: Raw, last: Note): Note {
    Note(
      if Bit(mask, 0) then NoteFrom(raw.note) else last.note,
      if Bit(mask, 1) then InstrumentFrom(raw.instrument) else last.instrument,
      if Bit(mask, 2) then VolumeFrom(raw.volume) else last.volume,
      if Bit(mask, 3) then CommandFrom(raw.command) else last.command,
      if Bit(mask, 3) then HalvedParameter(z, CommandFrom(raw.command), raw.parameter) else last.parameter)
  }

  /** The cell: the high bits take what is remembered by then. */
  function CellFrom(z: bool, mask: u8, raw: Raw, last: Note): Note {
    var known := LastFrom(z, mask, raw, last);
    Note(
      if Bit(mask, 4) then known.note else if Bit(mask, 0) then NoteFrom(raw.note) else 255,
      if Bit(mask, 5) then known.instrument else if Bit(mask, 1) then InstrumentFrom(raw.instrument) else 255,
      if Bit(mask, 6) then known.volume else if Bit(mask, 2) then VolumeFrom(raw.volume) else 255,
      if Bit(mask, 7) then known.command else if Bit(mask, 3) then CommandFrom(raw.command) else 255,
      if Bit(mask, 7) then known.parameter else if Bit(mask, 3) then raw.parameter else 0)
  }

  lemma BitsAreBits(mask: u8)
    ensures Bit(mask, 0) == HasBit(mask, WRITE_NOTE) && Bit(mask, 1) == HasBit(mask, WRITE_INSTRUMENT)
    ensures Bit(mask, 2) == HasBit(mask, WRITE_VOLUME) && Bit(mask, 3) == HasBit(mask, WRITE_COMMAND)
    ensures Bit(mask, 4) == HasBit(mask, REUSE_NOTE) && Bit(mask, 5) == HasBit(mask, REUSE_INSTRUMENT)
    ensures Bit(mask, 6) == HasBit(mask, REUSE_VOLUME) && Bit(mask, 7) == HasBit(mask, REUSE_COMMAND)
  {
  }

  lemma NoteIsRead(mask: u8, b: u8, cell: Note, last: Note, rest: seq<u8>)
    ensures ReadNote(mask, true, Reading(cell, last, (if Bit(mask, 0) then [b] else []) + rest)) ==
      if Bit(mask, 0)
      then Reading(cell.(note := NoteFrom(b)), last.(note := NoteFrom(b)), rest)
      else Reading(cell, last, rest)
  {
    hide HasBit, Bit;
    BitsAreBits(mask);
    assert [b] + rest != [] && ([b] + rest)[1..] == rest && [] + rest == rest;
  }

  lemma InstrumentIsRead(mask: u8, b: u8, cell: Note, last: Note, rest: seq<u8>)
    ensures ReadInstrument(mask, true, Reading(cell, last, (if Bit(mask, 1) then [b] else []) + rest)) ==
      if Bit(mask, 1)
      then Reading(cell.(instrument := InstrumentFrom(b)), last.(instrument := InstrumentFrom(b)), rest)
      else Reading(cell, last, rest)
  {
    hide HasBit, Bit;
    BitsAreBits(mask);
    assert [b] + rest != [] && ([b] + rest)[1..] == rest && [] + rest == rest;
  }

  lemma VolumeIsRead(mask: u8, b: u8, cell: Note, last: Note, rest: seq<u8>)
    ensures ReadVolume(mask, true, Reading(cell, last, (if Bit(mask, 2) then [b] else []) + rest)) ==
      if Bit(mask, 2)
      then Reading(cell.(volume := VolumeFrom(b)), last.(volume := VolumeFrom(b)), rest)
      else Reading(cell, last, rest)
  {
    hide HasBit, Bit;
    BitsAreBits(mask);
    assert [b] + rest != [] && ([b] + rest)[1..] == rest && [] + rest == rest;
  }

  lemma CommandIsRead(z: bool, mask: u8, b: u8, p: u8, cell: Note, last: Note, rest: seq<u8>)
    ensures ReadCommand(z, mask, true, Reading(cell, last, (if Bit(mask, 3) then [b, p] else []) + rest)) ==
      if Bit(mask, 3)
      then Reading(cell.(command := CommandFrom(b), parameter := p),
                   last.(command := CommandFrom(b), parameter := HalvedParameter(z, CommandFrom(b), p)), rest)
      else Reading(cell, last, rest)
  {
    hide HasBit, Bit;
    BitsAreBits(mask);
    assert ([b, p] + rest)[2..] == rest && [] + rest == rest;
  }

  lemma ReuseIs(mask: u8, cell: Note, last: Note, rest: seq<u8>)
    ensures Reuse(mask, true, Reading(cell, last, rest)) ==
      Reading(Note(if Bit(mask, 4) then last.note else cell.note,
                   if Bit(mask, 5) then last.instrument else cell.instrument,
                   if Bit(mask, 6) then last.volume else cell.volume,
                   if Bit(mask, 7) then last.command else cell.command,
                   if Bit(mask, 7) then last.parameter else cell.parameter), last, rest)
  {
    hide HasBit, Bit;
    BitsAreBits(mask);
  }

  /** A cell that is in sight and empty so far. */
  lemma CellIsRead(z: bool, mask: u8, raw: Raw, last: Note, rest: seq<u8>)
    ensures ReadCell(z, mask, true, Reading(EMPTY, last, RawBytes(mask, raw) + rest)) ==
      Reading(CellFrom(z, mask, raw, last), LastFrom(z, mask, raw, last), rest)
  {
    hide HasBit, Bit, ReadNote, ReadInstrument, ReadVolume, ReadCommand, Reuse, NoteFrom, InstrumentFrom, VolumeFrom,
      CommandFrom, HalvedParameter;
    var d := (if Bit(mask, 3) then [raw.command, raw.parameter] else []) + rest;
    var c := (if Bit(mask, 2) then [raw.volume] else []) + d;
    var b := (if Bit(mask, 1) then [raw.instrument] else []) + c;
    assert RawBytes(mask, raw) + rest == (if Bit(mask, 0) then [raw.note] else []) + b;
    NoteIsRead(mask, raw.note, EMPTY, last, b);
    var n := ReadNote(mask, true, Reading(EMPTY, last, RawBytes(mask, raw) + rest));
    InstrumentIsRead(mask, raw.instrument, n.cell, n.last, c);
    var i := ReadInstrument(mask, true, n);
    VolumeIsRead(mask, raw.volume, i.cell, i.last, d);
    var v := ReadVolume(mask, true, i);
    CommandIsRead(z, mask, raw.command, raw.parameter, v.cell, v.last, rest);
    var x := ReadCommand(z, mask, true, v);
    ReuseIs(mask, x.cell, x.last, rest);
  }

  /** A byte from 1 on marks a channel; from 128 on its mask follows, below it has the one it had. */
  function MarkBytes(mark: u8, mask: u8): seq<u8> {
    if mark < 128 then [mark] else [mark, mask]
  }

  predicate Marks(mark: u8, channel: nat) {
    mark != 0 && (mark as int - 1) % 64 == channel
  }

  lemma MarkedIsRead(
      z: bool, channels: seq<Channel>, g: Grid, row: nat, c: nat, mark: u8, mask: u8, raw: Raw, rest: seq<u8>)
    requires |channels| == PATTERN_WIDTH == |g| && c < PATTERN_WIDTH && row < |g[c]| && g[c][row] == EMPTY
    requires Marks(mark, c) && (mark < 128 ==> channels[c].mask == mask)
    ensures ReadMarked(z, channels, g, row, MarkBytes(mark, mask) + (RawBytes(mask, raw) + rest)) ==
      Stepped(channels[c := Channel(LastFrom(z, mask, raw, channels[c].cache), mask)],
              Put(g, c, row, CellFrom(z, mask, raw, channels[c].cache)), rest)
  {
    hide ReadCell, RawBytes, LastFrom, CellFrom;
    var s := MarkBytes(mark, mask) + (RawBytes(mask, raw) + rest);
    assert s[(if mark < 128 then 1 else 2)..] == RawBytes(mask, raw) + rest;
    CellIsRead(z, mask, raw, channels[c].cache, rest);
  }

  lemma {:induction false} UnpackZeros(
      z: bool, rows: nat, channels: seq<Channel>, g: Grid, row: nat, n: nat, rest: seq<u8>)
    requires |channels| == PATTERN_WIDTH == |g| && row + n < rows
    ensures Unpack(z, rows, channels, g, row, Zeros(n) + rest) == Unpack(z, rows, channels, g, row + n, rest)
    decreases n
  {
    hide Zeros, ReadMarked;
    FewZeros();
    if n == 0 {
      assert [] + rest == rest;
    } else {
      ZerosAdd(1, n - 1);
      assert Zeros(n) + rest == [0] + (Zeros(n - 1) + rest);
      UnpackZeros(z, rows, channels, g, row + 1, n - 1, rest);
    }
  }

  /** The last rows, to the end of the pattern. */
  lemma UnpackToEnd(z: bool, rows: nat, channels: seq<Channel>, g: Grid, row: nat, tail: seq<u8>)
    requires |channels| == PATTERN_WIDTH == |g| && row < rows
    ensures Unpack(z, rows, channels, g, row, Zeros(rows - row) + tail) == Unpacked(g, tail)
  {
    hide Zeros, ReadMarked;
    FewZeros();
    ZerosAdd(rows - row - 1, 1);
    assert Zeros(rows - row) + tail == Zeros(rows - row - 1) + ([0] + tail);
    UnpackZeros(z, rows, channels, g, row, rows - row - 1, [0] + tail);
  }

  lemma UnpackCell(
      z: bool, rows: nat, channels: seq<Channel>, g: Grid, row: nat, c: nat, mark: u8, mask: u8, raw: Raw,
      rest: seq<u8>)
    requires |channels| == PATTERN_WIDTH && Shape(g, rows) && c < PATTERN_WIDTH && row < rows && g[c][row] == EMPTY
    requires Marks(mark, c) && (mark < 128 ==> channels[c].mask == mask)
    ensures Unpack(z, rows, channels, g, row, MarkBytes(mark, mask) + (RawBytes(mask, raw) + rest)) ==
      Unpack(z, rows, channels[c := Channel(LastFrom(z, mask, raw, channels[c].cache), mask)],
             Put(g, c, row, CellFrom(z, mask, raw, channels[c].cache)), row, rest)
  {
    hide ReadMarked, RawBytes, LastFrom, CellFrom;
    MarkedIsRead(z, channels, g, row, c, mark, mask, raw, rest);
  }

  /**
   * Any two cells of a channel, with any marks, masks and bytes, those included that no saver writes: what the loader
   * makes of them in an empty pattern.
   */
  lemma BytesInTwoCells(
      z: bool, rows: nat, c: nat, r: nat, q: nat, mark: u8, first: u8, a: Raw, again: u8, second: u8, b: Raw,
      tail: seq<u8>)
    requires c < PATTERN_WIDTH && r < q < rows && Marks(mark, c) && 128 <= mark && Marks(again, c)
    requires again < 128 ==> second == first
    ensures
      var file := Zeros(r) + (MarkBytes(mark, first) + (RawBytes(first, a)
        + (Zeros(q - r) + (MarkBytes(again, second) + (RawBytes(second, b) + (Zeros(rows - q) + tail))))));
      var known := LastFrom(z, first, a, EMPTY);
      Unpack(z, rows, Fresh(), EmptyGrid(rows), 0, file) ==
      Unpacked(Put(Put(EmptyGrid(rows), c, r, CellFrom(z, first, a, EMPTY)), c, q, CellFrom(z, second, b, known)), tail)
  {
    hide Unpack, Zeros, RawBytes, LastFrom, CellFrom, MarkBytes;
    var end := Zeros(rows - q) + tail;
    var later := Zeros(q - r) + (MarkBytes(again, second) + (RawBytes(second, b) + end));
    var g := EmptyGrid(rows);
    UnpackZeros(z, rows, Fresh(), g, 0, r, MarkBytes(mark, first) + (RawBytes(first, a) + later));
    UnpackCell(z, rows, Fresh(), g, r, c, mark, first, a, later);
    var channels := Fresh()[c := Channel(LastFrom(z, first, a, EMPTY), first)];
    var h := Put(g, c, r, CellFrom(z, first, a, EMPTY));
    UnpackZeros(z, rows, channels, h, r, q - r, MarkBytes(again, second) + (RawBytes(second, b) + end));
    UnpackCell(z, rows, channels, h, q, c, again, second, b, end);
    var known := channels[c].cache;
    UnpackToEnd(z, rows, channels[c := Channel(LastFrom(z, second, b, known), second)],
                Put(h, c, q, CellFrom(z, second, b, known)), q, tail);
  }
}
