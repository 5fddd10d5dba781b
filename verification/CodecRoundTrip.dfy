/** What comes back when a packed pattern is unpacked, for every pattern. */
module CodecRoundTrip {
  import opened BitMath
  import opened Notes
  import opened PatternStore
  import opened PatternCodec

  /** A field the format cannot hold comes back empty. */
  function Normal(n: Note): Note {
    Note(
      if n.note < NOTES || CUT <= n.note then n.note else EMPTY_FIELD,
      if n.instrument < 99 then n.instrument else EMPTY_FIELD,
      if n.volume < 213 then n.volume else EMPTY_FIELD,
      if n.command < 212 then n.command else EMPTY_FIELD,
      n.parameter)
  }

  lemma NormalIffLegal(n: Note)
    ensures Normal(n) == n <==> Legal(n)
  {
  }

  /** Both sides' caches after `last` was the last value written of every field. */
  function SaverCache(z: bool, last: Note): Note {
    last.(parameter := SavedParameter(z, last.command, last.parameter))
  }

  function LoaderCache(z: bool, last: Note): Note {
    Normal(last).(parameter := LoadedParameter(z, Normal(last).command, last.parameter))
  }

  predicate Reused(z: bool, last: Note, n: Note) {
    CommandFlag(SaverCache(z, last), n) == REUSE_COMMAND
  }

  function NextLast(z: bool, last: Note, n: Note): Note {
    var written := HasCommand(n) && !Reused(z, last, n);
    Note(
      if n.note != EMPTY_FIELD then n.note else last.note,
      if n.instrument != EMPTY_FIELD then n.instrument else last.instrument,
      if n.volume != EMPTY_FIELD then n.volume else last.volume,
      if written then n.command else last.command,
      if written then n.parameter else last.parameter)
  }

  /** The cell that comes back for n: only a reused parameter can differ from the normal form. */
  function LoadedCell(z: bool, last: Note, n: Note): Note {
    Normal(n).(parameter := if Reused(z, last, n) then LoaderCache(z, last).parameter else n.parameter)
  }

  function Digit(b: bool): int {
    if b then 1 else 0
  }

  function Nibble(a: bool, b: bool, c: bool, d: bool): int {
    Digit(a) + 2 * Digit(b) + 4 * Digit(c) + 8 * Digit(d)
  }

  lemma NibbleBits(a: bool, b: bool, c: bool, d: bool)
    ensures var x := Nibble(a, b, c, d);
      && 0 <= x < 16
      && (x % 2 == 1 <==> a) && (x / 2 % 2 == 1 <==> b) && (x / 4 % 2 == 1 <==> c) && (x / 8 % 2 == 1 <==> d)
  {
  }

  lemma TwoNibbles(low: int, high: int, flags: u8)
    requires 0 <= low < 16 && 0 <= high < 16 && flags == low + 16 * high
    ensures flags / 1 % 2 == low % 2 && flags / 2 % 2 == low / 2 % 2
    ensures flags / 4 % 2 == low / 4 % 2 && flags / 8 % 2 == low / 8 % 2
    ensures flags / 16 == high && flags / 32 == high / 2 && flags / 64 == high / 4 && flags / 128 == high / 8
  {
    LowDigits(low, high);
    HighDigits(low, high);
  }

  lemma LowDigits(low: int, high: int)
    ensures (low + 16 * high) % 2 == low % 2
    ensures (low + 16 * high) / 2 % 2 == low / 2 % 2
    ensures (low + 16 * high) / 4 % 2 == low / 4 % 2
    ensures (low + 16 * high) / 8 % 2 == low / 8 % 2
  {
    EvenPart(low, 8 * high);
    assert (low + 16 * high) / 2 == low / 2 + 2 * (4 * high);
    EvenPart(low / 2, 4 * high);
    assert (low + 16 * high) / 4 == low / 4 + 2 * (2 * high);
    EvenPart(low / 4, 2 * high);
    assert (low + 16 * high) / 8 == low / 8 + 2 * high;
    EvenPart(low / 8, high);
  }

  lemma HighDigits(low: int, high: int)
    requires 0 <= low < 16
    ensures (low + 16 * high) / 16 == high
    ensures (low + 16 * high) / 32 == high / 2
    ensures (low + 16 * high) / 64 == high / 4
    ensures (low + 16 * high) / 128 == high / 8
  {
  }

  /** The mask byte tells what was done with each field. */
  lemma FlagBits(a: int, b: int, c: int, d: int, flags: u8)
    requires (a == 0 || a == 1 || a == 16) && (b == 0 || b == 2 || b == 32)
    requires (c == 0 || c == 4 || c == 64) && (d == 0 || d == 8 || d == 128)
    requires flags == a + b + c + d
    ensures (HasBit(flags, WRITE_NOTE) <==> a == 1) && (HasBit(flags, REUSE_NOTE) <==> a == 16)
    ensures (HasBit(flags, WRITE_INSTRUMENT) <==> b == 2) && (HasBit(flags, REUSE_INSTRUMENT) <==> b == 32)
    ensures (HasBit(flags, WRITE_VOLUME) <==> c == 4) && (HasBit(flags, REUSE_VOLUME) <==> c == 64)
    ensures (HasBit(flags, WRITE_COMMAND) <==> d == 8) && (HasBit(flags, REUSE_COMMAND) <==> d == 128)
  {
    var low, high := Nibble(a == 1, b == 2, c == 4, d == 8), Nibble(a == 16, b == 32, c == 64, d == 128);
    assert flags == low + 16 * high;
    NibbleBits(a == 1, b == 2, c == 4, d == 8);
    NibbleBits(a == 16, b == 32, c == 64, d == 128);
    hide Nibble;
    TwoNibbles(low, high, flags);
  }

  /** The caches stay in step. */
  lemma CachesStep(z: bool, last: Note, n: Note)
    ensures Remember(z, SaverCache(z, last), n) == SaverCache(z, NextLast(z, last, n))
  {
  }

  lemma NoteBack(flags: u8, n: Note, cell: Note, last: Note, rest: seq<u8>)
    requires HasBit(flags, WRITE_NOTE) ==> n.note != EMPTY_FIELD
    ensures ReadNote(flags, true, Reading(cell, last, Part(flags, WRITE_NOTE, [NoteByte(n.note)]) + rest)) ==
            if HasBit(flags, WRITE_NOTE)
            then Reading(cell.(note := Normal(n).note), last.(note := Normal(n).note), rest)
            else Reading(cell, last, rest)
  {
    hide HasBit;
    assert [] + rest == rest;
  }

  lemma InstrumentBack(flags: u8, n: Note, cell: Note, last: Note, rest: seq<u8>)
    requires HasBit(flags, WRITE_INSTRUMENT) ==> n.instrument != EMPTY_FIELD
    ensures var part := Part(flags, WRITE_INSTRUMENT, [(n.instrument + 1) % 0x100]);
            ReadInstrument(flags, true, Reading(cell, last, part + rest)) ==
            if HasBit(flags, WRITE_INSTRUMENT)
            then Reading(cell.(instrument := Normal(n).instrument), last.(instrument := Normal(n).instrument), rest)
            else Reading(cell, last, rest)
  {
    hide HasBit;
    assert [] + rest == rest;
  }

  lemma VolumeBack(flags: u8, n: Note, cell: Note, last: Note, rest: seq<u8>)
    ensures ReadVolume(flags, true, Reading(cell, last, Part(flags, WRITE_VOLUME, [n.volume]) + rest)) ==
            if HasBit(flags, WRITE_VOLUME)
            then Reading(cell.(volume := Normal(n).volume), last.(volume := Normal(n).volume), rest)
            else Reading(cell, last, rest)
  {
    hide HasBit;
    assert [] + rest == rest;
  }

  lemma CommandBack(z: bool, flags: u8, n: Note, cell: Note, last: Note, rest: seq<u8>)
    ensures var part := Part(flags, WRITE_COMMAND, [(n.command + 1) % 0x100, n.parameter]);
            ReadCommand(z, flags, true, Reading(cell, last, part + rest)) ==
            if HasBit(flags, WRITE_COMMAND)
            then Reading(cell.(command := Normal(n).command, parameter := n.parameter),
                         last.(command := Normal(n).command,
                               parameter := LoadedParameter(z, Normal(n).command, n.parameter)),
                         rest)
            else Reading(cell, last, rest)
  {
    hide HasBit;
    assert [] + rest == rest;
    assert ([(n.command + 1) % 0x100, n.parameter] + rest)[2..] == rest;
  }

  /** The written fields, put over an earlier cell and over the remembered values. */
  function Overwrite(flags: u8, n: Note, cell: Note, command: u8, parameter: u8): Note {
    Note(
      if HasBit(flags, WRITE_NOTE) then Normal(n).note else cell.note,
      if HasBit(flags, WRITE_INSTRUMENT) then Normal(n).instrument else cell.instrument,
      if HasBit(flags, WRITE_VOLUME) then Normal(n).volume else cell.volume,
      if HasBit(flags, WRITE_COMMAND) then command else cell.command,
      if HasBit(flags, WRITE_COMMAND) then parameter else cell.parameter)
  }

  lemma FieldsBack(z: bool, flags: u8, n: Note, cell: Note, last: Note, more: seq<u8>)
    requires HasBit(flags, WRITE_NOTE) ==> n.note != EMPTY_FIELD
    requires HasBit(flags, WRITE_INSTRUMENT) ==> n.instrument != EMPTY_FIELD
    ensures ReadCell(z, flags, true, Reading(cell, last, Fields(flags, n) + more)) ==
            Reuse(flags, true, Reading(
              Overwrite(flags, n, cell, Normal(n).command, n.parameter),
              Overwrite(flags, n, last, Normal(n).command, LoadedParameter(z, Normal(n).command, n.parameter)),
              more))
  {
    hide HasBit, ReadNote, ReadInstrument, ReadVolume, ReadCommand, Part, LoadedParameter, Reuse, Normal;
    var p1 := Part(flags, WRITE_NOTE, [NoteByte(n.note)]);
    var p2 := Part(flags, WRITE_INSTRUMENT, [(n.instrument + 1) % 0x100]);
    var p3 := Part(flags, WRITE_VOLUME, [n.volume]);
    var p4 := Part(flags, WRITE_COMMAND, [(n.command + 1) % 0x100, n.parameter]);
    var s4 := p4 + more;
    var s3 := p3 + s4;
    var s2 := p2 + s3;
    assert Fields(flags, n) + more == p1 + s2;
    NoteBack(flags, n, cell, last, s2);
    var x1 := ReadNote(flags, true, Reading(cell, last, p1 + s2));
    InstrumentBack(flags, n, x1.cell, x1.last, s3);
    var x2 := ReadInstrument(flags, true, x1);
    VolumeBack(flags, n, x2.cell, x2.last, s4);
    var x3 := ReadVolume(flags, true, x2);
    CommandBack(z, flags, n, x3.cell, x3.last, more);
  }

  /** Reading back the bytes of one cell, whatever follows them. */
  lemma ReadsBack(z: bool, last: Note, n: Note, more: seq<u8>)
    ensures var flags := Flags(SaverCache(z, last), n);
      ReadCell(z, flags, true, Reading(EMPTY, LoaderCache(z, last), Fields(flags, n) + more)) ==
      Reading(LoadedCell(z, last, n), LoaderCache(z, NextLast(z, last, n)), more)
  {
    hide HasBit, ReadCell, Fields, LoadedParameter, SavedParameter;
    var cache := SaverCache(z, last);
    var flags := Flags(cache, n);
    FlagBits(FieldFlag(cache.note, n.note, WRITE_NOTE), FieldFlag(cache.instrument, n.instrument, WRITE_INSTRUMENT),
             FieldFlag(cache.volume, n.volume, WRITE_VOLUME), CommandFlag(cache, n), flags);
    FieldsBack(z, flags, n, EMPTY, LoaderCache(z, last), more);
  }

  /** What a column comes back as, when `last` holds the values last written to its channel. */
  function LoadedColumn(z: bool, last: Note, column: seq<Note>): (loaded: seq<Note>)
    ensures |loaded| == |column|
    decreases |column|
  {
    if column == [] then []
    else [LoadedCell(z, last, column[0])] + LoadedColumn(z, NextLast(z, last, column[0]), column[1..])
  }

  function Savers(z: bool, lasts: seq<Note>, masks: seq<u8>): (channels: seq<Channel>)
    requires |masks| == |lasts|
    ensures |channels| == |lasts|
  {
    seq(|lasts|, c requires 0 <= c < |lasts| => Channel(SaverCache(z, lasts[c]), masks[c]))
  }

  function Loaders(z: bool, lasts: seq<Note>, masks: seq<u8>): (channels: seq<Channel>)
    requires |masks| == |lasts|
    ensures |channels| == |lasts|
  {
    seq(|lasts|, c requires 0 <= c < |lasts| => Channel(LoaderCache(z, lasts[c]), masks[c]))
  }

  /** The first row of column c that is still to come at cell (j, r). */
  function NextRow(c: int, r: nat, j: nat): nat {
    if c < j then r + 1 else r
  }

  /** A column of which the rows before k are loaded already. */
  function Completed(z: bool, last: Note, done: seq<Note>, column: seq<Note>, k: nat): seq<Note>
    requires k <= |done| && k <= |column|
  {
    done[..k] + LoadedColumn(z, last, column[k..])
  }

  function CompletedGrid(z: bool, lasts: seq<Note>, done: Grid, g: Grid, rows: nat, r: nat, j: nat): Grid
    requires |lasts| == PATTERN_WIDTH && Shape(done, rows) && Shape(g, rows) && r < rows && j <= PATTERN_WIDTH
  {
    seq(PATTERN_WIDTH, c requires 0 <= c < PATTERN_WIDTH => Completed(z, lasts[c], done[c], g[c], NextRow(c, r, j)))
  }

  lemma CompletedStep(z: bool, last: Note, done: seq<Note>, column: seq<Note>, k: nat)
    requires k < |done| && k < |column|
    ensures Completed(z, last, done, column, k) ==
            Completed(z, NextLast(z, last, column[k]), done[k := LoadedCell(z, last, column[k])], column, k + 1)
  {
    hide LoadedCell, NextLast;
    var loaded := LoadedCell(z, last, column[k]);
    assert column[k..][1..] == column[k + 1..];
    assert done[k := loaded][..k + 1] == done[..k] + [loaded];
  }

  /** Passing cell (j, r) changes nothing in the outcome. */
  lemma CompletedGridStep(z: bool, lasts: seq<Note>, done: Grid, g: Grid, rows: nat, r: nat, j: nat)
    requires |lasts| == PATTERN_WIDTH && Shape(done, rows) && Shape(g, rows) && r < rows && j < PATTERN_WIDTH
    ensures CompletedGrid(z, lasts, done, g, rows, r, j) ==
            CompletedGrid(z, lasts[j := NextLast(z, lasts[j], g[j][r])],
                          Put(done, j, r, LoadedCell(z, lasts[j], g[j][r])), g, rows, r, j + 1)
  {
    hide LoadedCell, NextLast, Completed;
    CompletedStep(z, lasts[j], done[j], g[j], r);
  }

  lemma EmptyCellLoads(z: bool, last: Note)
    ensures LoadedCell(z, last, EMPTY) == EMPTY && NextLast(z, last, EMPTY) == last
  {
  }

  /** Unpacking one packed cell: the loader's step mirrors the saver's. */
  lemma UnpackCell(z: bool, rows: nat, lasts: seq<Note>, masks: seq<u8>, done: Grid, r: nat, j: nat, n: Note,
                   more: seq<u8>)
    requires |lasts| == |masks| == PATTERN_WIDTH && Shape(done, rows) && r < rows && j < PATTERN_WIDTH
    requires done[j][r] == EMPTY
    ensures var flags := Flags(SaverCache(z, lasts[j]), n);
      Unpack(z, rows, Loaders(z, lasts, masks), done, r, Mark(j, masks[j], flags) + Fields(flags, n) + more) ==
      Unpack(z, rows, Loaders(z, lasts[j := NextLast(z, lasts[j], n)], masks[j := flags]),
             Put(done, j, r, LoadedCell(z, lasts[j], n)), r, more)
  {
    hide ReadCell, Fields, Flags, SaverCache, LoaderCache, LoadedCell, NextLast;
    var flags := Flags(SaverCache(z, lasts[j]), n);
    var mark := Mark(j, masks[j], flags);
    var s := mark + Fields(flags, n) + more;
    ReadsBack(z, lasts[j], n, more);
    assert s[|mark|..] == Fields(flags, n) + more;
    assert (s[0] - 1) % PATTERN_WIDTH == j;
    assert Loaders(z, lasts, masks)[j := Channel(LoaderCache(z, NextLast(z, lasts[j], n)), flags)] ==
           Loaders(z, lasts[j := NextLast(z, lasts[j], n)], masks[j := flags]);
  }

  /** The rows not yet reached are still empty. */
  predicate Untouched(done: Grid, rows: nat, r: nat, j: nat)
    requires Shape(done, rows)
  {
    forall c, k | 0 <= c < PATTERN_WIDTH && NextRow(c, r, j) <= k < rows :: done[c][k] == EMPTY
  }

  lemma PackCell(z: bool, g: Grid, rows: nat, lasts: seq<Note>, masks: seq<u8>, r: nat, j: nat)
    requires Shape(g, rows) && |lasts| == |masks| == PATTERN_WIDTH && r < rows && j < PATTERN_WIDTH
    requires g[j][r] != EMPTY
    ensures var n := g[j][r];
      var flags := Flags(SaverCache(z, lasts[j]), n);
      Pack(z, g, rows, Savers(z, lasts, masks), r, j) ==
      Mark(j, masks[j], flags) + Fields(flags, n)
      + Pack(z, g, rows, Savers(z, lasts[j := NextLast(z, lasts[j], n)], masks[j := flags]), r, j + 1)
  {
    hide Mark, Fields, Flags, Remember, SaverCache, NextLast;
    var n := g[j][r];
    CachesStep(z, lasts[j], n);
    assert Savers(z, lasts, masks)[j := After(z, Savers(z, lasts, masks)[j], n)] ==
           Savers(z, lasts[j := NextLast(z, lasts[j], n)], masks[j := Flags(SaverCache(z, lasts[j]), n)]);
  }

  /** The simulation: wherever the saver is, the loader in the matching state finishes the pattern. */
  lemma {:induction false} UnpackPacked(z: bool, g: Grid, rows: nat, lasts: seq<Note>, masks: seq<u8>, done: Grid,
                                        r: nat, j: nat, tail: seq<u8>)
    requires Shape(g, rows) && Shape(done, rows) && |lasts| == |masks| == PATTERN_WIDTH
    requires r < rows && j <= PATTERN_WIDTH && Untouched(done, rows, r, j)
    ensures var packed := Pack(z, g, rows, Savers(z, lasts, masks), r, j);
            Unpack(z, rows, Loaders(z, lasts, masks), done, r, packed + tail) ==
            Unpacked(CompletedGrid(z, lasts, done, g, rows, r, j), tail)
    decreases rows - r, PATTERN_WIDTH - j
  {
    hide Mark, Fields, Flags, SaverCache, LoaderCache, LoadedCell, NextLast, Completed;
    if j == PATTERN_WIDTH {
      RowEnd(z, g, rows, lasts, masks, done, r, tail);
      if r + 1 < rows {
        UnpackPacked(z, g, rows, lasts, masks, done, r + 1, 0, tail);
      }
    } else {
      hide Unpack, Pack, CompletedGrid;
      var n, last := g[j][r], lasts[j];
      CompletedGridStep(z, lasts, done, g, rows, r, j);
      if n == EMPTY {
        EmptyCellLoads(z, last);
        assert lasts[j := last] == lasts;
        assert done[j][r := EMPTY] == done[j] && Put(done, j, r, EMPTY) == done;
        SkipCell(z, g, rows, lasts, masks, r, j);
        UnpackPacked(z, g, rows, lasts, masks, done, r, j + 1, tail);
      } else {
        var flags := Flags(SaverCache(z, last), n);
        var lasts', masks' := lasts[j := NextLast(z, last, n)], masks[j := flags];
        var done' := Put(done, j, r, LoadedCell(z, last, n));
        var more := Pack(z, g, rows, Savers(z, lasts', masks'), r, j + 1) + tail;
        PackCell(z, g, rows, lasts, masks, r, j);
        assert Pack(z, g, rows, Savers(z, lasts, masks), r, j) + tail
            == Mark(j, masks[j], flags) + Fields(flags, n) + more;
        UnpackCell(z, rows, lasts, masks, done, r, j, n, more);
        UnpackPacked(z, g, rows, lasts', masks', done', r, j + 1, tail);
      }
    }
  }

  lemma SkipCell(z: bool, g: Grid, rows: nat, lasts: seq<Note>, masks: seq<u8>, r: nat, j: nat)
    requires Shape(g, rows) && |lasts| == |masks| == PATTERN_WIDTH && r < rows && j < PATTERN_WIDTH
    requires g[j][r] == EMPTY
    ensures Pack(z, g, rows, Savers(z, lasts, masks), r, j) == Pack(z, g, rows, Savers(z, lasts, masks), r, j + 1)
  {
  }

  lemma RowEnd(z: bool, g: Grid, rows: nat, lasts: seq<Note>, masks: seq<u8>, done: Grid, r: nat, tail: seq<u8>)
    requires Shape(g, rows) && Shape(done, rows) && |lasts| == |masks| == PATTERN_WIDTH && r < rows
    ensures var s := Pack(z, g, rows, Savers(z, lasts, masks), r, PATTERN_WIDTH) + tail;
      Unpack(z, rows, Loaders(z, lasts, masks), done, r, s) ==
      if r + 1 < rows
      then
        var packed := Pack(z, g, rows, Savers(z, lasts, masks), r + 1, 0);
        Unpack(z, rows, Loaders(z, lasts, masks), done, r + 1, packed + tail)
      else Unpacked(done, tail)
    ensures r + 1 < rows ==>
      CompletedGrid(z, lasts, done, g, rows, r, PATTERN_WIDTH) == CompletedGrid(z, lasts, done, g, rows, r + 1, 0)
    ensures r + 1 == rows ==> CompletedGrid(z, lasts, done, g, rows, r, PATTERN_WIDTH) == done
  {
    hide ReadCell, Completed;
    var rest := Pack(z, g, rows, Savers(z, lasts, masks), r + 1, 0);
    assert ([0] + rest + tail)[1..] == rest + tail;
    if r + 1 == rows {
      forall c | 0 <= c < PATTERN_WIDTH
        ensures Completed(z, lasts[c], done[c], g[c], rows) == done[c]
      {
        NothingToLoad(z, lasts[c], done[c], g[c]);
      }
    }
  }

  lemma NothingToLoad(z: bool, last: Note, done: seq<Note>, column: seq<Note>)
    requires |done| == |column|
    ensures Completed(z, last, done, column, |done|) == done
  {
  }

  function LoadedGrid(z: bool, g: Grid): (loaded: Grid)
    ensures |loaded| == |g|
  {
    seq(|g|, c requires 0 <= c < |g| => LoadedColumn(z, EMPTY, g[c]))
  }

  /** Unpacking consumes exactly the packed block, and yields every column as LoadedColumn describes it. */
  lemma UnpackPackedGrid(z: bool, g: Grid, rows: nat, tail: seq<u8>)
    requires Shape(g, rows) && 0 < rows
    ensures Unpack(z, rows, Fresh(), EmptyGrid(rows), 0, PackGrid(z, g, rows) + tail)
            == Unpacked(LoadedGrid(z, g), tail)
  {
    hide Unpack, Pack, LoadedColumn;
    var lasts: seq<Note>, masks: seq<u8> := seq(PATTERN_WIDTH, _ => EMPTY), seq(PATTERN_WIDTH, _ => 0);
    UnpackPacked(z, g, rows, lasts, masks, EmptyGrid(rows), 0, 0, tail);
    assert Savers(z, lasts, masks) == Fresh() == Loaders(z, lasts, masks);
    forall c | 0 <= c < PATTERN_WIDTH
      ensures Completed(z, EMPTY, EmptyGrid(rows)[c], g[c], 0) == LoadedColumn(z, EMPTY, g[c])
    {
      assert g[c][0..] == g[c];
    }
    assert CompletedGrid(z, lasts, EmptyGrid(rows), g, rows, 0, 0) == LoadedGrid(z, g);
  }

  predicate AllLegal(g: Grid) {
    forall c, r | 0 <= c < |g| && 0 <= r < |g[c]| :: Legal(g[c][r])
  }

  lemma {:induction false} CtColumn(last: Note, column: seq<Note>, i: nat)
    requires i < |column|
    ensures LoadedColumn(false, last, column)[i] == Normal(column[i])
    decreases |column|
  {
    if i == 0 {
    } else {
      hide LoadedCell, Normal;
      CtColumn(NextLast(false, last, column[0]), column[1..], i - 1);
    }
  }

  /** A .ct pattern comes back as the normal form of every cell; unchanged exactly if all its cells are legal. */
  lemma CtRoundTrip(g: Grid, rows: nat, tail: seq<u8>)
    requires Shape(g, rows) && 0 < rows
    ensures var u := Unpack(false, rows, Fresh(), EmptyGrid(rows), 0, PackGrid(false, g, rows) + tail);
      && u.Unpacked? && u.rest == tail && Shape(u.grid, rows)
      && (forall c, r | InRange(c, r, rows) :: u.grid[c][r] == Normal(g[c][r]))
      && (u.grid == g <==> AllLegal(g))
  {
    hide Unpack, Pack, LoadedColumn, Normal;
    UnpackPackedGrid(false, g, rows, tail);
    forall c, r | InRange(c, r, rows)
      ensures LoadedGrid(false, g)[c][r] == Normal(g[c][r]) && (Normal(g[c][r]) == g[c][r] <==> Legal(g[c][r]))
    {
      CtColumn(EMPTY, g[c], r);
      NormalIffLegal(g[c][r]);
    }
    if AllLegal(g) {
      forall c | 0 <= c < PATTERN_WIDTH
        ensures LoadedGrid(false, g)[c] == g[c]
      {
        assert forall r | 0 <= r < rows :: LoadedGrid(false, g)[c][r] == g[c][r];
      }
    }
  }

  /** a is a Z command the saver doubles in its cache, and b is the doubled one. */
  predicate Doubled(a: Note, b: Note) {
    && a.command == Z_COMMAND && 0 < a.parameter < 0x7F
    && b.command == Z_COMMAND && b.parameter == SavedParameter(true, Z_COMMAND, a.parameter)
  }

  /** No command in the column doubles the one before it; `last` stands before the column. */
  predicate NoDoubling(last: Note, column: seq<Note>)
    decreases |column|
  {
    if column == [] then true
    else if HasCommand(column[0]) then !Doubled(last, column[0]) && NoDoubling(column[0], column[1..])
    else NoDoubling(last, column[1..])
  }

  lemma ItCell(last: Note, n: Note)
    requires Legal(last)
    ensures LoadedCell(true, last, n) == n <==> Legal(n) && !(HasCommand(n) && Doubled(last, n))
  {
  }

  lemma {:induction false} NoDoublingSame(a: Note, b: Note, column: seq<Note>)
    requires a.command == b.command && a.parameter == b.parameter
    ensures NoDoubling(a, column) == NoDoubling(b, column)
    decreases |column|
  {
    if column != [] && !HasCommand(column[0]) {
      NoDoublingSame(a, b, column[1..]);
    }
  }

  lemma {:induction false} ItColumn(last: Note, column: seq<Note>)
    requires Legal(last)
    ensures LoadedColumn(true, last, column) == column <==>
            (forall i | 0 <= i < |column| :: Legal(column[i])) && NoDoubling(last, column)
    decreases |column|
  {
    if column != [] {
      var n, rest := column[0], column[1..];
      var next := NextLast(true, last, n);
      assert column == [n] + rest;
      ItCell(last, n);
      if LoadedCell(true, last, n) == n {
        ItColumn(next, rest);
        NoDoublingSame(next, if HasCommand(n) then n else last, rest);
      }
    }
  }

  predicate FirstCommand(column: seq<Note>, k: int) {
    0 <= k < |column| && HasCommand(column[k]) && forall m | 0 <= m < k :: !HasCommand(column[m])
  }

  /** Row k holds the first command after the one in row i. */
  predicate NextCommand(column: seq<Note>, i: int, k: int) {
    && 0 <= i < k < |column| && HasCommand(column[i]) && HasCommand(column[k])
    && forall m | i < m < k :: !HasCommand(column[m])
  }

  /** The condition of the .it format, spelled out over the rows. */
  ghost predicate HasDoubling(column: seq<Note>) {
    exists i, k :: NextCommand(column, i, k) && Doubled(column[i], column[k])
  }

  lemma {:induction false} NoDoublingIff(last: Note, column: seq<Note>)
    ensures NoDoubling(last, column) <==>
            (forall k | FirstCommand(column, k) :: !Doubled(last, column[k])) && !HasDoubling(column)
    decreases |column|
  {
    if column != [] {
      hide Doubled, HasCommand;
      var rest := column[1..];
      NoDoublingIff(if HasCommand(column[0]) then column[0] else last, rest);
      CommandsOfRest(column);
      if HasCommand(column[0]) {
        assert FirstCommand(column, 0);
      }
      if i, k :| NextCommand(column, i, k) && Doubled(column[i], column[k]) {
        if i == 0 {
          assert FirstCommand(rest, k - 1);
        } else {
          assert NextCommand(rest, i - 1, k - 1);
        }
      }
      if i, k :| NextCommand(rest, i, k) && Doubled(rest[i], rest[k]) {
        assert NextCommand(column, i + 1, k + 1);
      }
    }
  }

  lemma CommandsOfRest(column: seq<Note>)
    requires column != []
    ensures forall k | FirstCommand(column[1..], k) ::
      if HasCommand(column[0]) then NextCommand(column, 0, k + 1) else FirstCommand(column, k + 1)
    ensures forall k | FirstCommand(column, k) && k > 0 :: !HasCommand(column[0]) && FirstCommand(column[1..], k - 1)
  {
    hide HasCommand;
  }

  /**
   * An .it pattern comes back unchanged exactly if all its cells are legal and no channel holds a command Z p with
   * 0 < p < 0x7F whose next command is Z min(2 p, 0x7F).
   */
  lemma ItRoundTrip(g: Grid, rows: nat, tail: seq<u8>)
    requires Shape(g, rows) && 0 < rows
    ensures var u := Unpack(true, rows, Fresh(), EmptyGrid(rows), 0, PackGrid(true, g, rows) + tail);
      && u.Unpacked? && u.rest == tail
      && (u.grid == g <==> AllLegal(g) && forall c | 0 <= c < PATTERN_WIDTH :: !HasDoubling(g[c]))
  {
    hide Unpack, Pack, LoadedColumn, HasDoubling, Legal;
    UnpackPackedGrid(true, g, rows, tail);
    var loaded := LoadedGrid(true, g);
    forall c | 0 <= c < PATTERN_WIDTH
      ensures loaded[c] == g[c] <==> (forall r | 0 <= r < rows :: Legal(g[c][r])) && !HasDoubling(g[c])
    {
      EmptyIsLegal();
      ItColumn(EMPTY, g[c]);
      NoDoublingIff(EMPTY, g[c]);
    }
    assert loaded == g <==> forall c | 0 <= c < PATTERN_WIDTH :: loaded[c] == g[c];
  }

  lemma EmptyIsLegal()
    ensures Legal(EMPTY) && forall n: Note :: !Doubled(EMPTY, n)
  {
  }
}
