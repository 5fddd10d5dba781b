/** The loader's loop over a packed pattern, as it runs on the pattern store. */
module PatternUnpacker {
  import opened BitMath
  import opened BitReader
  import opened Notes
  import opened PatternStore
  import opened PatternCodec

  /** Each element is truncated to a byte when it is read. */
  function Bytes(data: seq<int>): (b: seq<u8>)
    ensures |b| == |data|
  {
    seq(|data|, i requires 0 <= i < |data| => data[i] % 0x100)
  }

  lemma BytesFrom(data: seq<int>, i: nat)
    requires i < |data|
    ensures Bytes(data[i..])[0] == data[i] % 0x100
    ensures Bytes(data[i..])[1..] == Bytes(data[i + 1..])
  {
  }

  class CellLoader {
    const p: Pattern
    const data: seq<int>
    var readIdx: nat
    var last: Note

    constructor (p: Pattern, data: seq<int>)
      ensures this.p == p && this.data == data && readIdx == 0 && last == EMPTY
    {
      this.p, this.data, readIdx, last := p, data, 0, EMPTY;
    }

    method NextByte() returns (b: u8)
      requires readIdx < |data|
      modifies this`readIdx
      ensures readIdx == old(readIdx) + 1
      ensures b == Bytes(data[old(readIdx)..])[0] && Bytes(data[readIdx..]) == Bytes(data[old(readIdx)..])[1..]
    {
      BytesFrom(data, readIdx);
      b := data[readIdx] % 0x100;
      readIdx := readIdx + 1;
    }

    /** What the pattern shows of the cell being read, `before` being the cells when its reading began. */
    ghost predicate Shows(cell: Note, before: Cells, c: int, row: int)
      requires forall k :: k in before
      reads p
    {
      && p.Valid() && 0 <= c < PATTERN_WIDTH && 0 <= row
      && (row < p.length || (before[(c, row)] == EMPTY && cell == EMPTY))
      && p.Cells() == before[(c, row) := cell]
    }

    ghost predicate Reads(x: Reading, before: Cells, c: int, row: int)
      requires forall k :: k in before
      reads this, p
    {
      && x.Reading? && readIdx <= |data| && x.rest == Bytes(data[readIdx..]) && x.last == last
      && Shows(x.cell, before, c, row)
    }

    /** `get_note_ref(c, row).field = ...` followed by `get_note(c, row)`. */
    method Change(c: int, row: int, change: Note -> Note, ghost cell: Note, ghost before: Cells) returns (got: Note)
      requires (forall k :: k in before) && Shows(cell, before, c, row)
      modifies p
      ensures p.length == old(p.length)
      ensures got == Seen(row < p.length, change(cell))
      ensures Shows(got, before, c, row)
    {
      hide p.Valid;
      p.Modify(c, row, change);
      got := p.GetNote(c, row);
      assert p.Cells()[(c, row)] == got;
      assert forall k | k != (c, row) :: p.Cells()[k] == before[k];
    }

    method LoadNote(mask: u8, c: int, row: int, ghost x: Reading, ghost before: Cells)
      requires (forall k :: k in before) && Reads(x, before, c, row)
      requires ReadNote(mask, row < p.length, x).Reading?
      modifies this, p
      ensures p.length == old(p.length)
      ensures Reads(ReadNote(mask, row < p.length, x), before, c, row)
    {
      hide HasBit, Shows;
      if HasBit(mask, 1) {
        var aux := NextByte();
        var note := if aux < 120 then aux else if aux == 255 then OFF else if aux == 254 then CUT else EMPTY_FIELD;
        var got := Change(c, row, (n: Note) => n.(note := note), x.cell, before);
        last := last.(note := got.note);
      }
    }
  
    method LoadInstrument(mask: u8, c: int, row: int, ghost x: Reading, ghost before: Cells)
      requires (forall k :: k in before) && Reads(x, before, c, row)
      requires ReadInstrument(mask, row < p.length, x).Reading?
      modifies this, p
      ensures p.length == old(p.length)
      ensures Reads(ReadInstrument(mask, row < p.length, x), before, c, row)
    {
      hide HasBit, Shows;
      if HasBit(mask, 2) {
        var aux := NextByte();
        var instrument := if aux < 100 then (aux - 1) % 0x100 else EMPTY_FIELD;
        var got := Change(c, row, (n: Note) => n.(instrument := instrument), x.cell, before);
        last := last.(instrument := got.instrument);
      }
    }

    method LoadVolume(mask: u8, c: int, row: int, ghost x: Reading, ghost before: Cells)
      requires (forall k :: k in before) && Reads(x, before, c, row)
      requires ReadVolume(mask, row < p.length, x).Reading?
      modifies this, p
      ensures p.length == old(p.length)
      ensures Reads(ReadVolume(mask, row < p.length, x), before, c, row)
    {
      hide HasBit, Shows;
      if HasBit(mask, 4) {
        var aux := NextByte();
        var volume := if aux < 213 then aux else EMPTY_FIELD;
        var got := Change(c, row, (n: Note) => n.(volume := volume), x.cell, before);
        last := last.(volume := got.volume);
      }
    }

    method LoadCommand(z: bool, mask: u8, c: int, row: int, ghost x: Reading, ghost before: Cells)
      requires (forall k :: k in before) && Reads(x, before, c, row)
      requires ReadCommand(z, mask, row < p.length, x).Reading?
      modifies this, p
      ensures p.length == old(p.length)
      ensures Reads(ReadCommand(z, mask, row < p.length, x), before, c, row)
    {
      hide HasBit, Shows;
      if HasBit(mask, 8) {
        var aux := NextByte();
        var command := if aux < 213 then (aux - 1) % 0x100 else EMPTY_FIELD;
        var got := Change(c, row, (n: Note) => n.(command := command), x.cell, before);
        last := last.(command := got.command);
        var parameter := NextByte();
        got := Change(c, row, (n: Note) => n.(parameter := parameter), got, before);
        last := last.(parameter := got.parameter);
        if z && last.command == Z_COMMAND && last.parameter < 0x7F {
          last := last.(parameter := last.parameter / 2);
        }
      }
    }

    method LoadReused(mask: u8, c: int, row: int, ghost x: Reading, ghost before: Cells)
      requires (forall k :: k in before) && Reads(x, before, c, row)
      modifies this, p
      ensures p.length == old(p.length)
      ensures Reads(Reuse(mask, row < p.length, x), before, c, row)
    {
      hide HasBit, Shows;
      ghost var cell := x.cell;
      var l := last;
      assert Seen(row < p.length, cell) == cell by { ShownIsSeen(c, row, cell, before); }
      if HasBit(mask, 16) {
        cell := Change(c, row, (n: Note) => n.(note := l.note), cell, before);
      }
      if HasBit(mask, 32) {
        cell := Change(c, row, (n: Note) => n.(instrument := l.instrument), cell, before);
      }
      if HasBit(mask, 64) {
        cell := Change(c, row, (n: Note) => n.(volume := l.volume), cell, before);
      }
      if HasBit(mask, 128) {
        cell := Change(c, row, (n: Note) => n.(command := l.command), cell, before);
        cell := Change(c, row, (n: Note) => n.(parameter := l.parameter), cell, before);
      }
    }

    lemma ShownIsSeen(c: int, row: int, cell: Note, before: Cells)
      requires (forall k :: k in before) && Shows(cell, before, c, row)
      ensures Seen(row < p.length, cell) == cell
    {
    }

    method LoadCell(z: bool, mask: u8, c: int, row: int, ghost x: Reading, ghost before: Cells)
      requires (forall k :: k in before) && Reads(x, before, c, row)
      requires ReadCell(z, mask, row < p.length, x).Reading?
      modifies this, p
      ensures p.length == old(p.length)
      ensures Reads(ReadCell(z, mask, row < p.length, x), before, c, row)
    {
      hide HasBit, Reads;
      ghost var visible := row < p.length;
      ghost var x1 := ReadNote(mask, visible, x);
      ghost var x2 := ReadInstrument(mask, visible, x1);
      ghost var x3 := ReadVolume(mask, visible, x2);
      ghost var x4 := ReadCommand(z, mask, visible, x3);
      LoadNote(mask, c, row, x, before);
      LoadInstrument(mask, c, row, x1, before);
      LoadVolume(mask, c, row, x2, before);
      LoadCommand(z, mask, c, row, x3, before);
      LoadReused(mask, c, row, x4, before);
    }

    /** Rows past the end of the pattern are empty. */
    ghost predicate NothingHidden()
      reads p
    {
      forall c, r | p.length <= r :: p.At(c, r) == EMPTY
    }

    lemma GridAfter(before: Cells, c: int, row: int, cell: Note)
      requires (forall k :: k in before) && Shows(cell, before, c, row)
      requires forall i, r | p.length <= r :: before[(i, r)] == EMPTY
      ensures p.Valid() && p.Grid() == Poke(GridOf(before, p.length), c, row, cell)
      ensures NothingHidden()
    {
      if row < p.length {
        GridOfUpdate(before, p.length, c, row, cell);
      } else {
        assert p.Cells() == before;
      }
      forall i, r | p.length <= r
        ensures p.At(i, r) == EMPTY
      {
        assert p.Cells()[(i, r)] == before[(c, row) := cell][(i, r)];
      }
    }
  
    lemma StartCell(c: int, row: nat, x: Reading)
      requires p.Valid() && NothingHidden() && 0 <= c < PATTERN_WIDTH && readIdx <= |data|
      requires x == Reading(Peek(p.Grid(), c, row), last, Bytes(data[readIdx..]))
      ensures Reads(x, p.Cells(), c, row)
      ensures forall i, r | p.length <= r :: p.Cells()[(i, r)] == EMPTY
    {
      assert p.Cells()[(c, row)] == x.cell;
      assert p.Cells()[(c, row) := x.cell] == p.Cells();
    }
  
    /** Reads a marked cell whose first byte, flag, has been read. */
    method LoadMarked(z: bool, flag: u8, row: nat, channels: seq<Channel>, ghost s: seq<u8>)
      returns (after: seq<Channel>)
      requires p.Valid() && NothingHidden() && |channels| == PATTERN_WIDTH && readIdx <= |data|
      requires s == [flag] + Bytes(data[readIdx..]) && ReadMarked(z, channels, p.Grid(), row, s).Stepped?
      modifies this, p
      ensures p.Valid() && NothingHidden() && p.length == old(p.length) && readIdx <= |data|
      ensures Stepped(after, p.Grid(), Bytes(data[readIdx..])) == ReadMarked(z, channels, old(p.Grid()), row, s)
    {
      hide HasBit, ReadCell, p.Valid, p.Cells, p.At, Shows, NothingHidden, Put, GridOf;
      var channel := (flag - 1) % 64;
      var mask := channels[channel].mask;
      assert s[1..] == Bytes(data[readIdx..]);
      if flag >= 128 {
        assert s[2..] == Bytes(data[readIdx..])[1..];
        mask := NextByte();
      }
      last := channels[channel].cache;
      ghost var before := p.Cells();
      ghost var x := Reading(Peek(p.Grid(), channel, row), last, Bytes(data[readIdx..]));
      StartCell(channel, row, x);
      LoadCell(z, mask, channel, row, x, before);
      GridAfter(before, channel, row, ReadCell(z, mask, row < p.length, x).cell);
      after := channels[channel := Channel(last, mask)];
    }

    /**
     * The unpacking loop: it ends where the specification ends, with the pattern the specification gives. The block
     * must hold as many rows as it announces.
     */
    method UnpackRows(z: bool, rows: nat)
      requires p.Valid() && NothingHidden() && readIdx <= |data|
      requires Unpack(z, rows, Fresh(), p.Grid(), 0, Bytes(data[readIdx..])).Unpacked?
      modifies this, p
      ensures p.Valid() && p.length == old(p.length) && readIdx <= |data|
      ensures Unpacked(p.Grid(), Bytes(data[readIdx..])) ==
              old(Unpack(z, rows, Fresh(), p.Grid(), 0, Bytes(data[readIdx..])))
    {
      hide ReadMarked, p.Valid, p.Cells;
      ghost var wanted := Unpack(z, rows, Fresh(), p.Grid(), 0, Bytes(data[readIdx..]));
      var row, more := 0, true;
      var channels := Fresh();
      while more
        invariant p.Valid() && p.length == old(p.length) && NothingHidden()
        invariant readIdx <= |data| && |channels| == PATTERN_WIDTH
        invariant wanted ==
          if more then Unpack(z, rows, channels, p.Grid(), row, Bytes(data[readIdx..]))
          else Unpacked(p.Grid(), Bytes(data[readIdx..]))
        decreases |data| - readIdx, more
      {
        ghost var s := Bytes(data[readIdx..]);
        var flag := NextByte();
        assert s == [flag] + Bytes(data[readIdx..]);
        if flag == 0 {
          row := row + 1;
        } else {
          channels := LoadMarked(z, flag, row, channels, s);
        }
        more := row < rows;
      }
    }
  }

  /** Loader_CT::set_dds_to_pattern, into a cleared pattern. */
  method UnpackCtPattern(p: Pattern, rows: nat, block: seq<int>)
    requires p.Valid() && (forall k :: p.Cells()[k] == EMPTY) && rows < 0x1_0000
    requires Unpack(false, rows, Fresh(), EmptyGrid(LengthAfter(p.length, rows)), 0, Bytes(block)).Unpacked?
    modifies p
    ensures p.Valid() && p.length == LengthAfter(old(p.length), rows)
    ensures p.Grid() == Unpack(false, rows, Fresh(), EmptyGrid(p.length), 0, Bytes(block)).grid
  {
    hide p.Valid, Unpack;
    p.SetNewLength(rows % 0x100);
    EmptyPattern(p);
    var loader := new CellLoader(p, block);
    assert block[0..] == block;
    loader.UnpackRows(false, rows);
  }

  /** The length a pattern of old length takes when a file announces that many rows: only the low byte counts. */
  function LengthAfter(length: nat, rows: nat): nat {
    if LegalLength(rows % 0x100) then rows % 0x100 else length
  }

  lemma EmptyPattern(p: Pattern)
    requires p.Valid() && forall k :: p.Cells()[k] == EMPTY
    ensures p.Grid() == EmptyGrid(p.length)
    ensures forall c, r :: p.At(c, r) == EMPTY
  {
    hide p.Valid;
    forall c | 0 <= c < PATTERN_WIDTH
      ensures p.Grid()[c] == EmptyGrid(p.length)[c]
    {
    }
    forall c, r
      ensures p.At(c, r) == EMPTY
    {
      assert p.Cells()[(c, r)] == p.At(c, r);
    }
  }

  /** The part of Loader_IT::load_patterns that reads the pattern at a file offset; offset zero is an empty pattern. */
  method UnpackItPattern(p: Pattern, file: seq<u8>, offset: nat)
    requires p.Valid() && forall k :: p.Cells()[k] == EMPTY
    requires offset != 0 ==>
      && offset + 8 <= |file|
      && var rows := Word(file, offset + 2);
         Unpack(true, rows, Fresh(), EmptyGrid(LengthAfter(p.length, rows)), 0, file[offset + 8..]).Unpacked?
    modifies p
    ensures p.Valid()
    ensures offset == 0 ==> p.Grid() == EmptyGrid(64)
    ensures offset != 0 ==>
      var rows := Word(file, offset + 2);
      && p.length == LengthAfter(old(p.length), rows)
      && p.Grid() == Unpack(true, rows, Fresh(), EmptyGrid(p.length), 0, file[offset + 8..]).grid
  {
    hide p.Valid, Unpack;
    if offset == 0 {
      p.SetNewLength(64);
      EmptyPattern(p);
      return;
    }
    var rows := Word(file, offset + 2);
    p.SetNewLength(rows % 0x100);
    EmptyPattern(p);
    var loader := new CellLoader(p, file[offset + 8..]);
    assert file[offset + 8..][0..] == file[offset + 8..];
    AlreadyBytes(file[offset + 8..]);
    loader.UnpackRows(true, rows);
  }

  lemma AlreadyBytes(b: seq<u8>)
    ensures Bytes(b) == b
  {
  }
}
