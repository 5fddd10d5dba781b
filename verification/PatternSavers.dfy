/** The savers' loops over a pattern: the .ct integer array and the .it byte file. */
module PatternSavers {
  import opened BitMath
  import opened BitReader
  import opened Notes
  import opened PatternStore
  import opened PatternCodec
  import opened PatternUnpacker
  import opened FileWriter

  /** Finds out what changed since the cached note, and updates the cache. */
  method UpdateCache(z: bool, cache: Note, src: Note) returns (flags: u8, cached: Note)
    ensures flags == Flags(cache, src) && cached == Remember(z, cache, src)
  {
    var f := 0;
    cached := cache;
    if src.note != EMPTY_FIELD {
      if src.note != cached.note {
        f := f + 1;
        cached := cached.(note := src.note);
      } else {
        f := f + 16;
      }
    }
    if src.instrument != EMPTY_FIELD {
      if src.instrument != cached.instrument {
        f := f + 2;
        cached := cached.(instrument := src.instrument);
      } else {
        f := f + 32;
      }
    }
    if src.volume != EMPTY_FIELD {
      if src.volume != cached.volume {
        f := f + 4;
        cached := cached.(volume := src.volume);
      } else {
        f := f + 64;
      }
    }
    if src.command != EMPTY_FIELD || src.parameter != 0 {
      if src.command != cached.command || src.parameter != cached.parameter {
        f := f + 8;
        cached := cached.(command := src.command, parameter := src.parameter);
        if z && cached.command == Z_COMMAND && cached.parameter < 0x7F {
          cached := cached.(parameter := cached.parameter * 2);
          if cached.parameter >= 0x7F {
            cached := cached.(parameter := 0x7F);
          }
        }
      } else {
        f := f + 128;
      }
    }
    flags := f;
  }

  lemma BytesOfSum(a: seq<int>, b: seq<int>)
    ensures Bytes(a + b) == Bytes(a) + Bytes(b)
  {
  }

  method NoteElements(flags: u8, src: Note) returns (data: seq<int>)
    ensures Bytes(data) == Part(flags, WRITE_NOTE, [NoteByte(src.note)])
  {
    hide HasBit;
    data := [];
    if HasBit(flags, 1) {
      var destNote: u8;
      if src.note == EMPTY_FIELD {
        destNote := 0;
      } else if src.note == OFF {
        destNote := 255;
      } else if src.note == CUT {
        destNote := 254;
      } else {
        destNote := src.note;
      }
      data := [destNote];
    }
  }

  method InstrumentElements(flags: u8, src: Note) returns (data: seq<int>)
    ensures Bytes(data) == Part(flags, WRITE_INSTRUMENT, [(src.instrument + 1) % 0x100])
  {
    hide HasBit;
    data := if HasBit(flags, 2) then [src.instrument as int + 1] else [];
  }

  method VolumeElements(flags: u8, src: Note) returns (data: seq<int>)
    ensures Bytes(data) == Part(flags, WRITE_VOLUME, [src.volume])
  {
    hide HasBit;
    data := if HasBit(flags, 4) then [src.volume] else [];
  }

  method CommandElements(flags: u8, src: Note) returns (data: seq<int>)
    ensures Bytes(data) == Part(flags, WRITE_COMMAND, [(src.command + 1) % 0x100, src.parameter])
  {
    hide HasBit;
    data := if HasBit(flags, 8) then [src.command as int + 1, src.parameter] else [];
  }

  /** The elements of one cell, as both savers emit them; an element is cut to a byte only when written or read. */
  method CellElements(j: nat, mask: u8, flags: u8, src: Note) returns (data: seq<int>)
    requires j < PATTERN_WIDTH
    ensures Bytes(data) == Mark(j, mask, flags) + Fields(flags, src)
  {
    data := if flags != mask then [j + 1 + 128, flags] else [j + 1];
    assert Bytes(data) == Mark(j, mask, flags);
    hide HasBit, Bytes, NoteByte, Mark, Part;
    var d1 := NoteElements(flags, src);
    var d2 := InstrumentElements(flags, src);
    var d3 := VolumeElements(flags, src);
    var d4 := CommandElements(flags, src);
    BytesOfSum(d3, d4);
    BytesOfSum(d2, d3 + d4);
    BytesOfSum(d1, d2 + (d3 + d4));
    BytesOfSum(data, d1 + (d2 + (d3 + d4)));
    data := data + (d1 + (d2 + (d3 + d4)));
  }

  /** Packing resumes after a cell that has been put behind the data so far. */
  lemma PackOn(z: bool, g: Grid, rows: nat, channels: seq<Channel>, r: nat, j: nat, data: seq<u8>)
    requires Shape(g, rows) && |channels| == PATTERN_WIDTH && r < rows && j < PATTERN_WIDTH
    ensures var n, ch := g[j][r], channels[j];
      data + Pack(z, g, rows, channels, r, j) ==
      if n == EMPTY then data + Pack(z, g, rows, channels, r, j + 1)
      else (data + (Mark(j, ch.mask, Flags(ch.cache, n)) + Fields(Flags(ch.cache, n), n)))
           + Pack(z, g, rows, channels[j := After(z, ch, n)], r, j + 1)
  {
    hide Flags, Mark, Fields, Remember;
  }

  lemma PackRowEnd(z: bool, g: Grid, rows: nat, channels: seq<Channel>, r: nat, data: seq<u8>)
    requires Shape(g, rows) && |channels| == PATTERN_WIDTH && r < rows
    ensures data + Pack(z, g, rows, channels, r, PATTERN_WIDTH) == (data + [0]) + Pack(z, g, rows, channels, r + 1, 0)
  {
  }

  lemma PackEnd(z: bool, g: Grid, rows: nat, channels: seq<Channel>, data: seq<u8>)
    requires Shape(g, rows) && |channels| == PATTERN_WIDTH
    ensures data + Pack(z, g, rows, channels, rows, 0) == data
    ensures [] + PackGrid(z, g, rows) == PackGrid(z, g, rows)
  {
  }

  /** Saver_CT::get_dds_from_pattern */
  method PackCtPattern(p: Pattern) returns (data: seq<int>)
    requires p.Valid()
    ensures Bytes(data) == PackGrid(false, p.Grid(), p.length)
  {
    hide Flags, Remember, Mark, Fields, Pack, Bytes, p.Valid, p.Cells, p.At;
    ghost var g, rows := p.Grid(), p.length;
    data := [];
    var channels := Fresh();
    PackEnd(false, g, rows, channels, Bytes(data));
    for i := 0 to p.length
      invariant |channels| == PATTERN_WIDTH
      invariant Bytes(data) + Pack(false, g, rows, channels, i, 0) == PackGrid(false, g, rows)
    {
      for j := 0 to PATTERN_WIDTH
        invariant |channels| == PATTERN_WIDTH
        invariant Bytes(data) + Pack(false, g, rows, channels, i, j) == PackGrid(false, g, rows)
      {
        PackOn(false, g, rows, channels, i, j, Bytes(data));
        p.GridCell(j, i);
        var src := p.GetNote(j, i);
        if src != EMPTY {
          var flags, cached := UpdateCache(false, channels[j].cache, src);
          var elements := CellElements(j, channels[j].mask, flags, src);
          BytesOfSum(data, elements);
          data := data + elements;
          channels := channels[j := Channel(cached, flags)];
        }
      }
      PackRowEnd(false, g, rows, channels, i, Bytes(data));
      BytesOfSum(data, [0]);
      ZeroByte();
      data := data + [0];
    }
    PackEnd(false, g, rows, channels, Bytes(data));
  }

  lemma ZeroByte()
    ensures Bytes([0]) == [0] && Bytes([]) == []
  {
  }

  /** Writes elements at the end of the file, each cut to a byte. */
  method StoreElements(writer: Writer, data: seq<int>)
    requires writer.pos == |writer.contents|
    modifies writer
    ensures writer.pos == |writer.contents| && writer.contents == old(writer.contents) + Bytes(data)
  {
    for i := 0 to |data|
      invariant writer.pos == |writer.contents|
      invariant writer.contents == old(writer.contents) + Bytes(data)[..i]
    {
      AppendedAtEnd(writer.contents, [data[i] % 0x100]);
      writer.StoreByte(data[i]);
    }
  }

  /** The eight bytes before the packed rows, for a given value of the length field. */
  function ItHeader(length: nat, rows: u8): (header: seq<u8>)
    ensures |header| == 8
  {
    WordBytes(length) + [rows, 0, 0, 0, 0, 0]
  }

  method StoreHeader(writer: Writer, rows: u8)
    requires writer.pos == |writer.contents|
    modifies writer
    ensures writer.pos == |writer.contents| && writer.contents == old(writer.contents) + ItHeader(0, rows)
  {
    hide Overwritten;
    var file, pos := writer.contents, writer.pos;
    writer.StoreWord(0);
    writer.StoreWord(rows);
    writer.StoreDword(0);
    assert WordBytes(0 % 0x1_0000) + WordBytes(0 / 0x1_0000) == [0, 0, 0, 0];
    OverwrittenTwice(file, pos, WordBytes(0), WordBytes(rows));
    OverwrittenTwice(file, pos, WordBytes(0) + WordBytes(rows), [0, 0, 0, 0]);
    AppendedAtEnd(file, WordBytes(0) + WordBytes(rows) + [0, 0, 0, 0]);
    assert WordBytes(0) + WordBytes(rows) + [0, 0, 0, 0] == ItHeader(0, rows);
  }

  /** The rows; the result counts the bytes as the saver does. */
  method StoreRows(p: Pattern, writer: Writer) returns (length: nat)
    requires p.Valid() && writer.pos == |writer.contents|
    modifies writer
    ensures writer.pos == |writer.contents|
    ensures writer.contents == old(writer.contents) + PackGrid(true, p.Grid(), p.length)
    ensures length == |PackGrid(true, p.Grid(), p.length)|
  {
    hide Flags, Remember, Mark, Fields, Pack, Bytes, Overwritten, p.Valid, p.Cells, p.At, p.Grid;
    p.GridShape();
    ghost var g, rows, front := p.Grid(), p.length, writer.contents;
    ghost var body := [];
    length := 0;
    var channels := Fresh();
    PackEnd(true, g, rows, channels, body);
    for i := 0 to p.length
      invariant |channels| == PATTERN_WIDTH && writer.pos == |writer.contents|
      invariant writer.contents == front + body && length == |body|
      invariant body + Pack(true, g, rows, channels, i, 0) == PackGrid(true, g, rows)
    {
      for j := 0 to PATTERN_WIDTH
        invariant |channels| == PATTERN_WIDTH && writer.pos == |writer.contents|
        invariant writer.contents == front + body && length == |body|
        invariant body + Pack(true, g, rows, channels, i, j) == PackGrid(true, g, rows)
      {
        PackOn(true, g, rows, channels, i, j, body);
        p.GridCell(j, i);
        var src := p.GetNote(j, i);
        if src != EMPTY {
          var flags, cached := UpdateCache(true, channels[j].cache, src);
          var elements := CellElements(j, channels[j].mask, flags, src);
          StoreElements(writer, elements);
          body := body + Bytes(elements);
          length := length + |elements|;
          channels := channels[j := Channel(cached, flags)];
        }
      }
      PackRowEnd(true, g, rows, channels, i, body);
      AppendedAtEnd(writer.contents, [0]);
      writer.StoreByte(0);
      body := body + [0];
      length := length + 1;
    }
    PackEnd(true, g, rows, channels, body);
  }

  /** Saver_IT::write_pattern: header with a zero length, packed rows, then the length patched in. */
  method PackItPattern(p: Pattern, writer: Writer)
    requires p.Valid() && writer.pos == |writer.contents|
    modifies writer
    ensures writer.pos == |writer.contents|
    ensures var body := PackGrid(true, p.Grid(), p.length);
      writer.contents == old(writer.contents) + ItHeader(|body|, p.length) + body
  {
    hide PackGrid, WordBytes;
    var beginPos := writer.pos;
    StoreHeader(writer, p.length);
    var length := StoreRows(p, writer);
    var endPos := writer.pos;
    PatchedHeader(old(writer.contents), length, p.length, PackGrid(true, p.Grid(), p.length));
    writer.pos := beginPos;
    writer.StoreWord(length);
    writer.pos := endPos;
  }

  lemma PatchedHeader(file: seq<u8>, length: nat, rows: u8, body: seq<u8>)
    ensures Overwritten(file + ItHeader(0, rows) + body, |file|, WordBytes(length))
            == file + ItHeader(length, rows) + body
  {
  }

  /** The length field holds the number of bytes behind the header exactly when that fits 16 bits. */
  lemma LengthFieldIsExact(length: nat, rows: u8)
    ensures Word(ItHeader(length, rows), 0) == length <==> length < 0x1_0000
    ensures Word(ItHeader(length, rows), 2) == rows
  {
  }

  /** The header in bytes: the length, low byte first, the rows, and zeros. */
  lemma HeaderInBytes(length: nat, rows: u8)
    ensures ItHeader(length, rows) == [length % 256, length / 256 % 256, rows, 0, 0, 0, 0, 0]
  {
  }
}
