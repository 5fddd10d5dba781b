/** How long a packed pattern can get, and for how many rows a 16-bit length is enough. */
module PackedLength {
  import opened BitMath
  import opened Notes
  import opened PatternStore
  import opened PatternCodec
  import opened CodecRoundTrip

  /** A cell written in full, mask byte included, must follow one that was not. */
  const ALL_WRITTEN: u8 := 15

  function Weight(mask: u8): nat {
    if mask != ALL_WRITTEN then 1 else 0
  }

  function TotalWeight(channels: seq<Channel>): nat {
    if channels == [] then 0 else Weight(channels[0].mask) + TotalWeight(channels[1..])
  }

  lemma {:induction false} WeightUpdate(channels: seq<Channel>, j: nat, ch: Channel)
    requires j < |channels|
    ensures TotalWeight(channels[j := ch]) == TotalWeight(channels) - Weight(channels[j].mask) + Weight(ch.mask)
  {
    if j > 0 {
      assert channels[j := ch][1..] == channels[1..][j - 1 := ch];
      WeightUpdate(channels[1..], j - 1, ch);
    } else {
      assert channels[0 := ch][1..] == channels[1..];
    }
  }

  lemma {:induction false} WeightBound(channels: seq<Channel>)
    ensures TotalWeight(channels) <= |channels|
  {
    if channels == [] {
    } else {
      WeightBound(channels[1..]);
    }
  }

  /** Six and a half bytes a cell, amortised over the channel. */
  lemma CellBound(cache: Note, mask: u8, n: Note, j: nat)
    requires j < PATTERN_WIDTH
    ensures var flags := Flags(cache, n);
      2 * (|Mark(j, mask, flags)| + |Fields(flags, n)|) + Weight(flags) <= 13 + Weight(mask)
  {
    hide HasBit, NoteByte;
    FlagBits(FieldFlag(cache.note, n.note, WRITE_NOTE), FieldFlag(cache.instrument, n.instrument, WRITE_INSTRUMENT),
             FieldFlag(cache.volume, n.volume, WRITE_VOLUME), CommandFlag(cache, n), Flags(cache, n));
  }

  lemma {:induction false} PackBound(z: bool, g: Grid, rows: nat, channels: seq<Channel>, r: nat, j: nat)
    requires Shape(g, rows) && |channels| == PATTERN_WIDTH && r < rows && j <= PATTERN_WIDTH
    ensures 2 * |Pack(z, g, rows, channels, r, j)| <= 834 * (rows - r) - 13 * j + TotalWeight(channels)
    decreases rows - r, PATTERN_WIDTH - j
  {
    hide Mark, Fields, Flags, Remember, Weight, TotalWeight;
    if j == PATTERN_WIDTH {
      if r + 1 < rows {
        PackBound(z, g, rows, channels, r + 1, 0);
      }
    } else if g[j][r] == EMPTY {
      PackBound(z, g, rows, channels, r, j + 1);
    } else {
      var n, ch := g[j][r], channels[j];
      CellBound(ch.cache, ch.mask, n, j);
      WeightUpdate(channels, j, After(z, ch, n));
      PackBound(z, g, rows, channels[j := After(z, ch, n)], r, j + 1);
    }
  }

  lemma LengthBound(z: bool, g: Grid, rows: nat)
    requires Shape(g, rows) && 0 < rows
    ensures |PackGrid(z, g, rows)| <= 417 * rows + 32
  {
    hide Pack, TotalWeight;
    PackBound(z, g, rows, Fresh(), 0, 0);
    WeightBound(Fresh());
  }

  /** The longest pattern: rows alternate between four written fields and three. */
  function LongCell(r: nat): Note {
    Note(r % 2, r % 2, r / 2 % 2, r % 2, 0)
  }

  function LongGrid(rows: nat): (g: Grid)
    ensures Shape(g, rows) && forall c, r | InRange(c, r, rows) :: g[c][r] == LongCell(r)
  {
    seq(PATTERN_WIDTH, _ => seq(rows, r requires 0 <= r => LongCell(r)))
  }

  /** A channel of the long pattern before row k. */
  function LongChannel(k: nat): Channel {
    if k == 0 then UNUSED else Channel(LongCell(k - 1), if k % 2 == 1 then ALL_WRITTEN else 75)
  }

  function LongBytes(k: nat): nat {
    if k % 2 == 0 then 7 else 6
  }

  lemma LongStep(z: bool, k: nat, j: nat)
    requires j < PATTERN_WIDTH
    ensures After(z, LongChannel(k), LongCell(k)) == LongChannel(k + 1)
    ensures var flags := Flags(LongChannel(k).cache, LongCell(k));
      |Mark(j, LongChannel(k).mask, flags)| + |Fields(flags, LongCell(k))| == LongBytes(k)
  {
    hide HasBit, NoteByte;
    var cache, n := LongChannel(k).cache, LongCell(k);
    if k > 0 {
      assert (k - 1) % 2 != k % 2;
      assert k % 2 == 0 ==> (k - 1) / 2 == k / 2 - 1;
      assert k % 2 == 1 ==> (k - 1) / 2 == k / 2;
    }
    FlagBits(FieldFlag(cache.note, n.note, WRITE_NOTE), FieldFlag(cache.instrument, n.instrument, WRITE_INSTRUMENT),
             FieldFlag(cache.volume, n.volume, WRITE_VOLUME), CommandFlag(cache, n), Flags(cache, n));
  }

  function LongChannels(r: nat, j: nat): (channels: seq<Channel>)
    ensures |channels| == PATTERN_WIDTH
  {
    seq(PATTERN_WIDTH, c requires 0 <= c < PATTERN_WIDTH => LongChannel(NextRow(c, r, j)))
  }

  /** The bytes of the long pattern's rows from k on. */
  function LongTail(rows: nat, k: nat): nat
    requires k <= rows
    decreases rows - k
  {
    if k == rows then 0 else PATTERN_WIDTH * LongBytes(k) + 1 + LongTail(rows, k + 1)
  }

  lemma {:induction false} LongLength(z: bool, rows: nat, r: nat, j: nat)
    requires r < rows && j <= PATTERN_WIDTH
    ensures |Pack(z, LongGrid(rows), rows, LongChannels(r, j), r, j)| ==
            (PATTERN_WIDTH - j) * LongBytes(r) + 1 + LongTail(rows, r + 1)
    decreases rows - r, PATTERN_WIDTH - j
  {
    hide Mark, Fields, Flags, Remember, LongBytes, LongChannel;
    if j == PATTERN_WIDTH {
      assert LongChannels(r, j) == LongChannels(r + 1, 0);
      if r + 1 < rows {
        LongLength(z, rows, r + 1, 0);
      }
    } else {
      LongStep(z, r, j);
      assert LongChannels(r, j)[j := LongChannel(r + 1)] == LongChannels(r, j + 1);
      LongLength(z, rows, r, j + 1);
      OneCellLess(PATTERN_WIDTH - j, LongBytes(r));
    }
  }

  lemma OneCellLess(n: int, size: int)
    ensures n * size == (n - 1) * size + size
  {
  }

  lemma {:induction false} LongTailGrows(rows: nat, k: nat)
    requires k % 2 == 0 && k <= rows
    ensures 417 * (rows - k) <= LongTail(rows, k)
    decreases rows - k
  {
    if k + 1 < rows {
      LongTailGrows(rows, k + 2);
    } else if k < rows {
      assert LongTail(rows, k + 1) == 0;
    }
  }

  lemma LongGridIsLong(z: bool, rows: nat)
    requires 0 < rows
    ensures AllLegal(LongGrid(rows)) && 417 * rows <= |PackGrid(z, LongGrid(rows), rows)|
  {
    hide Pack;
    LongLength(z, rows, 0, 0);
    LongTailGrows(rows, 0);
    assert LongChannels(0, 0) == Fresh();
    assert PATTERN_WIDTH - 0 == PATTERN_WIDTH;
  }

  /** A 16-bit length holds for every legal pattern up to 157 rows, and no further. */
  lemma SixteenBitsIff(z: bool, rows: nat)
    requires 0 < rows
    ensures (forall g: Grid | Shape(g, rows) && AllLegal(g) :: |PackGrid(z, g, rows)| < 0x1_0000) <==> rows <= 157
  {
    hide PackGrid, AllLegal;
    forall g: Grid | Shape(g, rows)
      ensures |PackGrid(z, g, rows)| <= 417 * rows + 32
    {
      LengthBound(z, g, rows);
    }
    LongGridIsLong(z, rows);
    assert Shape(LongGrid(rows), rows);
  }
}
