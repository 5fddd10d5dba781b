/** The loops that read compressed sample data out of a module file. */
module SampleLoader {
  import opened BitMath
  import opened BitReader
  import opened Options
  import opened SampleDecoder

  /** A file held in memory. Having consumed the last byte already counts as the end of the file. */
  class FileReader {
    const contents: seq<u8>
    var pos: nat

    ghost predicate Valid()
      reads this
    {
      pos <= |contents|
    }

    predicate EofReached()
      reads this
    {
      pos >= |contents|
    }

    constructor (contents: seq<u8>, pos: nat)
      requires pos <= |contents|
      ensures Valid() && this.contents == contents && this.pos == pos
    {
      this.contents, this.pos := contents, pos;
    }

    /** At the end of the file the returned byte is arbitrary. */
    method GetByte() returns (b: u8)
      requires Valid()
      modifies this`pos
      ensures Valid()
      ensures old(pos) < |contents| ==> b == contents[old(pos)] && pos == old(pos) + 1
      ensures old(pos) == |contents| ==> pos == old(pos)
    {
      b := *;
      if !EofReached() {
        b := contents[pos];
        pos := pos + 1;
      }
      if EofReached() {
        pos := |contents|;
      }
    }

    method GetWord() returns (w: nat)
      requires Valid()
      modifies this`pos
      ensures Valid()
      ensures old(pos) + 2 <= |contents| ==>
        w == Word(contents, old(pos)) && pos == old(pos) + 2
      ensures |contents| < old(pos) + 2 ==> pos == |contents|
    {
      var byte1 := GetByte();
      var byte2 := GetByte();
      ShiftIn(byte2, byte1);
      w := BitOr(byte1, Shl32(byte2, 8));
    }

    /** A short read stops at the end of the file. */
    method GetByteArray(n: nat) returns (bytes: seq<u8>)
      requires Valid()
      modifies this`pos
      ensures Valid() && pos == if old(pos) + n <= |contents| then old(pos) + n else |contents|
      ensures bytes == contents[old(pos)..pos]
    {
      var elements := n;
      if pos + elements > |contents| {
        elements := elements - (pos + elements - |contents|);
      }
      bytes := contents[pos..pos + elements];
      pos := pos + elements;
    }
  }

  /** The compressed block at pos: a 16-bit size and that many bytes, with at least one more byte after them. */
  function BlockAt(file: seq<u8>, pos: nat): (block: Option<seq<u8>>) {
    if pos + 2 < |file| && pos + 2 + Word(file, pos) < |file|
    then Some(file[pos + 2..pos + 2 + Word(file, pos)])
    else None
  }

  function BlockBits(block: seq<u8>): Bits {
    Bits(Value(block), 32 * (|block| / 4 + 2))
  }

  function BlockLength(k: nat, n: nat): nat {
    var limit := if k == 8 then 0x8000 else 0x4000;
    if n < limit then n else limit
  }

  datatype Load =
    | Loaded(samples: seq<int>, pos: nat)
    | FileError
    | Overrun // some block is read past its end

  function WithSamples(samples: seq<int>, l: Load): Load {
    if l.Loaded? then l.(samples := samples + l.samples) else l
  }

  /** n samples from consecutive blocks, each block coded and summed up on its own. */
  function LoadFrom(k: nat, it215: bool, file: seq<u8>, pos: nat, n: nat): (l: Load)
    ensures l.Loaded? ==> |l.samples| == n
    decreases n
  {
    if n == 0 then Loaded([], pos) else
    match BlockAt(file, pos)
    case None => FileError
    case Some(block) =>
      match DecodeBlock(k, k + 1, BlockBits(block), BlockLength(k, n))
      case Undefined => Overrun
      case IllegalWidth => FileError
      case Decoded(deltas, _) =>
        WithSamples(Integrated(k, it215, deltas), LoadFrom(k, it215, file, pos + 2 + |block|, n - BlockLength(k, n)))
  }

  lemma WithDeltasTwice(a: seq<int>, d: int, o: Outcome)
    ensures WithDeltas(a, WithDeltas([d], o)) == WithDeltas(a + [d], o)
  {
    if o.Decoded? {
      assert a + ([d] + o.deltas) == a + [d] + o.deltas;
    }
  }

  /** `v = aux << s; v >>= s` on a signed k-bit v extends the sign of a (k - s)-bit number. */
  lemma SignExtension(k: nat, width: nat, v: nat)
    requires SampleSize(k) && 1 <= width <= k && v < Pow2(width)
    ensures Shr(Wrap(k, Shl(v, k - width)), k - width) == Signed(width, v)
  {
    var s := k - width;
    SignedShift(width, s, v);
    ShrShl(Signed(width, v), s);
    WrapShifted(k, Shl(v, s), Shl(Signed(width, v), s));
  }

  /** Shifting the value and its signed reading differ by 2^k or not at all. */
  lemma {:induction false} SignedShift(width: nat, s: nat, v: nat)
    requires 1 <= width && v < Pow2(width)
    ensures var x := Shl(Signed(width, v), s);
      && -Pow2(width + s - 1) <= x < Pow2(width + s - 1)
      && (Shl(v, s) == x || Shl(v, s) == x + Pow2(width + s))
  {
    if s == 0 {
    } else {
      SignedShift(width, s - 1, v);
    }
  }

  lemma {:induction false} ShrShl(x: int, n: nat)
    ensures Shr(Shl(x, n), n) == x
  {
    if n == 0 {
    } else {
      ShrShl(x, n - 1);
      assert Shl(x, n) / 2 == Shl(x, n - 1);
    }
  }

  lemma WrapShifted(k: nat, y: int, x: int)
    requires SampleSize(k) && -Pow2(k - 1) <= x < Pow2(k - 1) && (y == x || y == x + Pow2(k))
    ensures Wrap(k, y) == x
  {
    hide Pow2;
    SizeValues(k);
  }

  lemma SizeValues(k: nat)
    requires SampleSize(k)
    ensures Pow2(k) == if k == 8 then 0x100 else 0x1_0000
    ensures Pow2(k - 1) == if k == 8 then 0x80 else 0x8000
  {
    Pow2Values();
    assert Pow2(k) == 2 * Pow2(k - 1);
  }

  /** The shift expressions of the loaders, `1 << (w - 1)` and `(0xFF >> (9 - w)) - 4` or `(0xFFFF >> (17 - w)) - 8`. */
  lemma {:induction false} ShrOnes(n: nat, m: nat)
    requires m <= n
    ensures Shr(Pow2(n) - 1, n - m) == Pow2(m) - 1
    decreases n
  {
    if n <= m {
    } else {
      assert (Pow2(n) - 1) / 2 == Pow2(n - 1) - 1;
      ShrOnes(n - 1, m);
    }
  }

  /** How the 8-bit loader takes a value of bitWidth bits apart. */
  method NextCode8(auxValue: nat, bitWidth: nat) returns (code: Code)
    requires 1 <= bitWidth <= 9 && auxValue < Pow2(bitWidth)
    ensures code == Classify(8, bitWidth, auxValue)
  {
    hide Shl, Shr, Low, Pow2;
    var k := 8;
    SizeValues(k);
    ShlOnes(bitWidth - 1);
    if bitWidth < 7 {
      if auxValue == Shl(1, bitWidth - 1) {
        return Escape;
      }
    } else if bitWidth < 9 {
      ShrOnes(k, bitWidth - 1);
      var border := Shr(0xFF, 9 - bitWidth) - 4;
      if auxValue > border && auxValue <= border + 8 {
        var value := auxValue - border;
        return Width(if value < bitWidth then value else value + 1);
      }
    } else if auxValue >= 0x100 {
      return Width((auxValue + 1) % 0x100);
    }
    if bitWidth < 8 {
      SignExtension(k, bitWidth, auxValue);
      code := Delta(Shr(Wrap(8, Shl(auxValue, 8 - bitWidth)), 8 - bitWidth));
    } else {
      code := Delta(Wrap(8, auxValue));
    }
  }

  /** The same for the 16-bit loader. */
  method NextCode16(auxValue: nat, bitWidth: nat) returns (code: Code)
    requires 1 <= bitWidth <= 17 && auxValue < Pow2(bitWidth)
    ensures code == Classify(16, bitWidth, auxValue)
  {
    hide Shl, Shr, Low, Pow2;
    var k := 16;
    SizeValues(k);
    ShlOnes(bitWidth - 1);
    if bitWidth < 7 {
      if auxValue == Shl(1, bitWidth - 1) {
        return Escape;
      }
    } else if bitWidth < 17 {
      ShrOnes(k, bitWidth - 1);
      var border := Shr(0xFFFF, 17 - bitWidth) - 8;
      if auxValue > border && auxValue <= border + 16 {
        var value := auxValue - border;
        return Width(if value < bitWidth then value else value + 1);
      }
    } else if auxValue >= 0x1_0000 {
      return Width((auxValue + 1) % 0x100);
    }
    if bitWidth < 16 {
      SignExtension(k, bitWidth, auxValue);
      code := Delta(Shr(Wrap(16, Shl(auxValue, 16 - bitWidth)), 16 - bitWidth));
    } else {
      code := Delta(Wrap(16, auxValue));
    }
  }

  /** One round of the decoding loop, seen from the deltas already decoded. */
  lemma DecodeRound(k: nat, deltas: seq<int>, width: nat, s: Bits, n: nat)
    requires 0 < n && WithDeltas(deltas, DecodeBlock(k, width, s, n)) != Undefined
    ensures 1 <= width <= 30 && width <= s.count
    ensures k + 1 < width ==> WithDeltas(deltas, DecodeBlock(k, width, s, n)) == IllegalWidth
    ensures width <= k + 1 ==>
      var all := WithDeltas(deltas, DecodeBlock(k, width, s, n));
      var rest := Drop(s, width);
      match Classify(k, width, Take(s, width))
      case Delta(d) => all == WithDeltas(deltas + [d], DecodeBlock(k, width, rest, n - 1))
      case Width(w) => all == WithDeltas(deltas, DecodeBlock(k, w, rest, n))
      case Escape =>
        && EscapeBits(k) <= rest.count
        && all == WithDeltas(deltas,
             DecodeBlock(k, Jump(width, Take(rest, EscapeBits(k)) + 1), Drop(rest, EscapeBits(k)), n))
  {
    hide Classify, Low, Shr;
    if width <= k + 1 {
      match Classify(k, width, Take(s, width))
      case Delta(d) => WithDeltasTwice(deltas, d, DecodeBlock(k, width, Drop(s, width), n - 1));
      case _ =>
    }
  }

  /** The integrators are the running sums of the deltas so far. */
  ghost predicate Integrators(k: nat, deltas: seq<int>, d1: int, d2: int) {
    d1 == Wrap(k, Sum(deltas, |deltas|)) && d2 == Wrap(k, DoubleSum(deltas, |deltas|))
  }

  lemma IntegrateStep(k: nat, it215: bool, deltas: seq<int>, v: int, d1: int, d2: int)
    requires Integrators(k, deltas, d1, d2)
    ensures var e1 := Wrap(k, d1 + v); var e2 := Wrap(k, d2 + e1);
      && Integrators(k, deltas + [v], e1, e2)
      && Integrated(k, it215, deltas + [v]) == Integrated(k, it215, deltas) + [if it215 then e2 else e1]
  {
    hide Wrap;
    var n := |deltas|;
    SumPrefix(deltas, [v], n);
    WrapAdd(k, Sum(deltas, n), v);
    WrapAdd(k, DoubleSum(deltas, n), Sum(deltas + [v], n + 1));
    WrapAdd(k, Sum(deltas + [v], n + 1), d2);
    forall i | 0 <= i < n
      ensures Sample(k, it215, deltas + [v], i) == Sample(k, it215, deltas, i)
    {
      SamplePrefix(k, it215, deltas, [v], i);
    }
  }

  lemma WrapAdd(k: nat, x: int, y: int)
    ensures Wrap(k, x + y) == Wrap(k, Wrap(k, x) + y)
  {
    if k == 8 {
      ModShift8(x + y + 0x80, (x + 0x80) / 0x100);
    } else {
      ModShift16(x + y + 0x8000, (x + 0x8000) / 0x1_0000);
    }
  }

  lemma ModShift8(x: int, q: int)
    ensures (x - 0x100 * q) % 0x100 == x % 0x100
  {
  }

  lemma ModShift16(x: int, q: int)
    ensures (x - 0x1_0000 * q) % 0x1_0000 == x % 0x1_0000
  {
  }

  /** Decodes one block into dest[base..base + length]. */
  method DecodeInto(k: nat, reader: BlockReader, dest: array<int>, base: nat, length: nat, it215: bool)
    returns (ok: bool)
    requires SampleSize(k) && reader.Valid() && base + length <= dest.Length
    requires dest as object != reader.buffer as object
    requires DecodeBlock(k, k + 1, reader.Stream(), length) != Undefined
    modifies dest, reader, reader.buffer
    ensures ok <==> old(DecodeBlock(k, k + 1, reader.Stream(), length)).Decoded?
    ensures ok ==>
      dest[base..base + length] == Integrated(k, it215, old(DecodeBlock(k, k + 1, reader.Stream(), length)).deltas)
    ensures forall i | 0 <= i < dest.Length && !(base <= i < base + length) :: dest[i] == old(dest[i])
  {
    hide Low, Shr, Pow2, Sum, DoubleSum, Wrap, WithDeltas, Integrated, Integrators, Classify, DecodeBlock, Value,
      Dword, BlockReader.Valid, BlockReader.Stream;
    ghost var wanted := DecodeBlock(k, k + 1, reader.Stream(), length);
    ghost var deltas: seq<int> := [];
    var blockPosition := 0;
    var bitWidth: nat := k + 1;
    var d1, d2 := 0, 0;
    SumsOfNothing(k);
    NoDeltasYet(wanted);
    while blockPosition < length
      invariant reader.Valid()
      invariant blockPosition <= length && |deltas| == blockPosition
      invariant wanted == WithDeltas(deltas, DecodeBlock(k, bitWidth, reader.Stream(), length - blockPosition))
      invariant Integrators(k, deltas, d1, d2)
      invariant dest[base..base + blockPosition] == Integrated(k, it215, deltas)
      invariant forall i | 0 <= i < dest.Length && !(base <= i < base + length) :: dest[i] == old(dest[i])
      decreases reader.Stream().count
    {
      ghost var stream := reader.Stream();
      DecodeRound(k, deltas, bitWidth, stream, length - blockPosition);
      var auxValue := reader.Read(bitWidth);
      LowBelow(stream.value, bitWidth);
      if bitWidth > k + 1 {
        return false;
      }
      var code;
      if k == 8 {
        code := NextCode8(auxValue, bitWidth);
      } else {
        code := NextCode16(auxValue, bitWidth);
      }
      match code {
        case Width(w) => bitWidth := w;
        case Escape =>
          auxValue := reader.Read(if k == 8 then 3 else 4);
          auxValue := auxValue + 1;
          bitWidth := if auxValue < bitWidth then auxValue else auxValue + 1;
        case Delta(v) =>
          IntegrateStep(k, it215, deltas, v, d1, d2);
          d1 := Wrap(k, d1 + v);
          d2 := Wrap(k, d2 + d1);
          deltas := deltas + [v];
          dest[base + blockPosition] := if it215 then d2 else d1;
          blockPosition := blockPosition + 1;
      }
    }
    DecodeNothing(k, deltas, bitWidth, reader.Stream());
    ok := true;
  }

  lemma DecodeNothing(k: nat, deltas: seq<int>, width: nat, s: Bits)
    ensures WithDeltas(deltas, DecodeBlock(k, width, s, 0)) == Decoded(deltas, s)
  {
    assert deltas + [] == deltas;
  }

  lemma NoDeltasYet(o: Outcome)
    ensures WithDeltas([], o) == o
  {
    if o.Decoded? {
      assert [] + o.deltas == o.deltas;
    }
  }

  lemma SumsOfNothing(k: nat)
    ensures Integrators(k, [], 0, 0)
  {
  }

  /** The module loader's file position and the "compatible with" version of the module header. */
  class Loader {
    const file: FileReader
    const cmwt: nat

    constructor (file: FileReader, cmwt: nat)
      ensures this.file == file && this.cmwt == cmwt
    {
      this.file, this.cmwt := file, cmwt;
    }

    method ReadCompressedBlock() returns (reader: BlockReader?)
      requires file.Valid()
      modifies file`pos
      ensures file.Valid()
      ensures reader == null <==> old(BlockAt(file.contents, file.pos)).None?
      ensures reader != null ==>
        var block := old(BlockAt(file.contents, file.pos)).value;
        && reader.Valid() && fresh(reader) && fresh(reader.buffer)
        && reader.Stream() == BlockBits(block)
        && file.pos == old(file.pos) + 2 + |block|
    {
      var size := file.GetWord();
      if file.EofReached() {
        return null;
      }
      var bytes := file.GetByteArray(size);
      if file.EofReached() {
        return null;
      }
      reader := new BlockReader(bytes);
    }

    /** load_sample_8bits_IT_compressed (k = 8) and load_sample_16bits_IT_compressed (k = 16). */
    method LoadCompressed(k: nat, dest: array<int>, n: nat) returns (ok: bool)
      requires SampleSize(k) && file.Valid() && n <= dest.Length
      requires LoadFrom(k, cmwt == 0x215, file.contents, file.pos, n) != Overrun
      modifies dest, file`pos
      ensures file.Valid()
      ensures dest[n..] == old(dest[n..])
      ensures ok <==> old(LoadFrom(k, cmwt == 0x215, file.contents, file.pos, n)).Loaded?
      ensures ok ==> Loaded(dest[..n], file.pos) == old(LoadFrom(k, cmwt == 0x215, file.contents, file.pos, n))
    {
      hide DecodeBlock, Value, Dword, BlockReader.Valid, BlockReader.Stream, Integrated, LoadFrom, WithSamples;
      forall i | 0 <= i < n {
        dest[i] := 0;
      }
      var it215 := cmwt == 0x215;
      ghost var wanted := LoadFrom(k, it215, file.contents, file.pos, n);
      var destPosition, left: nat := 0, n;
      NoSamplesYet(wanted);
      while left != 0
        invariant file.Valid() && destPosition + left == n
        invariant dest[n..] == old(dest[n..])
        invariant wanted == WithSamples(dest[..destPosition], LoadFrom(k, it215, file.contents, file.pos, left))
      {
        ghost var was := dest[..destPosition];
        var blockLength := BlockLength(k, left);
        LoadRound(k, it215, was, file.contents, file.pos, left);
        var reader := ReadCompressedBlock();
        if reader == null {
          return false;
        }
        var decoded := DecodeInto(k, reader, dest, destPosition, blockLength, it215);
        if !decoded {
          return false;
        }
        assert dest[..destPosition + blockLength] == was + dest[destPosition..destPosition + blockLength];
        destPosition := destPosition + blockLength;
        left := left - blockLength;
      }
      LoadNothing(k, it215, dest[..n], file.contents, file.pos);
      ok := true;
    }
  }

  lemma LoadNothing(k: nat, it215: bool, samples: seq<int>, file: seq<u8>, pos: nat)
    ensures WithSamples(samples, LoadFrom(k, it215, file, pos, 0)) == Loaded(samples, pos)
  {
    assert samples + [] == samples;
  }

  lemma NoSamplesYet(l: Load)
    ensures WithSamples([], l) == l
  {
    if l.Loaded? {
      assert [] + l.samples == l.samples;
    }
  }

  /** One round of the loading loop, seen from the samples already stored. */
  lemma LoadRound(k: nat, it215: bool, was: seq<int>, file: seq<u8>, pos: nat, left: nat)
    requires 0 < left && WithSamples(was, LoadFrom(k, it215, file, pos, left)) != Overrun
    ensures var all := WithSamples(was, LoadFrom(k, it215, file, pos, left));
      match BlockAt(file, pos)
      case None => all == FileError
      case Some(block) =>
        match DecodeBlock(k, k + 1, BlockBits(block), BlockLength(k, left))
        case Undefined => false
        case IllegalWidth => all == FileError
        case Decoded(deltas, _) =>
          all == WithSamples(was + Integrated(k, it215, deltas),
                             LoadFrom(k, it215, file, pos + 2 + |block|, left - BlockLength(k, left)))
  {
    hide DecodeBlock, Value, Integrated;
    var block := BlockAt(file, pos);
    if block.Some? {
      var o := DecodeBlock(k, k + 1, BlockBits(block.value), BlockLength(k, left));
      if o.Decoded? {
        WithSamplesTwice(was, Integrated(k, it215, o.deltas),
                         LoadFrom(k, it215, file, pos + 2 + |block.value|, left - BlockLength(k, left)));
      }
    }
  }

  lemma WithSamplesTwice(a: seq<int>, b: seq<int>, l: Load)
    ensures WithSamples(a, WithSamples(b, l)) == WithSamples(a + b, l)
  {
    if l.Loaded? {
      assert a + (b + l.samples) == a + b + l.samples;
    }
  }
}
