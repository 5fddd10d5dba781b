/**
 * A specification-level encoder for the compressed sample format. It stays at the initial width, and shows that
 * the decoders reach every sample sequence.
 */
module SampleEncoder {
  import opened BitMath
  import opened BitReader
  import opened Options
  import opened SampleDecoder
  import opened SampleLoader

  predicate InRange(k: nat, x: int)
    requires 0 < k
  {
    -Pow2(k - 1) <= x < Pow2(k - 1)
  }

  predicate Samples(k: nat, target: seq<int>) {
    forall i | 0 <= i < |target| :: Wrap(k, target[i]) == target[i]
  }

  /** The target before its start is silence. */
  function At(target: seq<int>, i: int): int {
    if 0 <= i < |target| then target[i] else 0
  }

  /** First differences, or second differences for IT 2.15. */
  function Deltas(k: nat, it215: bool, target: seq<int>): (deltas: seq<int>)
    ensures |deltas| == |target|
  {
    seq(|target|, i requires 0 <= i < |target| =>
      Wrap(k, if it215 then At(target, i) - 2 * At(target, i - 1) + At(target, i - 2)
              else At(target, i) - At(target, i - 1)))
  }

  lemma WrapCongruent(k: nat, x: int, y: int, a: int, b: int)
    requires Wrap(k, x) == Wrap(k, y) && Wrap(k, a) == Wrap(k, b)
    ensures Wrap(k, x + a) == Wrap(k, y + b)
  {
    hide Wrap;
    WrapAdd(k, x, a);
    WrapAdd(k, y, a);
    WrapAdd(k, a, y);
    WrapAdd(k, b, y);
  }

  lemma WrapTwice(k: nat, x: int)
    ensures Wrap(k, Wrap(k, x)) == Wrap(k, x)
  {
  }

  lemma {:induction false} DeltasSumUp(k: nat, it215: bool, target: seq<int>, n: nat)
    requires n <= |target|
    ensures var deltas := Deltas(k, it215, target);
      if it215 then
        && Wrap(k, Sum(deltas, n)) == Wrap(k, At(target, n - 1) - At(target, n - 2))
        && Wrap(k, DoubleSum(deltas, n)) == Wrap(k, At(target, n - 1))
      else
        Wrap(k, Sum(deltas, n)) == Wrap(k, At(target, n - 1))
  {
    hide Wrap;
    if n > 0 {
      DeltasSumUp(k, it215, target, n - 1);
      if it215 {
        OneMoreSecondDelta(k, target, n);
      } else {
        OneMoreDelta(k, target, n);
      }
    }
  }

  lemma OneMoreDelta(k: nat, target: seq<int>, n: nat)
    requires 0 < n <= |target|
    requires Wrap(k, Sum(Deltas(k, false, target), n - 1)) == Wrap(k, At(target, n - 2))
    ensures Wrap(k, Sum(Deltas(k, false, target), n)) == Wrap(k, At(target, n - 1))
  {
    hide Wrap;
    var deltas := Deltas(k, false, target);
    var t0, t1 := At(target, n - 1), At(target, n - 2);
    WrapTwice(k, t0 - t1);
    WrapCongruent(k, Sum(deltas, n - 1), t1, deltas[n - 1], t0 - t1);
  }

  lemma OneMoreSecondDelta(k: nat, target: seq<int>, n: nat)
    requires 0 < n <= |target|
    requires Wrap(k, Sum(Deltas(k, true, target), n - 1)) == Wrap(k, At(target, n - 2) - At(target, n - 3))
    requires Wrap(k, DoubleSum(Deltas(k, true, target), n - 1)) == Wrap(k, At(target, n - 2))
    ensures Wrap(k, Sum(Deltas(k, true, target), n)) == Wrap(k, At(target, n - 1) - At(target, n - 2))
    ensures Wrap(k, DoubleSum(Deltas(k, true, target), n)) == Wrap(k, At(target, n - 1))
  {
    hide Wrap, Sum, DoubleSum, Deltas, At;
    var deltas := Deltas(k, true, target);
    SumsGrow(deltas, n);
    SecondDelta(k, target, n);
    SecondDifference(k, Sum(deltas, n - 1), DoubleSum(deltas, n - 1), deltas[n - 1],
                     At(target, n - 1), At(target, n - 2), At(target, n - 3));
  }

  lemma SumsGrow(deltas: seq<int>, n: nat)
    requires 0 < n <= |deltas|
    ensures Sum(deltas, n) == Sum(deltas, n - 1) + deltas[n - 1]
    ensures DoubleSum(deltas, n) == DoubleSum(deltas, n - 1) + Sum(deltas, n)
  {
  }

  lemma SecondDelta(k: nat, target: seq<int>, n: nat)
    requires 0 < n <= |target|
    ensures Wrap(k, Deltas(k, true, target)[n - 1]) ==
            Wrap(k, At(target, n - 1) - 2 * At(target, n - 2) + At(target, n - 3))
  {
    hide Wrap, At;
    WrapTwice(k, At(target, n - 1) - 2 * At(target, n - 2) + At(target, n - 3));
  }

  /** One step of both sums, over plain numbers. */
  lemma SecondDifference(k: nat, sum: int, double: int, delta: int, t0: int, t1: int, t2: int)
    requires Wrap(k, sum) == Wrap(k, t1 - t2) && Wrap(k, double) == Wrap(k, t1)
    requires Wrap(k, delta) == Wrap(k, t0 - 2 * t1 + t2)
    ensures Wrap(k, sum + delta) == Wrap(k, t0 - t1) && Wrap(k, double + (sum + delta)) == Wrap(k, t0)
  {
    hide Wrap;
    WrapCongruent(k, sum, t1 - t2, delta, t0 - 2 * t1 + t2);
    assert t1 - t2 + (t0 - 2 * t1 + t2) == t0 - t1;
    WrapCongruent(k, double, t1, sum + delta, t0 - t1);
    assert t1 + (t0 - t1) == t0;
  }

  lemma IntegrateDeltas(k: nat, it215: bool, target: seq<int>)
    requires Samples(k, target)
    ensures Integrated(k, it215, Deltas(k, it215, target)) == target
  {
    hide Wrap, Sum, DoubleSum;
    forall i | 0 <= i < |target|
      ensures Sample(k, it215, Deltas(k, it215, target), i) == target[i]
    {
      DeltasSumUp(k, it215, target, i + 1);
    }
  }

  /** The k-bit pattern of a signed delta. */
  function Pattern(k: nat, delta: int): int {
    if delta < 0 then delta + Pow2(k) else delta
  }

  /** All deltas at width k + 1, the first one in the lowest bits. */
  function Pack(k: nat, deltas: seq<int>): int {
    if |deltas| == 0 then 0 else Pattern(k, deltas[0]) + Shl(Pack(k, deltas[1..]), k + 1)
  }

  predicate Packable(k: nat, deltas: seq<int>)
    requires 0 < k
  {
    forall i | 0 <= i < |deltas| :: InRange(k, deltas[i])
  }

  lemma PatternIsRead(k: nat, delta: int)
    requires SampleSize(k) && InRange(k, delta)
    ensures 0 <= Pattern(k, delta) < Pow2(k) < Pow2(k + 1)
    ensures Classify(k, k + 1, Pattern(k, delta)) == Delta(delta)
  {
    assert Pow2(k) == 2 * Pow2(k - 1) && Pow2(k + 1) == 2 * Pow2(k);
  }

  lemma {:induction false} LowOfSmall(x: int, n: nat)
    requires 0 <= x < Pow2(n)
    ensures Low(x, n) == x && Shr(x, n) == 0
    decreases n
  {
    if n == 0 {
    } else {
      LowOfSmall(x / 2, n - 1);
    }
  }

  lemma {:induction false} PackBound(k: nat, deltas: seq<int>)
    requires SampleSize(k) && Packable(k, deltas)
    ensures 0 <= Pack(k, deltas) < Pow2((k + 1) * |deltas|)
  {
    hide Classify;
    if |deltas| == 0 {
    } else {
      var rest, bits := Pack(k, deltas[1..]), (k + 1) * |deltas[1..]|;
      PackBound(k, deltas[1..]);
      PatternIsRead(k, deltas[0]);
      OrIsAdd(0, rest, k + 1);
      ShlMonotone(rest, Pow2(bits), k + 1);
      ShlOnes(bits);
      ShlAdd(1, bits, k + 1);
      ShlOnes(bits + k + 1);
      assert (k + 1) * |deltas| == bits + k + 1;
    }
  }

  /** Decoding a packed block gives the deltas back. */
  lemma {:induction false} DecodePacked(k: nat, deltas: seq<int>, count: nat)
    requires SampleSize(k) && Packable(k, deltas) && (k + 1) * |deltas| <= count
    ensures DecodeBlock(k, k + 1, Bits(Pack(k, deltas), count), |deltas|)
            == Decoded(deltas, Bits(0, count - (k + 1) * |deltas|))
    decreases |deltas|
  {
    hide Low, Shr, Shl, Pow2, Classify, InRange;
    if |deltas| == 0 {
    } else {
      var u, rest := Pattern(k, deltas[0]), Pack(k, deltas[1..]);
      assert (k + 1) * |deltas| == (k + 1) * |deltas[1..]| + k + 1;
      PackBound(k, deltas[1..]);
      PatternIsRead(k, deltas[0]);
      TakeWithin(u, rest, k + 1, k + 1);
      LowOfSmall(u, k + 1);
      ShlNothing(rest);
      assert Drop(Bits(Pack(k, deltas), count), k + 1) == Bits(rest, count - k - 1);
      DecodePacked(k, deltas[1..], count - k - 1);
      assert [deltas[0]] + deltas[1..] == deltas;
    }
  }

  lemma ShlNothing(x: int)
    ensures Shl(x, 0) == x
  {
  }

  function ToBytes(x: int, size: nat): (b: seq<u8>)
    ensures |b| == size
    decreases size
  {
    if size == 0 then [] else [x % 0x100] + ToBytes(x / 0x100, size - 1)
  }

  lemma {:induction false} ValueOfBytes(x: nat, size: nat)
    requires x < Pow2(8 * size)
    ensures Value(ToBytes(x, size)) == x
  {
    if size == 0 {
    } else {
      ByteSplit(x, size, 8);
      ValueOfBytes(x / 0x100, size - 1);
      assert ToBytes(x, size)[1..] == ToBytes(x / 0x100, size - 1);
    }
  }

  lemma ByteSplit(x: nat, size: nat, n: nat)
    requires 0 < size && n == 8 && x < Pow2(n * size)
    ensures x / 0x100 < Pow2(8 * (size - 1))
  {
    var bits := 8 * (size - 1);
    ShlOnes(bits);
    ShlAdd(1, bits, n);
    ShlByte(Pow2(bits), n);
    ShlOnes(bits + n);
  }

  function BlockSize(k: nat, n: nat): nat {
    ((k + 1) * n + 7) / 8
  }

  /** The bytes of one block, without the size field. */
  function EncodeBlock(k: nat, it215: bool, target: seq<int>): (block: seq<u8>)
    ensures |block| == BlockSize(k, |target|)
  {
    ToBytes(Pack(k, Deltas(k, it215, target)), BlockSize(k, |target|))
  }

  lemma DeltasArePackable(k: nat, it215: bool, target: seq<int>)
    requires SampleSize(k)
    ensures Packable(k, Deltas(k, it215, target))
  {
    SizeValues(k);
  }

  lemma DecodeEncodedBlock(k: nat, it215: bool, target: seq<int>)
    requires SampleSize(k)
    ensures var o := DecodeBlock(k, k + 1, BlockBits(EncodeBlock(k, it215, target)), |target|);
      o.Decoded? && o.deltas == Deltas(k, it215, target)
  {
    hide Pack, Pow2, DecodeBlock, ToBytes, Value, Deltas;
    var deltas := Deltas(k, it215, target);
    var bits, size := (k + 1) * |target|, BlockSize(k, |target|);
    DeltasArePackable(k, it215, target);
    PackBound(k, deltas);
    assert bits <= 8 * size;
    Pow2Monotone(bits, 8 * size);
    ValueOfBytes(Pack(k, deltas), size);
    DecodePacked(k, deltas, 32 * (size / 4 + 2));
  }

  /** The target cut into blocks, each preceded by its 16-bit size. */
  function EncodeFile(k: nat, it215: bool, target: seq<int>): seq<u8>
    requires SampleSize(k)
    decreases |target|
  {
    if target == [] then [] else
    var length := BlockLength(k, |target|);
    var size := BlockSize(k, length);
    [size % 0x100, size / 0x100] + EncodeBlock(k, it215, target[..length]) + EncodeFile(k, it215, target[length..])
  }

  /** A block followed by at least one byte is found. */
  lemma FindBlock(before: seq<u8>, block: seq<u8>, after: seq<u8>)
    requires |block| < 0x1_0000
    ensures BlockAt(before + ([|block| % 0x100, |block| / 0x100] + block + after), |before|) ==
            if after == [] then None else Some(block)
  {
    var size: seq<u8> := [|block| % 0x100, |block| / 0x100];
    var file := before + (size + block + after);
    assert file == before + size + block + after;
    assert file[|before|..|before| + 2] == size;
    assert file[|before|] == size[0] && file[|before| + 1] == size[1];
    assert file[|before| + 2..|before| + 2 + |block|] == block;
  }

  lemma LoadOneBlock(k: nat, it215: bool, file: seq<u8>, pos: nat, block: seq<u8>, target: seq<int>)
    requires SampleSize(k) && Samples(k, target) && target != []
    requires BlockAt(file, pos) == Some(EncodeBlock(k, it215, target[..BlockLength(k, |target|)]))
    ensures var length := BlockLength(k, |target|);
      LoadFrom(k, it215, file, pos, |target|) ==
      WithSamples(target[..length],
                  LoadFrom(k, it215, file, pos + 2 + BlockSize(k, length), |target| - length))
  {
    hide DecodeBlock, Deltas, Integrated, Wrap, BlockAt, Value, EncodeBlock;
    var first := target[..BlockLength(k, |target|)];
    DecodeEncodedBlock(k, it215, first);
    IntegrateDeltas(k, it215, first);
  }

  /** How the file splits around its first block. */
  lemma FirstBlock(k: nat, it215: bool, before: seq<u8>, target: seq<int>, after: seq<u8>)
    requires SampleSize(k) && target != []
    ensures var length := BlockLength(k, |target|);
      var size, more := BlockSize(k, length), EncodeFile(k, it215, target[length..]);
      var front: seq<u8> := [size % 0x100, size / 0x100] + EncodeBlock(k, it215, target[..length]);
      && size < 0x1_0000
      && before + (EncodeFile(k, it215, target) + after) == before + (front + (more + after))
      && before + (EncodeFile(k, it215, target) + after) == (before + front) + (more + after)
      && |EncodeFile(k, it215, target)| == 2 + size + |more|
  {
    hide EncodeBlock;
    var length := BlockLength(k, |target|);
    var size, more := BlockSize(k, length), EncodeFile(k, it215, target[length..]);
    var front: seq<u8> := [size % 0x100, size / 0x100] + EncodeBlock(k, it215, target[..length]);
    assert EncodeFile(k, it215, target) == front + more;
  }

  /**
   * The decoders reach every sample sequence, in plain mode and in IT 2.15 mode. The one condition is that the
   * sample is not the last thing in the file.
   */
  lemma {:induction false} EverySampleLoads(k: nat, it215: bool, before: seq<u8>, target: seq<int>, after: seq<u8>)
    requires SampleSize(k) && Samples(k, target)
    ensures LoadFrom(k, it215, before + (EncodeFile(k, it215, target) + after), |before|, |target|) ==
            if target == [] || after != [] then Loaded(target, |before| + |EncodeFile(k, it215, target)|) else FileError
    decreases |target|
  {
    hide LoadFrom, EncodeFile, EncodeBlock, BlockAt, Wrap;
    var file := before + (EncodeFile(k, it215, target) + after);
    EncodeNothing(k, it215);
    if target == [] {
      LoadNothing(k, it215, [], file, |before|);
      NoSamplesYet(LoadFrom(k, it215, file, |before|, 0));
    } else {
      var length := BlockLength(k, |target|);
      var rest, size, block := target[length..], BlockSize(k, length), EncodeBlock(k, it215, target[..length]);
      var front: seq<u8> := [size % 0x100, size / 0x100] + block;
      FirstBlock(k, it215, before, target, after);
      FindBlock(before, block, EncodeFile(k, it215, rest) + after);
      EverySampleLoads(k, it215, before + front, rest, after);
      if EncodeFile(k, it215, rest) + after == [] {
        NoBlockLeft(k, it215, file, |before|, |target|);
      } else {
        LoadOneBlock(k, it215, file, |before|, block, target);
      }
      assert target[..length] + rest == target;
    }
  }

  lemma EncodeNothing(k: nat, it215: bool)
    requires SampleSize(k)
    ensures EncodeFile(k, it215, []) == []
  {
  }

  lemma NoBlockLeft(k: nat, it215: bool, file: seq<u8>, pos: nat, n: nat)
    requires 0 < n && BlockAt(file, pos) == None
    ensures LoadFrom(k, it215, file, pos, n) == FileError
  {
  }
}
