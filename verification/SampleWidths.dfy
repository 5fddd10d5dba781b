/**
 * The compressed sample format in numbers: what the bits of each delta and of each change of width are. Whatever is
 * written this way is decoded as it was meant, with any changes of width.
 */
module SampleWidths {
  import opened BitMath
  import opened BitReader
  import opened Options
  import opened SampleDecoder
  import opened SampleLoader
  import opened SampleEncoder

  /** One thing an encoder can say: the next delta, or the width of what follows. */
  datatype Step = Say(delta: int) | Change(width: nat)

  /** A number and the bits it takes. */
  datatype Field = Field(value: nat, size: nat)

  /**
   * The deltas that can be written at a width: up to 6 bits all but the least one, whose pattern announces a width; at
   * a medium width all but the k patterns around the middle; at the widest one all samples.
   */
  predicate Fits(k: nat, width: nat, delta: int) {
    if width == 0 then false
    else if width <= 6 then -Pow2(width - 1) < delta < Pow2(width - 1)
    else if width <= k then -Pow2(width - 1) + k / 2 <= delta < Pow2(width - 1) - k / 2
    else 0 < k && -Pow2(k - 1) <= delta < Pow2(k - 1)
  }

  function DeltaField(k: nat, width: nat, delta: int): Field
    requires SampleSize(k) && Fits(k, width, delta)
  {
    var bits := if width <= k then width else k;
    PatternIsNatural(k, width, delta);
    Field(if delta < 0 then delta + Pow2(bits) else delta, width)
  }

  lemma PatternIsNatural(k: nat, width: nat, delta: int)
    requires SampleSize(k) && Fits(k, width, delta)
    ensures var bits := if width <= k then width else k;
      0 < bits && Pow2(bits) == 2 * Pow2(bits - 1) && -Pow2(bits - 1) <= delta < Pow2(bits - 1)
  {
  }

  /** The other widths are numbered from 1 to k, the current one left out. */
  function Number(width: nat, target: nat): nat {
    if target < width then target else if target == 0 then 0 else target - 1
  }

  /** Up to 6 bits the pattern 10..0, and the number less one in 3 or 4 bits; then codes among the values. */
  function ChangeFields(k: nat, width: nat, target: nat): seq<Field>
    requires SampleSize(k) && 1 <= width <= k + 1 && 1 <= target <= k + 1 && target != width
  {
    if width <= 6 then [Field(Pow2(width - 1), width), Field(Number(width, target) - 1, if k == 8 then 3 else 4)]
    else if width <= k then [Field(MiddleCode(k, width, Number(width, target)), width)]
    else [Field(Pow2(k) + target - 1, k + 1)]
  }

  function MiddleCode(k: nat, width: nat, number: nat): nat
    requires SampleSize(k) && 7 <= width <= k
  {
    MiddleIsNatural(k, width);
    Pow2(width - 1) - k / 2 + number - 1
  }

  lemma MiddleIsNatural(k: nat, width: nat)
    requires SampleSize(k) && 7 <= width <= k
    ensures k / 2 + 1 <= Pow2(width - 1)
  {
    Pow2Monotone(6, width - 1);
    assert Pow2(6) == 64;
  }

  /** Each step can be said at the width the steps before it have left. */
  predicate Sayable(k: nat, width: nat, steps: seq<Step>)
    decreases |steps|
  {
    steps == [] ||
    match steps[0]
    case Say(delta) => Fits(k, width, delta) && Sayable(k, width, steps[1..])
    case Change(target) => 1 <= target <= k + 1 && target != width && Sayable(k, target, steps[1..])
  }

  function Fields(k: nat, width: nat, steps: seq<Step>): seq<Field>
    requires SampleSize(k) && 1 <= width <= k + 1 && Sayable(k, width, steps)
    decreases |steps|
  {
    if steps == [] then []
    else
      match steps[0]
      case Say(delta) => [DeltaField(k, width, delta)] + Fields(k, width, steps[1..])
      case Change(target) => ChangeFields(k, width, target) + Fields(k, target, steps[1..])
  }

  function Values(steps: seq<Step>): seq<int> {
    if steps == [] then []
    else if steps[0].Say? then [steps[0].delta] + Values(steps[1..])
    else Values(steps[1..])
  }

  function Size(fields: seq<Field>): nat {
    if fields == [] then 0 else fields[0].size + Size(fields[1..])
  }

  /** The first field in the lowest bits. */
  function Joined(fields: seq<Field>): int {
    if fields == [] then 0 else fields[0].value + Shl(Joined(fields[1..]), fields[0].size)
  }

  predicate FieldsOk(fields: seq<Field>) {
    forall i | 0 <= i < |fields| :: fields[i].value < Pow2(fields[i].size)
  }

  lemma {:induction false} JoinedBound(fields: seq<Field>)
    requires FieldsOk(fields)
    ensures 0 <= Joined(fields) < Pow2(Size(fields))
  {
    if fields == [] {
    } else {
      var rest, size := fields[1..], fields[0].size;
      JoinedBound(rest);
      OrIsAdd(0, Joined(rest), size);
      ShlMonotone(Joined(rest), Pow2(Size(rest)), size);
      ShlOnes(Size(rest));
      ShlAdd(1, Size(rest), size);
      ShlOnes(Size(rest) + size);
    }
  }

  /** Reading a field takes it off the front. */
  lemma TakeField(f: Field, rest: seq<Field>, count: nat)
    requires FieldsOk([f] + rest) && f.size <= count
    ensures 0 <= Joined([f] + rest) && 0 <= Joined(rest)
    ensures var s := Bits(Joined([f] + rest), count);
      Take(s, f.size) == f.value && Drop(s, f.size) == Bits(Joined(rest), count - f.size)
  {
    hide Low, Shr, Shl, Pow2;
    var fields := [f] + rest;
    assert fields[0] == f && fields[1..] == rest;
    assert FieldsOk(rest) by {
      forall i | 0 <= i < |rest|
        ensures rest[i].value < Pow2(rest[i].size)
      {
        assert fields[i + 1] == rest[i];
      }
    }
    JoinedBound(rest);
    JoinedBound(fields);
    TakeWithin(f.value, Joined(rest), f.size, f.size);
    LowOfSmall(f.value, f.size);
    ShlNothing(Joined(rest));
  }

  /** What the decoder makes of the bits of a delta. */
  lemma DeltaIsRead(k: nat, width: nat, delta: int)
    requires SampleSize(k) && 1 <= width <= k + 1 && Fits(k, width, delta)
    ensures var f := DeltaField(k, width, delta);
      f.value < Pow2(f.size) && Classify(k, width, f.value) == Delta(delta)
  {
    hide Pow2;
    PatternIsNatural(k, width, delta);
    Doubled(k);
  }

  lemma Doubled(n: nat)
    ensures Pow2(n + 1) == 2 * Pow2(n)
  {
  }

  /** What it makes of the bits of a change of width. */
  lemma ChangeIsRead(k: nat, width: nat, target: nat)
    requires SampleSize(k) && 1 <= width <= k + 1 && 1 <= target <= k + 1 && target != width
    ensures var fields := ChangeFields(k, width, target);
      && FieldsOk(fields)
      && if |fields| == 2 then
           && Classify(k, width, fields[0].value) == Escape
           && fields[1].size == EscapeBits(k) && Jump(width, fields[1].value + 1) == target
         else |fields| == 1 && Classify(k, width, fields[0].value) == Width(target)
  {
    assert Pow2(width) == 2 * Pow2(width - 1);
    if width <= 6 {
      assert Pow2(3) == 8 && Pow2(4) == 16;
    } else if width <= k {
      MiddleIsNatural(k, width);
    } else {
      SizeValues(k);
      Remainder(k, target);
    }
  }

  lemma Remainder(k: nat, target: nat)
    requires SampleSize(k) && 1 <= target <= k + 1
    ensures (Pow2(k) + target) % 0x100 == target
  {
    hide Pow2;
    SizeValues(k);
  }

  /** A delta that is written at the current width is the next one decoded. */
  lemma DecodeValue(k: nat, width: nat, delta: int, rest: seq<Field>, count: nat, n: nat)
    requires SampleSize(k) && 1 <= width <= k + 1 && Fits(k, width, delta) && FieldsOk(rest) && 0 < n
    requires width <= count
    ensures var fields := [DeltaField(k, width, delta)] + rest;
      && FieldsOk(fields) && 0 <= Joined(fields) && 0 <= Joined(rest)
      && DecodeBlock(k, width, Bits(Joined(fields), count), n) ==
         WithDeltas([delta], DecodeBlock(k, width, Bits(Joined(rest), count - width), n - 1))
  {
    hide Joined, Classify, Low, Shr, Pow2, Fits;
    DeltaIsRead(k, width, delta);
    TakeField(DeltaField(k, width, delta), rest, count);
  }

  lemma SizeOfTwo(a: Field, b: Field)
    ensures Size([a, b]) == a.size + b.size
  {
    assert [b][1..] == [] && Size([b]) == b.size;
    assert [a, b][1..] == [b];
  }

  /** A change of width that is written at the current one takes effect. */
  lemma DecodeChange(k: nat, width: nat, target: nat, rest: seq<Field>, count: nat, n: nat)
    requires SampleSize(k) && 1 <= width <= k + 1 && 1 <= target <= k + 1 && target != width
    requires FieldsOk(rest) && 0 < n && Size(ChangeFields(k, width, target)) <= count
    ensures var fields := ChangeFields(k, width, target) + rest;
      && FieldsOk(fields) && 0 <= Joined(fields) && 0 <= Joined(rest)
      && DecodeBlock(k, width, Bits(Joined(fields), count), n) ==
         DecodeBlock(k, target, Bits(Joined(rest), count - Size(ChangeFields(k, width, target))), n)
  {
    hide Joined, Classify, Low, Shr, Pow2;
    var change := ChangeFields(k, width, target);
    ChangeIsRead(k, width, target);
    if |change| == 2 {
      assert change + rest == [change[0]] + ([change[1]] + rest);
      SizeOfTwo(change[0], change[1]);
      TakeField(change[1], rest, count - change[0].size);
      TakeField(change[0], [change[1]] + rest, count);
    } else {
      assert change + rest == [change[0]] + rest;
      assert Size(change) == change[0].size by { assert change[1..] == []; }
      TakeField(change[0], rest, count);
    }
  }

  lemma {:induction false} FieldsAreOk(k: nat, width: nat, steps: seq<Step>)
    requires SampleSize(k) && 1 <= width <= k + 1 && Sayable(k, width, steps)
    ensures FieldsOk(Fields(k, width, steps))
    decreases |steps|
  {
    hide Classify, Fits;
    if steps == [] {
    } else {
      match steps[0]
      case Say(delta) =>
        DeltaIsRead(k, width, delta);
        FieldsAreOk(k, width, steps[1..]);
      case Change(target) =>
        ChangeIsRead(k, width, target);
        FieldsAreOk(k, target, steps[1..]);
    }
  }

  lemma {:induction false} SizeOfBoth(a: seq<Field>, b: seq<Field>)
    ensures Size(a + b) == Size(a) + Size(b)
  {
    if a == [] {
      assert a + b == b;
    } else {
      assert (a + b)[1..] == a[1..] + b;
      SizeOfBoth(a[1..], b);
    }
  }

  /** Any deltas and any changes of width, from wide to narrow and back, are decoded as they were written. */
  lemma {:induction false} StepsDecode(k: nat, width: nat, steps: seq<Step>, count: nat)
    requires SampleSize(k) && 1 <= width <= k + 1 && Sayable(k, width, steps)
    requires Size(Fields(k, width, steps)) <= count
    ensures 0 <= Joined(Fields(k, width, steps))
    ensures
      var o := DecodeBlock(k, width, Bits(Joined(Fields(k, width, steps)), count), |Values(steps)|);
      o.Decoded? && o.deltas == Values(steps)
    decreases |steps|
  {
    hide Joined, Fits, ChangeFields, DeltaField, DecodeBlock, Size, FieldsOk, Pow2;
    var fields := Fields(k, width, steps);
    FieldsAreOk(k, width, steps);
    JoinedBound(fields);
    if |Values(steps)| == 0 {
      NothingToDecode(k, width, Bits(Joined(fields), count));
    } else {
      match steps[0]
      case Say(delta) =>
        var rest := Fields(k, width, steps[1..]);
        SizeOfBoth([DeltaField(k, width, delta)], rest);
        SizeOfOne(k, width, delta);
        FieldsAreOk(k, width, steps[1..]);
        DecodeValue(k, width, delta, rest, count, |Values(steps)|);
        StepsDecode(k, width, steps[1..], count - width);
      case Change(target) =>
        var rest := Fields(k, target, steps[1..]);
        var size := Size(ChangeFields(k, width, target));
        SizeOfBoth(ChangeFields(k, width, target), rest);
        FieldsAreOk(k, target, steps[1..]);
        DecodeChange(k, width, target, rest, count, |Values(steps)|);
        StepsDecode(k, target, steps[1..], count - size);
    }
  }

  lemma SizeOfOne(k: nat, width: nat, delta: int)
    requires SampleSize(k) && Fits(k, width, delta)
    ensures Size([DeltaField(k, width, delta)]) == width
  {
    hide Fits;
    assert [DeltaField(k, width, delta)][1..] == [];
  }

  lemma NothingToDecode(k: nat, width: nat, s: Bits)
    ensures DecodeBlock(k, width, s, 0) == Decoded([], s)
  {
  }

  /** The bits of a block's steps, filled up to whole bytes. */
  function BlockBytes(k: nat, steps: seq<Step>): seq<u8>
    requires SampleSize(k) && Sayable(k, k + 1, steps)
  {
    var fields := Fields(k, k + 1, steps);
    ToBytes(Joined(fields), (Size(fields) + 7) / 8)
  }

  lemma BlockDecodes(k: nat, steps: seq<Step>)
    requires SampleSize(k) && Sayable(k, k + 1, steps)
    ensures
      var o := DecodeBlock(k, k + 1, BlockBits(BlockBytes(k, steps)), |Values(steps)|);
      o.Decoded? && o.deltas == Values(steps)
  {
    hide Joined, Fields, Pow2, DecodeBlock, ToBytes, Value, Sayable;
    var fields := Fields(k, k + 1, steps);
    var size := (Size(fields) + 7) / 8;
    FieldsAreOk(k, k + 1, steps);
    JoinedBound(fields);
    Pow2Monotone(Size(fields), 8 * size);
    ValueOfBytes(Joined(fields), size);
    StepsDecode(k, k + 1, steps, 32 * (size / 4 + 2));
  }

  /** A block holds at most 32768 samples of 8 bits, or 16384 of 16 bits. */
  function BlockSamples(k: nat, n: nat): nat {
    var most := if k == 8 then 32768 else 16384;
    if n <= most then n else most
  }

  /** The steps of a block say the differences of its samples; the block starts from silence. */
  predicate Says(k: nat, it215: bool, steps: seq<Step>, samples: seq<int>)
    requires SampleSize(k)
  {
    && Sayable(k, k + 1, steps) && Values(steps) == Deltas(k, it215, samples) && |BlockBytes(k, steps)| < 0x1_0000
  }

  /** One list of steps for each block of the sample. */
  predicate Plans(k: nat, it215: bool, plans: seq<seq<Step>>, target: seq<int>)
    requires SampleSize(k)
    decreases |target|
  {
    if target == [] then plans == []
    else
      var length := BlockSamples(k, |target|);
      && plans != [] && Says(k, it215, plans[0], target[..length])
      && Plans(k, it215, plans[1..], target[length..])
  }

  function PlannedFile(k: nat, it215: bool, plans: seq<seq<Step>>, target: seq<int>): seq<u8>
    requires SampleSize(k) && Plans(k, it215, plans, target)
    decreases |target|
  {
    if target == [] then []
    else
      var block := BlockBytes(k, plans[0]);
      [|block| % 0x100, |block| / 0x100] + block
      + PlannedFile(k, it215, plans[1..], target[BlockSamples(k, |target|)..])
  }

  lemma LoadPlannedBlock(k: nat, it215: bool, file: seq<u8>, pos: nat, steps: seq<Step>, target: seq<int>)
    requires SampleSize(k) && Samples(k, target) && target != []
    requires Says(k, it215, steps, target[..BlockSamples(k, |target|)])
    requires BlockAt(file, pos) == Some(BlockBytes(k, steps))
    ensures var length := BlockSamples(k, |target|);
      LoadFrom(k, it215, file, pos, |target|) ==
      WithSamples(target[..length],
                  LoadFrom(k, it215, file, pos + 2 + |BlockBytes(k, steps)|, |target| - length))
  {
    hide DecodeBlock, Deltas, Integrated, Wrap, BlockAt, Value, BlockBytes, Sayable;
    var first := target[..BlockSamples(k, |target|)];
    BlockDecodes(k, steps);
    IntegrateDeltas(k, it215, first);
  }

  /** Every sample loads from every way of writing it in this format, if the file goes on behind it. */
  lemma {:induction false} PlannedSampleLoads(
      k: nat, it215: bool, before: seq<u8>, plans: seq<seq<Step>>, target: seq<int>, after: seq<u8>)
    requires SampleSize(k) && Samples(k, target) && Plans(k, it215, plans, target)
    ensures
      var file := before + (PlannedFile(k, it215, plans, target) + after);
      LoadFrom(k, it215, file, |before|, |target|) ==
      if target == [] || after != [] then Loaded(target, |before| + |PlannedFile(k, it215, plans, target)|)
      else FileError
    decreases |target|
  {
    hide LoadFrom, BlockBytes, BlockAt, Wrap, Says, PlannedFile, Plans;
    var file := before + (PlannedFile(k, it215, plans, target) + after);
    if target == [] {
      NothingPlanned(k, it215, plans);
      LoadNothing(k, it215, [], file, |before|);
      NoSamplesYet(LoadFrom(k, it215, file, |before|, 0));
    } else {
      var length := BlockSamples(k, |target|);
      FirstPlannedBlock(k, it215, before, plans, target, after);
      var rest, block := target[length..], BlockBytes(k, plans[0]);
      var front: seq<u8> := [|block| % 0x100, |block| / 0x100] + block;
      var more := PlannedFile(k, it215, plans[1..], rest);
      if rest == [] {
        NothingPlanned(k, it215, plans[1..]);
      }
      FindBlock(before, block, more + after);
      PlannedSampleLoads(k, it215, before + front, plans[1..], rest, after);
      if more + after == [] {
        NoBlockLeft(k, it215, file, |before|, |target|);
      } else {
        LoadPlannedBlock(k, it215, file, |before|, plans[0], target);
      }
      assert target[..length] + rest == target;
    }
  }

  lemma NothingPlanned(k: nat, it215: bool, plans: seq<seq<Step>>)
    requires SampleSize(k) && Plans(k, it215, plans, [])
    ensures PlannedFile(k, it215, plans, []) == []
  {
  }

  lemma SaysIsShort(k: nat, it215: bool, steps: seq<Step>, samples: seq<int>)
    requires SampleSize(k) && Says(k, it215, steps, samples)
    ensures Sayable(k, k + 1, steps) && |BlockBytes(k, steps)| < 0x1_0000
  {
  }

  /** How the file splits around its first block. */
  lemma FirstPlannedBlock(
      k: nat, it215: bool, before: seq<u8>, plans: seq<seq<Step>>, target: seq<int>, after: seq<u8>)
    requires SampleSize(k) && Plans(k, it215, plans, target) && target != []
    ensures plans != [] && Sayable(k, k + 1, plans[0])
    ensures
      var length, block := BlockSamples(k, |target|), BlockBytes(k, plans[0]);
      && |block| < 0x1_0000 && Says(k, it215, plans[0], target[..length])
      && Plans(k, it215, plans[1..], target[length..])
      && var front: seq<u8> := [|block| % 0x100, |block| / 0x100] + block;
         var all, more := PlannedFile(k, it215, plans, target), PlannedFile(k, it215, plans[1..], target[length..]);
         && before + (all + after) == before + (front + (more + after))
         && before + (all + after) == (before + front) + (more + after)
         && |all| == 2 + |block| + |more|
  {
    hide BlockBytes, Sayable, Deltas, Says;
    SaysIsShort(k, it215, plans[0], target[..BlockSamples(k, |target|)]);
    var block := BlockBytes(k, plans[0]);
    var front: seq<u8> := [|block| % 0x100, |block| / 0x100] + block;
    var more := PlannedFile(k, it215, plans[1..], target[BlockSamples(k, |target|)..]);
    assert PlannedFile(k, it215, plans, target) == front + more;
    Regrouped(before, front, more, after);
  }

  lemma Regrouped(a: seq<u8>, b: seq<u8>, c: seq<u8>, d: seq<u8>)
    ensures a + ((b + c) + d) == a + (b + (c + d)) == (a + b) + (c + d)
  {
    assert (b + c) + d == b + (c + d);
    assert a + (b + (c + d)) == (a + b) + (c + d);
  }

  /** Conversion to a signed integer: in range, and off by a multiple of 2^k. */
  lemma WrapIsSigned(k: nat, x: int) returns (q: int)
    requires SampleSize(k)
    ensures k == 8 ==> -128 <= Wrap(k, x) < 128 && x == Wrap(k, x) + 256 * q
    ensures k == 16 ==> -32768 <= Wrap(k, x) < 32768 && x == Wrap(k, x) + 65536 * q
  {
    q := if k == 8 then (x + 128) / 256 else (x + 32768) / 65536;
  }

  /**
   * In plain mode each sample differs from the one before it by its delta, in IT 2.15 mode the differences do; before
   * the first sample there is silence.
   */
  lemma SamplesDifferByDeltas(k: nat, it215: bool, deltas: seq<int>, i: nat)
    requires SampleSize(k) && i < |deltas|
    ensures
      var s := Integrated(k, it215, deltas);
      var here, last, before := s[i], if 1 <= i then s[i - 1] else 0, if 2 <= i then s[i - 2] else 0;
      Wrap(k, if it215 then here - last - (last - before) else here - last) == Wrap(k, deltas[i])
  {
    hide Wrap;
    if it215 {
      var a, b, c := DoubleSum(deltas, i + 1), DoubleSum(deltas, i), if 1 <= i then DoubleSum(deltas, i - 1) else 0;
      SumsGrow(deltas, i + 1);
      if 1 <= i {
        SumsGrow(deltas, i);
      }
      assert a - b - (b - c) == deltas[i];
      SecondDifferenceWraps(k, a, b, c);
      NothingWraps(k);
    } else {
      DifferenceWraps(k, Sum(deltas, i + 1), Sum(deltas, i));
      NothingWraps(k);
    }
  }

  lemma NothingWraps(k: nat)
    ensures Wrap(k, 0) == 0
  {
  }

  lemma DifferenceWraps(k: nat, a: int, b: int)
    ensures Wrap(k, Wrap(k, a) - Wrap(k, b)) == Wrap(k, a - b)
  {
    hide Wrap;
    WrapAdd(k, a, -Wrap(k, b));
    WrapAdd(k, b, a - b - Wrap(k, b));
    assert b + (a - b - Wrap(k, b)) == a - Wrap(k, b);
    assert Wrap(k, b) + (a - b - Wrap(k, b)) == a - b;
  }

  lemma SecondDifferenceWraps(k: nat, a: int, b: int, c: int)
    ensures Wrap(k, Wrap(k, a) - Wrap(k, b) - (Wrap(k, b) - Wrap(k, c))) == Wrap(k, a - b - (b - c))
  {
    hide Wrap;
    DifferenceWraps(k, a, b);
    DifferenceWraps(k, b, c);
    DifferenceWraps(k, Wrap(k, a) - Wrap(k, b), Wrap(k, b) - Wrap(k, c));
    DifferenceWraps(k, a - b, b - c);
  }
}
