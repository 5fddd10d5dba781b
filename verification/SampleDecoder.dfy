/**
 * The variable-width delta code of Impulse Tracker's compressed samples, decoded from a bit stream.
 * The 8-bit and the 16-bit code differ in one number, the sample size k.
 */
module SampleDecoder {
  import opened BitMath
  import opened BitReader

  predicate SampleSize(k: nat) {
    k == 8 || k == 16
  }

  /** Conversion to a signed k-bit integer. */
  function Wrap(k: nat, x: int): int {
    if k == 8 then (x + 0x80) % 0x100 - 0x80 else (x + 0x8000) % 0x1_0000 - 0x8000
  }

  /** What a value read at some width says: a sample delta, a new width, or that a new width follows. */
  datatype Code = Delta(delta: int) | Width(width: nat) | Escape

  /** The w-bit two's-complement value. */
  function Signed(w: nat, v: int): int
    requires 0 < w
  {
    if v < Pow2(w - 1) then v else v - Pow2(w)
  }

  function EscapeBits(k: nat): nat {
    if k == 8 then 3 else 4
  }

  /** The largest value below the width codes of a medium width. */
  function Border(k: nat, width: nat): int
    requires 0 < width
  {
    Pow2(width - 1) - 1 - k / 2
  }

  /** The width named by code while the width is another one. */
  function Jump(width: nat, code: int): int {
    if code < width then code else code + 1
  }

  function Classify(k: nat, width: nat, v: nat): Code
    requires 1 <= width <= k + 1
  {
    if width < 7 then
      if v == Pow2(width - 1) then Escape else Delta(Signed(width, v))
    else if width <= k then
      if Border(k, width) < v <= Border(k, width) + k
      then Width(Jump(width, if Border(k, width) < v then v - Border(k, width) else 0))
      else Delta(Signed(width, v))
    else
      if v >= Pow2(k) then Width((v + 1) % 0x100) else Delta(Signed(k, v))
  }

  datatype Outcome =
    | Decoded(deltas: seq<int>, rest: Bits)
    | IllegalWidth
    | Undefined // the block ran out of bits, or a shift by more than 30 was asked for

  function WithDeltas(deltas: seq<int>, o: Outcome): Outcome {
    if o.Decoded? then o.(deltas := deltas + o.deltas) else o
  }

  /** n deltas, starting at the given width. */
  function DecodeBlock(k: nat, width: nat, s: Bits, n: nat): (o: Outcome)
    ensures o.Decoded? ==> |o.deltas| == n
    decreases s.count
  {
    if n == 0 then Decoded([], s)
    else if width == 0 || width > 30 || width > s.count then Undefined
    else if width > k + 1 then IllegalWidth
    else
      var rest := Drop(s, width);
      match Classify(k, width, Take(s, width))
      case Delta(d) => WithDeltas([d], DecodeBlock(k, width, rest, n - 1))
      case Width(w) => DecodeBlock(k, w, rest, n)
      case Escape =>
        if EscapeBits(k) > rest.count then Undefined
        else DecodeBlock(k, Jump(width, Take(rest, EscapeBits(k)) + 1), Drop(rest, EscapeBits(k)), n)
  }

  /** Prefix sums and prefix sums of prefix sums. */
  function Sum(deltas: seq<int>, n: nat): int
    requires n <= |deltas|
  {
    if n == 0 then 0 else Sum(deltas, n - 1) + deltas[n - 1]
  }

  function DoubleSum(deltas: seq<int>, n: nat): int
    requires n <= |deltas|
  {
    if n == 0 then 0 else DoubleSum(deltas, n - 1) + Sum(deltas, n)
  }

  /** Sample i: the running sum of the deltas, summed once more for IT 2.15, as a k-bit integer. */
  function Sample(k: nat, it215: bool, deltas: seq<int>, i: nat): int
    requires i < |deltas|
  {
    Wrap(k, if it215 then DoubleSum(deltas, i + 1) else Sum(deltas, i + 1))
  }

  function Integrated(k: nat, it215: bool, deltas: seq<int>): (samples: seq<int>)
    ensures |samples| == |deltas|
  {
    seq(|deltas|, i requires 0 <= i < |deltas| => Sample(k, it215, deltas, i))
  }

  lemma {:induction false} SumPrefix(a: seq<int>, b: seq<int>, n: nat)
    requires n <= |a|
    ensures Sum(a + b, n) == Sum(a, n) && DoubleSum(a + b, n) == DoubleSum(a, n)
  {
    if n == 0 {
    } else {
      SumPrefix(a, b, n - 1);
    }
  }

  lemma SamplePrefix(k: nat, it215: bool, a: seq<int>, b: seq<int>, i: nat)
    requires i < |a|
    ensures Sample(k, it215, a + b, i) == Sample(k, it215, a, i)
  {
    SumPrefix(a, b, i + 1);
  }

  lemma {:induction false} LowBelow(x: int, n: nat)
    ensures Low(x, n) < Pow2(n)
    decreases n
  {
    if n == 0 {
    } else {
      LowBelow(x / 2, n - 1);
    }
  }

  /** Below the widest mode a code always names a legal width other than the current one. */
  lemma NarrowCodesAreLegal(k: nat, width: nat, v: nat, s: Bits)
    requires SampleSize(k) && 1 <= width <= k
    ensures var c := Classify(k, width, v); c.Width? ==> 1 <= c.width <= k + 1 && c.width != width
    ensures var w := Jump(width, Take(s, EscapeBits(k)) + 1); 1 <= w <= k + 1 && w != width
  {
    LowBelow(s.value, EscapeBits(k));
    assert Pow2(3) == 8 && Pow2(4) == 16;
  }

  /** Conversely the codes 1..k name every other legal width, each exactly once. */
  lemma EveryWidthHasOneCode(k: nat, width: nat, target: nat)
    requires 1 <= width <= k + 1 && 1 <= target <= k + 1 && target != width
    ensures exists code | 1 <= code <= k :: Jump(width, code) == target
    ensures forall a, b | Jump(width, a) == Jump(width, b) :: a == b
  {
    assert Jump(width, if target < width then target else target - 1) == target;
  }
}
