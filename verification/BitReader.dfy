/** The destructive bit reader under the compressed-sample decoders. */
module BitReader {
  import opened BitMath

  /** A bit stream, first bit least significant: the bits still to come, and how many. */
  datatype Bits = Bits(value: int, count: nat)

  function Take(s: Bits, n: nat): nat {
    Low(s.value, n)
  }

  function Drop(s: Bits, n: nat): Bits
    requires n <= s.count
  {
    Bits(Shr(s.value, n), s.count - n)
  }

  /** The little-endian number held by a byte sequence. */
  function Value(b: seq<u8>): nat {
    if |b| == 0 then 0 else b[0] + 0x100 * Value(b[1..])
  }

  /** Bit k of the stream is bit k % 8 of byte k / 8: dropping and taking read the bytes' bits in order. */
  lemma {:induction false} StreamBit(b: seq<u8>, k: nat)
    requires k < 8 * |b|
    ensures Shr(Value(b), k) % 2 == Shr(b[k / 8], k % 8) % 2
  {
    if k < 8 {
      assert k / 8 == 0 && k % 8 == k;
      FirstByte(b[0], Value(b[1..]), k, 8);
    } else {
      assert (k - 8) / 8 == k / 8 - 1 && (k - 8) % 8 == k % 8;
      LaterByte(b[0], Value(b[1..]), k, 8);
      StreamBit(b[1..], k - 8);
    }
  }

  lemma FirstByte(byte: u8, rest: nat, k: nat, n: nat)
    requires k < n == 8
    ensures Shr(byte + 0x100 * rest, k) % 2 == Shr(byte, k) % 2
  {
    var high := Shl(rest, n - k - 1);
    ShlByte(rest, n);
    TakeWithin(byte, rest, n, k);
    assert Shr(byte + 0x100 * rest, k) == Shr(byte, k) + 2 * high;
    EvenPart(Shr(byte, k), high);
  }

  lemma LaterByte(byte: u8, rest: nat, k: nat, n: nat)
    requires k >= n == 8
    ensures Shr(byte + 0x100 * rest, k) == Shr(rest, k - n)
  {
    ShlByte(rest, n);
    TakeAcross(byte, rest, n, k);
  }

  lemma ShlByte(x: int, n: nat)
    requires n == 8
    ensures Pow2(n) == 0x100 && Shl(x, n) == 0x100 * x
  {
    Pow2Values();
    ShlIsMul(x, n);
  }

  lemma ShlDword(x: int, n: nat)
    requires n == 32
    ensures Pow2(n) == 0x1_0000_0000 && Shl(x, n) == 0x1_0000_0000 * x
  {
    Pow2Values();
    ShlIsMul(x, n);
  }

  function Zeros(n: nat): (z: seq<u8>)
    ensures |z| == n
  {
    seq(n, _ => 0)
  }

  lemma {:induction false} ValuePadded(b: seq<u8>, n: nat)
    ensures Value(b + Zeros(n)) == Value(b)
    decreases |b| + n
  {
    var p := b + Zeros(n);
    if |b| > 0 {
      assert p[1..] == b[1..] + Zeros(n);
      ValuePadded(b[1..], n);
    } else if n > 0 {
      assert p[1..] == b + Zeros(n - 1);
      ValuePadded(b, n - 1);
    }
  }

  /** The little-endian 16-bit word at a position. */
  function Word(b: seq<u8>, at: nat): nat
    requires at + 2 <= |b|
  {
    b[at] as int + 0x100 * b[at + 1] as int
  }

  function Dword(b: seq<u8>, at: nat): u32
    requires at + 4 <= |b|
  {
    b[at] as int + 0x100 * b[at + 1] as int + 0x1_0000 * b[at + 2] as int + 0x100_0000 * b[at + 3] as int
  }

  /** `val <<= 8; val |= byte`, as the reader assembles a dword. */
  lemma ShiftIn(val: nat, byte: u8)
    requires val < 0x100_0000
    ensures BitOr(byte, Shl32(val, 8)) == byte + 0x100 * val
  {
    hide BitOr, Shl;
    var n := 8;
    ShlByte(val, n);
    OrIsAdd(byte, val, n);
  }

  /** `val & 0xFF` */
  lemma LowByte(val: nat)
    ensures BitAnd(val, 0xFF) == val % 0x100
  {
    hide BitAnd, Low, Shr, Shl, Pow2;
    var n := 8;
    ShlByte(Shr(val, n), n);
    MaskIsLow(val, n);
    LowShr(val, n);
  }

  lemma DwordBytes(val: u32)
    ensures val == val % 0x100 + 0x100 * (val / 0x100 % 0x100) + 0x1_0000 * (val / 0x1_0000 % 0x100)
                   + 0x100_0000 * (val / 0x100_0000)
    ensures val / 0x100_0000 < 0x100
  {
    LowerByte(val);
    LowerByte(val / 0x100);
    ByteHigher(val, 0x100);
    ByteHigher(val, 0x1_0000);
    LowerByte(val / 0x1_0000);
  }

  lemma LowerByte(x: nat)
    ensures x == x % 0x100 + 0x100 * (x / 0x100)
  {
  }

  lemma ByteHigher(x: nat, m: nat)
    requires m == 0x100 || m == 0x1_0000
    ensures x / m / 0x100 == x / (m * 0x100)
  {
  }

  lemma ValueDword(b: seq<u8>, at: nat)
    requires at + 4 <= |b|
    ensures Value(b[at..]) == Dword(b, at) + 0x1_0000_0000 * Value(b[at + 4..])
  {
    forall i | at <= i < at + 4
      ensures Value(b[i..]) == b[i] + 0x100 * Value(b[i + 1..])
    {
      assert b[i..][1..] == b[i + 1..];
    }
  }

  /** A read that stays within the current dword. */
  lemma ReadWithin(val: u32, high: nat, r: nat, n: nat)
    requires val < Pow2(r) && n <= r
    ensures BitAnd(val, Pow2(n) - 1) == Low(val + Shl(high, r), n)
    ensures Shr(val, n) + Shl(high, r - n) == Shr(val + Shl(high, r), n)
    ensures 0 <= Shr(val, n) < Pow2(r - n)
    ensures Shr(val, n) <= val
  {
    MaskIsLow(val, n);
    TakeWithin(val, high, r, n);
    ShrSmaller(val, n);
  }

  /** A read that moves on to the next dword. */
  lemma ReadAcross(low: u32, val: u32, next: nat, r: nat, n: nat, dword: nat)
    requires low < Pow2(r) && r < n <= dword == 32
    ensures BitOr(low, Shl32(BitAnd(val, Pow2(n - r) - 1), r)) == Low(low + Shl(val + 0x1_0000_0000 * next, r), n)
    ensures Shr(val, n - r) + Shl(next, dword - (n - r)) == Shr(low + Shl(val + 0x1_0000_0000 * next, r), n)
    ensures 0 <= Shr(val, n - r) < Pow2(dword - (n - r))
    ensures Shr(val, n - r) <= val
  {
    hide BitAnd, BitOr, Low, Shr, Shl, Pow2;
    ShlDword(next, dword);
    MaskIsLow(val, n - r);
    LowShr(val, n - r);
    ShrSmaller(val, n - r);
    TakeWithin(val, next, dword, n - r);
    TakeAcross(low, val + 0x1_0000_0000 * next, r, n);
    OrIsAdd(low, Low(val, n - r), r);
    ShiftFits(Low(val, n - r), r, n, dword);
  }

  /** Fewer than n - r bits shifted left by r stay within n <= 32 bits. */
  lemma ShiftFits(bits: nat, r: nat, n: nat, dword: nat)
    requires r <= n <= dword == 32 && bits < Pow2(n - r)
    ensures Shl32(bits, r) == Shl(bits, r)
  {
    ShlMonotone(bits, Pow2(n - r), r);
    ShlOnes(n - r);
    ShlAdd(1, n - r, r);
    ShlOnes(n);
    Pow2Monotone(n, dword);
    ShlDword(1, dword);
    OrIsAdd(0, bits, r);
  }

  /** The block buffer with the reading position: a dword index and the bits left in that dword. */
  class BlockReader {
    const buffer: array<u8>
    var position: nat
    var remaining: nat

    ghost predicate Valid()
      reads this, buffer
    {
      && 4 * position + 4 <= buffer.Length
      && buffer.Length % 4 == 0
      && remaining <= 32
      && Dword(buffer[..], 4 * position) < Pow2(remaining)
    }

    /** What is left of the current dword, followed by the dwords after it. */
    ghost function Stream(): Bits
      requires Valid()
      reads this, buffer
    {
      var low := Dword(buffer[..], 4 * position);
      var high := Value(buffer[4 * position + 4..]);
      Bits(low + Shl(high, remaining), remaining + 8 * (buffer.Length - 4 * position - 4))
    }

    /** Bits read since the start of the block. */
    function Consumed(): int
      reads this
    {
      32 * position + 32 - remaining
    }

    /** A zeroed buffer of (size >> 2) + 2 dwords holding the block's bytes. */
    constructor (bytes: seq<u8>)
      ensures Valid() && fresh(buffer) && Consumed() == 0
      ensures Stream() == Bits(Value(bytes), 32 * (|bytes| / 4 + 2))
    {
      var length := 4 * (|bytes| / 4 + 2);
      var padded := bytes + Zeros(length - |bytes|);
      buffer := new u8[length](i requires 0 <= i < length => padded[i]);
      position := 0;
      remaining := 32;
      new;
      assert buffer[..] == padded;
      Pow2Values();
      ShlDword(Value(padded[4..]), 32);
      ValueDword(padded, 0);
      ValuePadded(bytes, length - |bytes|);
      assert padded[0..] == padded;
      assert buffer[4..] == padded[4..];
    }

    method LoadDword(at: nat) returns (val: u32)
      requires at + 4 <= buffer.Length
      ensures val == Dword(buffer[..], at)
    {
      val := buffer[at + 3];
      ShiftIn(val, buffer[at + 2]);
      val := BitOr(buffer[at + 2], Shl32(val, 8));
      ShiftIn(val, buffer[at + 1]);
      val := BitOr(buffer[at + 1], Shl32(val, 8));
      ShiftIn(val, buffer[at]);
      val := BitOr(buffer[at], Shl32(val, 8));
    }

    method StoreDword(at: nat, val: u32)
      requires at + 4 <= buffer.Length
      modifies buffer
      ensures Dword(buffer[..], at) == val
      ensures buffer[at + 4..] == old(buffer[at + 4..])
    {
      DwordBytes(val);
      LowByte(val / 0x1_0000);
      LowByte(val / 0x100);
      LowByte(val);
      buffer[at + 3] := val / 0x100_0000;
      buffer[at + 2] := BitAnd(val / 0x1_0000, 0xFF);
      buffer[at + 1] := BitAnd(val / 0x100, 0xFF);
      buffer[at] := BitAnd(val, 0xFF);
    }

    /** The wanted bits are all in the current dword. */
    method ReadCurrent(n: nat) returns (result: nat)
      requires Valid() && n <= remaining
      modifies this`remaining, buffer
      ensures Valid() && remaining == old(remaining) - n
      ensures result == Take(old(Stream()), n)
      ensures Stream() == Drop(old(Stream()), n)
    {
      hide Low, Shr, Shl, BitAnd, BitOr, Pow2, Value;
      var val := LoadDword(4 * position);
      ReadWithin(val, Value(buffer[4 * position + 4..]), remaining, n);
      result := BitAnd(val, Pow2(n) - 1);
      val := Shr(val, n);
      remaining := remaining - n;
      StoreDword(4 * position, val);
    }

    /** The wanted bits reach into the next dword. */
    method ReadNext(n: nat) returns (result: nat)
      requires Valid() && remaining < n <= 30 && n <= Stream().count
      modifies this`position, this`remaining, buffer
      ensures Valid() && position == old(position) + 1 && remaining == old(remaining) + 32 - n
      ensures result == Take(old(Stream()), n)
      ensures Stream() == Drop(old(Stream()), n)
    {
      hide Low, Shr, Shl, BitAnd, BitOr, Pow2, Value;
      var nbits := n - remaining;
      result := LoadDword(4 * position);
      position := position + 1;
      ValueDword(buffer[..], 4 * position);
      var val := LoadDword(4 * position);
      ReadAcross(result, val, Value(buffer[4 * position + 4..]), remaining, n, 32);
      result := BitOr(result, Shl32(BitAnd(val, Pow2(nbits) - 1), remaining));
      val := Shr(val, nbits);
      remaining := 32 - nbits;
      StoreDword(4 * position, val);
    }

    /** Returns the next n bits of the stream and removes exactly those. */
    method Read(n: nat) returns (result: nat)
      requires Valid() && n <= 30 && n <= Stream().count
      modifies this`position, this`remaining, buffer
      ensures Valid()
      ensures result == Take(old(Stream()), n)
      ensures Stream() == Drop(old(Stream()), n)
      ensures Consumed() == old(Consumed()) + n
    {
      if n <= remaining {
        result := ReadCurrent(n);
      } else {
        result := ReadNext(n);
      }
    }
  }
}
