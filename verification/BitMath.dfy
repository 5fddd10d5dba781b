/** Fixed-width C arithmetic over the unbounded integers. Shifts are iterated halving and doubling. */
module BitMath {

  type u8 = x: int | 0 <= x < 0x100
  type u32 = x: int | 0 <= x < 0x1_0000_0000

  lemma EvenPart(x: int, y: int)
    ensures (x + 2 * y) % 2 == x % 2
  {
  }

  /** `x << n` without overflow. */
  function Shl(x: int, n: nat): int {
    if n == 0 then x else 2 * Shl(x, n - 1)
  }

  /** `x >> n`; on a negative x this is the arithmetic shift. */
  function Shr(x: int, n: nat): int
    decreases n
  {
    if n == 0 then x else Shr(x / 2, n - 1)
  }

  /** The n low bits of x. */
  function Low(x: int, n: nat): nat
    decreases n
  {
    if n == 0 then 0 else x % 2 + 2 * Low(x / 2, n - 1)
  }

  function Pow2(n: nat): (p: int)
    ensures 0 < p
  {
    if n == 0 then 1 else 2 * Pow2(n - 1)
  }

  lemma {:induction false} Pow2Monotone(m: nat, n: nat)
    requires m <= n
    ensures Pow2(m) <= Pow2(n)
  {
    if n <= m {
    } else {
      Pow2Monotone(m, n - 1);
    }
  }

  lemma Pow2Values()
    ensures Pow2(8) == 0x100 && Pow2(16) == 0x1_0000 && Pow2(32) == 0x1_0000_0000
  {
    assert Pow2(4) == 16 && Pow2(8) == 0x100 && Pow2(12) == 0x1000 && Pow2(16) == 0x1_0000;
    assert Pow2(20) == 0x10_0000 && Pow2(24) == 0x100_0000 && Pow2(28) == 0x1000_0000;
  }

  /** Low and Shr are the remainder and the quotient by 2^n. */
  lemma {:induction false} LowShr(x: int, n: nat)
    ensures x == Low(x, n) + Shl(Shr(x, n), n)
    ensures Low(x, n) < Pow2(n)
    decreases n
  {
    if n == 0 {
    } else {
      LowShr(x / 2, n - 1);
    }
  }

  lemma {:induction false} ShrSmaller(x: nat, n: nat)
    ensures 0 <= Shr(x, n) <= x
    decreases n
  {
    if n == 0 {
    } else {
      ShrSmaller(x / 2, n - 1);
    }
  }

  lemma {:induction false} ShlIsMul(x: int, n: nat)
    ensures Shl(x, n) == x * Pow2(n)
  {
    if n == 0 {
    } else {
      ShlIsMul(x, n - 1);
      var p := Pow2(n - 1);
      assert x * (2 * p) == 2 * (x * p);
    }
  }

  lemma {:induction false} ShlAdd(x: int, m: nat, n: nat)
    ensures Shl(Shl(x, m), n) == Shl(x, m + n)
  {
    if n == 0 {
    } else {
      ShlAdd(x, m, n - 1);
    }
  }

  lemma {:induction false} ShlMonotone(x: int, y: int, n: nat)
    requires x < y
    ensures Shl(x, n) + Pow2(n) <= Shl(y, n)
  {
    if n == 0 {
    } else {
      ShlMonotone(x, y, n - 1);
    }
  }

  lemma {:induction false} ShlOnes(n: nat)
    ensures Shl(0, n) == 0 && Shl(1, n) == Pow2(n)
  {
    if n == 0 {
    } else {
      ShlOnes(n - 1);
    }
  }

  /** C's `a & b` and `a | b` on unsigned operands, bit by bit. */
  function BitAnd(a: nat, b: nat): nat
    decreases a + b
  {
    if a == 0 || b == 0 then 0 else (if a % 2 + b % 2 > 1 then 1 else 0) + 2 * BitAnd(a / 2, b / 2)
  }

  function BitOr(a: nat, b: nat): nat
    decreases a + b
  {
    if a == 0 then b else if b == 0 then a
    else (if a % 2 + b % 2 > 0 then 1 else 0) + 2 * BitOr(a / 2, b / 2)
  }

  /** Masking with n ones keeps the n low bits. */
  lemma {:induction false} MaskIsLow(a: nat, n: nat)
    ensures BitAnd(a, Pow2(n) - 1) == Low(a, n)
  {
    if a == 0 {
      LowOfZero(n);
    } else if n > 0 {
      MaskIsLow(a / 2, n - 1);
    }
  }

  lemma {:induction false} LowOfZero(n: nat)
    ensures Low(0, n) == 0
  {
    if n == 0 {
    } else {
      LowOfZero(n - 1);
    }
  }

  /** Or-ing in bits above position k of a k-bit number adds them. */
  lemma {:induction false} OrIsAdd(a: nat, b: nat, k: nat)
    requires a < Pow2(k)
    ensures 0 <= Shl(b, k)
    ensures BitOr(a, Shl(b, k)) == a + Shl(b, k)
  {
    if k == 0 {
    } else {
      OrIsAdd(a / 2, b, k - 1);
    }
  }

  /** C's `x << k` on a 32-bit unsigned operand. */
  function Shl32(x: nat, k: nat): u32 {
    Shl(x, k) % 0x1_0000_0000
  }

  /** Taking n low bits off a number of the shape low + (high << r), n within the low part. */
  lemma {:induction false} TakeWithin(low: nat, high: nat, r: nat, n: nat)
    requires low < Pow2(r) && n <= r
    ensures Low(low + Shl(high, r), n) == Low(low, n)
    ensures Shr(low + Shl(high, r), n) == Shr(low, n) + Shl(high, r - n)
    ensures 0 <= Shr(low, n) < Pow2(r - n)
  {
    if n == 0 {
    } else {
      TakeWithin(low / 2, high, r - 1, n - 1);
      assert (low + Shl(high, r)) / 2 == low / 2 + Shl(high, r - 1);
    }
  }

  /** The same when the n bits reach into the high part. */
  lemma {:induction false} TakeAcross(low: nat, high: nat, r: nat, n: nat)
    requires low < Pow2(r) && r <= n
    ensures Low(low + Shl(high, r), n) == low + Shl(Low(high, n - r), r)
    ensures Shr(low + Shl(high, r), n) == Shr(high, n - r)
  {
    if r == 0 {
    } else {
      TakeAcross(low / 2, high, r - 1, n - 1);
      assert (low + Shl(high, r)) / 2 == low / 2 + Shl(high, r - 1);
    }
  }
}
