/** C division and remainder, which truncate towards zero. */
module Division {

  /** C division. */
  function TruncatingDiv(x: int, m: nat): int
    requires 0 < m
  {
    if x >= 0 then x / m else 0 - -x / m
  }

  /** C's remainder has the sign of the dividend. */
  function TruncatingMod(x: int, m: nat): int
    requires 0 < m
  {
    x - m * TruncatingDiv(x, m)
  }

  lemma NextMultiple(m: nat, p: int, q: int)
    requires p < q
    ensures m * p + m <= m * q
  {
    assert m * (p + 1) <= m * q;
  }

  lemma UniqueQuotient(x: nat, m: nat, p: int, q: int)
    requires 0 < m && m * p <= x < m * p + m && m * q <= x < m * q + m
    ensures p == q
  {
    if p < q {
      NextMultiple(m, p, q);
    } else if q < p {
      NextMultiple(m, q, p);
    }
  }

  lemma DivisionBounds(x: nat, m: nat)
    requires 0 < m
    ensures 0 <= x / m && m * (x / m) <= x < m * (x / m) + m
  {
  }

  lemma DivisionOfProduct(d: nat, m: nat)
    requires 0 < m
    ensures 0 <= d * m && d * m / m == d
  {
    assert 0 <= d * m;
    DivisionBounds(d * m, m);
    UniqueQuotient(d * m, m, d, d * m / m);
  }

  lemma DivisionGrows(x: nat, y: nat, m: nat)
    requires x <= y && 0 < m
    ensures x / m <= y / m
  {
    DivisionBounds(x, m);
    DivisionBounds(y, m);
    if y / m < x / m {
      NextMultiple(m, y / m, x / m);
    }
  }

  lemma DivisionAtMost(x: nat, m: nat, q: nat)
    requires 0 < m && x <= q * m
    ensures x / m <= q
  {
    DivisionOfProduct(q, m);
    DivisionGrows(x, q * m, m);
  }

  lemma ProductGrows(d: nat, k: nat, l: nat)
    requires k <= l
    ensures 0 <= d * k <= d * l
  {
  }

  /** C's division of small numbers, by its defining bounds. */
  lemma SmallQuotient(x: int, m: nat)
    requires 0 < m
    ensures 0 <= x ==> 0 <= TruncatingDiv(x, m) && m * TruncatingDiv(x, m) <= x < m * TruncatingDiv(x, m) + m
    ensures 0 - m < x < 0 ==> TruncatingDiv(x, m) == 0 && TruncatingMod(x, m) == x
  {
    if 0 <= x {
      DivisionBounds(x, m);
    } else if 0 - m < x {
      DivisionBounds(-x, m);
      UniqueQuotient(-x, m, 0, -x / m);
    }
  }
}
