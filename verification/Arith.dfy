/** Facts about products and quotients that the solver is not left to find. */
module Arith {

  /** 1 << k */
  function Pow2(k: nat): (r: nat)
    ensures r >= 1
  {
    if k == 0 then 1 else 2 * Pow2(k - 1)
  }

  lemma MulAdd(a: int, b: int, c: int)
    ensures (a + b) * c == a * c + b * c
  {
  }

  lemma MulAssoc(a: int, b: int, c: int)
    ensures a * b * c == a * (c * b)
  {
  }

  lemma MulBound(x: nat, y: nat, a: nat, b: nat)
    requires x <= a && y <= b
    ensures x * y <= a * b
  {
    MulAdd(x, a - x, y);
    assert (a - x) * y >= 0;
    assert a * (b - y) >= 0;
  }

  /** A multiple of D smaller than D is zero. */
  lemma MulApart(k: int, D: int, x: int)
    requires D > 0 && k * D == x && -D < x < D
    ensures k == 0
  {
    assert k >= 1 ==> k * D >= D;
    assert k <= -1 ==> k * D <= -D;
  }

  /** Comparing q with a bound by comparing the products. */
  lemma Bracket(q: int, g: int, k: int)
    requires g > 0
    ensures q >= k ==> q * g >= k * g
    ensures q <= k - 1 ==> q * g <= k * g - g
  {
    MulAdd(q - k, k, g);
    if q >= k {
      assert (q - k) * g >= 0;
    } else {
      MulAdd(q - k + 1, -1, g);
      assert (q - k + 1) * g <= 0;
    }
  }

  lemma DivMod(P: nat, D: nat)
    requires D > 0
    ensures P == P / D * D + P % D
  {
  }

  lemma QuotientOf(P: nat, D: nat, q: nat, r: nat)
    requires P == q * D + r && r < D
    ensures q == P / D && r == P % D
  {
    DivMod(P, D);
    MulAdd(q, -(P / D), D);
    MulApart(q - P / D, D, P % D - r);
  }
}
