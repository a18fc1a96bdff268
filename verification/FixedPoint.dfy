/** png_muldiv: a * times / divisor, rounded, on 32-bit signed values.

    `MulDiv` is the value computed by the floating-point branch (over exact rationals);
    `MulDivByHalves` is the integer branch with its explicit 32-bit words. */
module FixedPoint {
  import opened Arith
  import opened Bytes

  const FP_1: int := 100000

  predicate Int32(x: int) {
    -0x8000_0000 <= x < 0x8000_0000
  }

  function Abs(x: int): nat {
    if x < 0 then -x else x
  }

  /** floor(n / d) for d > 0. */
  function FloorDiv(n: int, d: int): (q: int)
    requires d > 0
    ensures q * d <= n < (q + 1) * d
  {
    n / d
  }

  /** floor(n / d + 1/2) */
  function RoundDiv(n: int, d: int): (q: int)
    requires d > 0
    ensures 2 * (q * d) <= 2 * n + d < 2 * (q * d) + 2 * d
  {
    var q := FloorDiv(2 * n + d, 2 * d);
    assert q * (2 * d) == 2 * (q * d) && (q + 1) * (2 * d) == 2 * (q * d) + 2 * d;
    q
  }

  /** The floating-point branch: None stands for a false result. */
  function MulDiv(a: int, times: int, divisor: int): Option<int> {
    if divisor == 0 then None
    else if divisor > 0 then Quotient(a * times, divisor)
    else Quotient(-(a * times), -divisor)
  }

  /** floor(n / d + 1/2) when it fits in 32 bits. */
  function Quotient(n: int, d: int): Option<int>
    requires d > 0
  {
    var r := RoundDiv(n, d);
    if Int32(r) then Some(r) else None
  }

  // ----- the integer branch -----

  /** The 64-bit product as two 32-bit words, formed from 16-bit halves. */
  method Product(A: nat, T: nat) returns (s32: nat, s00: nat)
    requires A <= TWO_TO_THE_31 && T <= TWO_TO_THE_31
    ensures s32 * TWO_TO_THE_32 + s00 == A * T
    ensures s00 < TWO_TO_THE_32 && s32 <= 0x4001_0000
  {
    var ah, al, th, tl := A / 0x1_0000, A % 0x1_0000, T / 0x1_0000, T % 0x1_0000;
    Halves(A, T, ah, al, th, tl);
    var mid, low, high := ah * tl + al * th, al * tl, ah * th;
    assert mid < TWO_TO_THE_32 && low < TWO_TO_THE_32;  // nothing wraps at 32 bits
    s32, s00 := AddHalves(high, mid, low);
  }

  method AddHalves(high: nat, mid: nat, low: nat) returns (s32: nat, s00: nat)
    requires mid <= 0x1_0000 * 0xFFFF && low <= 0xFFFF * 0xFFFF && high <= 0x4000_0000
    ensures s32 * TWO_TO_THE_32 + s00 == high * TWO_TO_THE_32 + mid * 0x1_0000 + low
    ensures s00 < TWO_TO_THE_32 && s32 <= 0x4001_0000
  {
    var s16 := mid;
    s32 := high + s16 / 0x1_0000;
    s00 := low;
    s16 := s16 % 0x1_0000 * 0x1_0000;
    s00 := (s00 + s16) % TWO_TO_THE_32;
    if s00 < s16 {
      s32 := s32 + 1;
    }
  }

  lemma Halves(A: nat, T: nat, ah: nat, al: nat, th: nat, tl: nat)
    requires A <= TWO_TO_THE_31 && T <= TWO_TO_THE_31
    requires ah == A / 0x1_0000 && al == A % 0x1_0000 && th == T / 0x1_0000 && tl == T % 0x1_0000
    ensures A * T == ah * th * TWO_TO_THE_32 + (ah * tl + al * th) * 0x1_0000 + al * tl
    ensures ah * tl + al * th <= 0x1_0000 * 0xFFFF && al * tl <= 0xFFFF * 0xFFFF && ah * th <= 0x4000_0000
  {
    var h := 0x1_0000;
    assert A == ah * h + al && T == th * h + tl;
    calc {
      A * T;
      (ah * h + al) * (th * h + tl);
      ah * h * (th * h) + ah * h * tl + al * (th * h) + al * tl;
      ah * th * (h * h) + (ah * tl + al * th) * h + al * tl;
    }
    MulBound(ah, tl, 0x8000, 0xFFFF);
    MulBound(al, th, 0xFFFF, 0x8000);
    MulBound(al, tl, 0xFFFF, 0xFFFF);
    MulBound(ah, th, 0x8000, 0x8000);
  }

  /** An int32 after wrap-around. */
  function Wrap32(x: int): (r: int)
    ensures Int32(r)
  {
    (x + 0x8000_0000) % TWO_TO_THE_32 - 0x8000_0000
  }

  /** D << shift as two 32-bit words. */
  method Shifted(D: nat, shift: nat) returns (d32: nat, d00: nat)
    requires 0 < D < TWO_TO_THE_32 && shift < 32
    ensures d32 * TWO_TO_THE_32 + d00 == D * Pow2(shift) && d00 < TWO_TO_THE_32
  {
    if shift > 0 {
      d32, d00 := D / Pow2(32 - shift), D * Pow2(shift) % TWO_TO_THE_32;
      ShiftSplit(D, shift);
    } else {
      d32, d00 := 0, D;
    }
  }

  lemma ShiftSplit(D: nat, shift: nat)
    requires 0 < shift < 32
    ensures D / Pow2(32 - shift) * TWO_TO_THE_32 + D * Pow2(shift) % TWO_TO_THE_32 == D * Pow2(shift)
  {
    Pow2Add(shift, 32 - shift);
    Pow2At32();
    SplitAt(D, Pow2(shift), Pow2(32 - shift));
  }

  lemma SplitAt(D: nat, u: nat, v: nat)
    requires u >= 1 && v >= 1 && u * v == TWO_TO_THE_32
    ensures D / v * TWO_TO_THE_32 + D * u % TWO_TO_THE_32 == D * u
  {
    var q, r := D / v, D % v;
    Scaled(D, q, r, u, v);
    ModOf(D * u, q, r * u);
  }

  lemma Scaled(D: nat, q: nat, r: nat, u: nat, v: nat)
    requires D == q * v + r && r < v && u >= 1
    ensures D * u == q * (u * v) + r * u && r * u < u * v
  {
    MulAdd(q * v, r, u);
    MulAssoc(q, v, u);
    MulAdd(v - r, r, u);
    assert (v - r) * u >= 1;
  }

  lemma ModOf(x: nat, q: nat, r: nat)
    requires x == q * TWO_TO_THE_32 + r && r < TWO_TO_THE_32
    ensures x % TWO_TO_THE_32 == r
  {
  }

  lemma {:induction false} Pow2Add(i: nat, j: nat)
    ensures Pow2(i) * Pow2(j) == Pow2(i + j)
    decreases i
  {
    if i > 0 {
      Pow2Add(i - 1, j);
      assert Pow2(i) * Pow2(j) == 2 * (Pow2(i - 1) * Pow2(j));
    }
  }

  lemma Pow2At32()
    ensures Pow2(31) == TWO_TO_THE_31 && Pow2(32) == TWO_TO_THE_32
  {
    assert Pow2(8) == 0x100;
    Pow2Add(8, 8);
    Pow2Add(16, 8);
    assert Pow2(24) == 0x100_0000;
    assert Pow2(31) == 128 * Pow2(24);
  }

  /** One round of the long division: subtract D << shift when it fits. */
  method Subtract(s32: nat, s00: nat, d32: nat, d00: nat) returns (r32: nat, r00: nat, fits: bool)
    requires s00 < TWO_TO_THE_32 && d00 < TWO_TO_THE_32 && s32 < TWO_TO_THE_32
    ensures r00 < TWO_TO_THE_32 && r32 <= s32
    ensures fits == (s32 * TWO_TO_THE_32 + s00 >= d32 * TWO_TO_THE_32 + d00)
    ensures r32 * TWO_TO_THE_32 + r00
         == s32 * TWO_TO_THE_32 + s00 - (if fits then d32 * TWO_TO_THE_32 + d00 else 0)
  {
    r32, r00, fits := s32, s00, false;
    if s32 > d32 {
      if s00 < d00 {
        r32 := r32 - 1;
      }
      r32, r00, fits := r32 - d32, (s00 - d00) % TWO_TO_THE_32, true;
    } else if s32 == d32 && s00 >= d00 {
      r32, r00, fits := 0, s00 - d00, true;
    }
  }

  /** Subtracting D * u, when it fits, moves u into the quotient. */
  lemma QuotientBit(P: nat, quot: nat, left: nat, D: nat, u: nat)
    requires P == quot * D + left && left < D * (2 * u)
    ensures left >= D * u ==> P == (quot + u) * D + (left - D * u) && left - D * u < D * u
  {
    MulAdd(quot, u, D);
    MulAdd(u, u, D);
  }

  /** The division loop leaves the quotient, wrapped to an int32, and the remainder. */
  method Divide(P: nat, hi: nat, lo: nat, D: nat) returns (result: int, rem: nat)
    requires 0 < D <= TWO_TO_THE_31 && hi < D && lo < TWO_TO_THE_32
    requires P == hi * TWO_TO_THE_32 + lo
    ensures rem == P % D && result == Wrap32(P / D) && P / D < TWO_TO_THE_32
  {
    var s32: nat, s00: nat, bitshift: nat := hi, lo, 32;
    ghost var quot: nat, left: nat := 0, P;
    result := 0;
    Pow2At32();
    while bitshift > 0
      invariant 0 <= bitshift <= 32 && s00 < TWO_TO_THE_32 && s32 <= hi
      invariant left == s32 * TWO_TO_THE_32 + s00 && P == quot * D + left
      invariant left < D * Pow2(bitshift)
      invariant quot + Pow2(bitshift) <= TWO_TO_THE_32
      invariant result == Wrap32(quot)
    {
      bitshift := bitshift - 1;
      QuotientBit(P, quot, left, D, Pow2(bitshift));
      WrapAdd(quot, Pow2(bitshift));
      var d32, d00 := Shifted(D, bitshift);
      var fits;
      s32, s00, fits := Subtract(s32, s00, d32, d00);
      if fits {
        result := Wrap32(result + Pow2(bitshift));
        quot, left := quot + Pow2(bitshift), left - D * Pow2(bitshift);
      }
    }
    rem := s00;
    QuotientOf(P, D, quot, rem);
  }

  lemma WrapAdd(x: int, y: int)
    ensures Wrap32(Wrap32(x) + y) == Wrap32(x + y)
  {
  }

  /** The quotient as the integer branch rounds it. */
  function HalfUp(P: nat, D: nat): nat
    requires D > 0
  {
    P / D + if P % D >= D / 2 then 1 else 0
  }

  predicate Negative(a: int, times: int, divisor: int) {
    (a < 0) != ((times < 0) != (divisor < 0))
  }

  /** What the integer branch returns: a magnitude that does not fit is refused, except
      that 2^32 wraps to 0 and passes. */
  function MulDivByHalvesSpec(a: int, times: int, divisor: int): Option<int> {
    var P, D := Abs(a) * Abs(times), Abs(divisor);
    if divisor == 0 then None
    else if a == 0 || times == 0 then Some(0)
    else if P >= D * TWO_TO_THE_32 then None
    else Signed(HalfUp(P, D), Negative(a, times, divisor))
  }

  function Signed(r: nat, negative: bool): Option<int> {
    if r == TWO_TO_THE_32 then Some(0)
    else if negative then (if r <= TWO_TO_THE_31 then Some(0 - r) else None)
    else (if r < TWO_TO_THE_31 then Some(r) else None)
  }

  /** The integer branch of png_muldiv. */
  method MulDivByHalves(a: int, times: int, divisor: int) returns (r: Option<int>)
    requires Int32(a) && Int32(times) && Int32(divisor)
    ensures r == MulDivByHalvesSpec(a, times, divisor)
  {
    if divisor == 0 {
      return None;
    }
    if a == 0 || times == 0 {
      return Some(0);
    }
    var negative, A, T, D := false, a, times, divisor;
    if a < 0 {
      negative, A := true, -a;
    }
    if times < 0 {
      negative, T := !negative, -times;
    }
    if divisor < 0 {
      negative, D := !negative, -divisor;
    }
    var s32, s00 := Product(A, T);
    HighWord(A * T, s32, s00, D);
    if s32 >= D {
      return None;
    }
    r := DivideAndRound(A * T, s32, s00, D, negative);
  }

  method DivideAndRound(P: nat, hi: nat, lo: nat, D: nat, negative: bool) returns (r: Option<int>)
    requires 0 < D <= TWO_TO_THE_31 && hi < D && lo < TWO_TO_THE_32
    requires P == hi * TWO_TO_THE_32 + lo
    ensures r == Signed(HalfUp(P, D), negative)
  {
    var result, rem := Divide(P, hi, lo, D);
    WrapSign(P / D, HalfUp(P, D));
    if rem >= D / 2 {
      result := Wrap32(result + 1);
    }
    if negative {
      result := Wrap32(-result);
    }
    if (negative && result <= 0) || (!negative && result >= 0) {
      return Some(result);
    }
    return None;
  }

  lemma HighWord(P: nat, hi: nat, lo: nat, D: nat)
    requires P == hi * TWO_TO_THE_32 + lo && lo < TWO_TO_THE_32
    ensures hi < D <==> P < D * TWO_TO_THE_32
  {
  }

  lemma WrapSign(q: nat, r: nat)
    requires q <= r <= q + 1 && q < TWO_TO_THE_32
    ensures Wrap32(Wrap32(q) + (r - q)) == Wrap32(r)
    ensures Wrap32(r) == if r < TWO_TO_THE_31 then r as int else r - TWO_TO_THE_32
    ensures Wrap32(-Wrap32(r)) == if r <= TWO_TO_THE_31 then -(r as int) else TWO_TO_THE_32 - r
  {
  }

  // ----- how good the rounding is -----

  /** The rounded quotient is within half a divisor and a half of exact. */
  lemma HalfUpError(P: nat, D: nat)
    requires D > 0
    ensures 2 * Abs(HalfUp(P, D) * D - P) <= D + 1
  {
    var q, m := P / D, P % D;
    DivMod(P, D);
    MulAdd(q, 1, D);
  }

  /** A returned value, times the divisor, is within half a divisor and a half of the exact
      product, unless the rounded quotient is the 2^32 that passes for 0. */
  lemma ResultErrorIff(a: int, times: int, divisor: int, res: int)
    requires divisor != 0 && MulDivByHalvesSpec(a, times, divisor) == Some(res)
    ensures 2 * Abs(res * divisor - a * times) <= Abs(divisor) + 1
       <==> HalfUp(Abs(a) * Abs(times), Abs(divisor)) != TWO_TO_THE_32
  {
    var P, D := Abs(a) * Abs(times), Abs(divisor);
    HalfUpError(P, D);
    SignedProduct(a, times);
    SignedProduct(res, divisor);
    if a == 0 || times == 0 {
      assert P == 0;
      ZeroQuotient(D);
    }
  }

  lemma ZeroQuotient(D: nat)
    requires D > 0
    ensures HalfUp(0, D) <= 1
  {
  }

  /** It is a nearest integer except when an odd divisor leaves the remainder just
      below one half, which is rounded up. */
  lemma HalfUpNearestIff(P: nat, D: nat)
    requires D > 0
    ensures 2 * Abs(HalfUp(P, D) * D - P) <= D <==> !(D % 2 == 1 && P % D == D / 2)
  {
    var q, m := P / D, P % D;
    DivMod(P, D);
    MulAdd(q, 1, D);
  }

  /** The overflow that goes unnoticed: the rounded quotient is exactly 2^32. */
  lemma OverflowAccepted()
    ensures MulDivByHalvesSpec(65535, 65537, 1) == Some(0)
    ensures MulDiv(65535, 65537, 1) == None
  {
    assert 65535 * 65537 == TWO_TO_THE_32 - 1;
    assert RoundDiv(65535 * 65537, 1) == TWO_TO_THE_32 - 1;
  }

  /** The remainder on which the two branches round apart. */
  predicate Contested(P: nat, D: nat, negative: bool)
    requires D > 0
  {
    P % D == D / 2 && (negative || D % 2 == 1)
  }

  lemma RoundDivIs(n: int, d: int, q: int)
    requires d > 0 && 2 * (q * d) <= 2 * n + d < 2 * (q * d) + 2 * d
    ensures RoundDiv(n, d) == q
  {
    var p := RoundDiv(n, d);
    MulAdd(p, -q, d);
    MulApart(p - q, d, p * d - q * d);
  }

  /** The floating branch in terms of quotient and remainder. */
  lemma RoundDivParts(P: nat, D: nat)
    requires D > 0
    ensures RoundDiv(P, D) == P / D + if 2 * (P % D) >= D then 1 else 0
    ensures RoundDiv(0 - P, D) == -(P / D + if 2 * (P % D) > D then 1 else 0)
  {
    var q := P / D;
    DivMod(P, D);
    MulAdd(q, 1, D);
    RoundDivIs(P, D, if 2 * (P % D) >= D then q + 1 else q);
    var dn := if 2 * (P % D) > D then q + 1 else q;
    MulAdd(dn, -dn, D);
    RoundDivIs(0 - P, D, -dn);
  }

  /** The two branches of png_muldiv return the same exactly when there is nothing to
      round apart (or both refuse) and the unnoticed overflow does not occur. */
  lemma BranchesAgreeIff(a: int, times: int, divisor: int)
    requires Int32(a) && Int32(times) && Int32(divisor) && divisor != 0 && a != 0 && times != 0
    ensures var P, D, negative := Abs(a) * Abs(times), Abs(divisor), Negative(a, times, divisor);
            MulDiv(a, times, divisor) == MulDivByHalvesSpec(a, times, divisor)
            <==>
            || P >= D * TWO_TO_THE_32
            || (HalfUp(P, D) != TWO_TO_THE_32
                && (Contested(P, D, negative) ==> P / D > TWO_TO_THE_31 - (if negative then 0 else 1)))
  {
    var P, D, negative := Abs(a) * Abs(times), Abs(divisor), Negative(a, times, divisor);
    SignedProduct(a, times);
    RoundDivParts(P, D);
    LargeQuotient(P, D);
  }

  lemma SignedProduct(a: int, b: int)
    ensures a * b == if (a < 0) != (b < 0) then -(Abs(a) * Abs(b)) else Abs(a) * Abs(b)
  {
  }

  lemma LargeQuotient(P: nat, D: nat)
    requires D > 0
    ensures P >= D * TWO_TO_THE_32 <==> P / D >= TWO_TO_THE_32
  {
    DivMod(P, D);
    var q := P / D;
    assert q >= TWO_TO_THE_32 ==> q * D >= TWO_TO_THE_32 * D;
    assert q <= TWO_TO_THE_32 - 1 ==> q * D <= (TWO_TO_THE_32 - 1) * D;
  }
}
