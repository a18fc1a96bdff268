/** Adler-32 (sections 2.2 and 8.2 of RFC 1950): deferred reduction, the unrolled loops
    and the combination of two checksums. */
module Adler32 {
  import opened Arith
  import opened Bytes

  const BASE: nat := 65521
  const NMAX: nat := 5552

  datatype Sums = Sums(a: nat, b: nat)

  // ----- the reference: reduce after every byte -----

  /** x mod BASE, by repeated subtraction. */
  function M(x: nat): (r: nat)
    ensures r < BASE
  {
    if x < BASE then x else M(x - BASE)
  }

  lemma {:induction false} ModIs(x: nat)
    ensures M(x) == x % 65521
    decreases x
  {
    if x >= BASE {
      ModIs(x - BASE);
    }
  }

  function ReducedStep(s: Sums, x: byte): Sums {
    var a := M(s.a + x);
    Sums(a, M(s.b + a))
  }

  function Reduced(s: Sums, buf: seq<byte>): Sums
    decreases |buf|
  {
    if buf == [] then s else Reduced(ReducedStep(s, buf[0]), buf[1..])
  }

  function Pack(s: Sums): nat {
    s.a + s.b * 0x1_0000
  }

  function Checksum(buf: seq<byte>): nat {
    Pack(Reduced(Sums(1, 0), buf))
  }

  // ----- the same sums without reduction -----

  function Raw(s: Sums, buf: seq<byte>): Sums
    decreases |buf|
  {
    if buf == [] then s else Raw(RawStep(s, buf[0]), buf[1..])
  }

  /** DO1 */
  function RawStep(s: Sums, x: byte): Sums {
    Sums(s.a + x, s.b + (s.a + x))
  }

  function Mod(s: Sums): Sums {
    Sums(M(s.a), M(s.b))
  }

  lemma ModAdd(x: nat, y: nat)
    ensures M(M(x) + y) == M(x + y) && M(y + M(x)) == M(x + y)
  {
    ModIs(x);
    ModIs(M(x) + y);
    ModIs(x + y);
  }

  lemma StepMod(s: Sums, x: byte)
    ensures ReducedStep(Mod(s), x) == Mod(RawStep(s, x))
  {
    ModAdd(s.a, x);
    ModAdd(s.b, M(s.a + x));
    ModAdd(s.a + x, s.b);
  }

  /** Reduction may be put off to the end. */
  lemma {:induction false} DeferredReduction(s: Sums, buf: seq<byte>)
    ensures Reduced(Mod(s), buf) == Mod(Raw(s, buf))
    decreases |buf|
  {
    if buf != [] {
      StepMod(s, buf[0]);
      DeferredReduction(RawStep(s, buf[0]), buf[1..]);
    }
  }

  lemma {:induction false} RawConcat(s: Sums, x: seq<byte>, y: seq<byte>)
    ensures Raw(s, x + y) == Raw(Raw(s, x), y)
    decreases |x|
  {
    if x == [] {
      assert x + y == y;
    } else {
      assert (x + y)[1..] == x[1..] + y;
      RawConcat(RawStep(s, x[0]), x[1..], y);
    }
  }

  // ----- the closed form of section 8.2 of RFC 1950 -----

  /** D1 + D2 + ... + Dn */
  function Plain(buf: seq<byte>): nat {
    if buf == [] then 0 else buf[0] as nat + Plain(buf[1..])
  }

  /** n * D1 + (n - 1) * D2 + ... + Dn */
  function Weighted(buf: seq<byte>): nat {
    if buf == [] then 0 else |buf| * buf[0] as nat + Weighted(buf[1..])
  }

  lemma {:induction false} RawIs(s: Sums, buf: seq<byte>)
    ensures Raw(s, buf) == Sums(s.a + Plain(buf), s.b + |buf| * s.a + Weighted(buf))
    decreases |buf|
  {
    if buf != [] {
      var x: nat, n := buf[0], |buf|;
      RawIs(RawStep(s, buf[0]), buf[1..]);
      assert (n - 1) * (s.a + x) + (s.a + x) == n * s.a + n * x by {
        MulAdd(n - 1, 1, s.a + x);
        assert n * (s.a + x) == n * s.a + n * x;
      }
    }
  }

  /** The checksum is the one the standard defines by its sums. */
  lemma ChecksumIsStandard(buf: seq<byte>)
    ensures Checksum(buf) == (1 + Plain(buf)) % 65521 + (|buf| + Weighted(buf)) % 65521 * 65536
  {
    DeferredReduction(Sums(1, 0), buf);
    RawIs(Sums(1, 0), buf);
    ModIs(1 + Plain(buf));
    ModIs(|buf| + Weighted(buf));
  }

  // ----- the overflow bound -----

  /** The largest second sum after n bytes from reduced sums: 255 n(n+1)/2 + (n+1)(BASE-1). */
  function Worst(n: nat): nat {
    255 * (n * (n + 1) / 2) + (n + 1) * (BASE - 1)
  }

  function Triangle(n: nat): nat {
    if n == 0 then 0 else n + Triangle(n - 1)
  }

  lemma {:induction false} TriangleIs(n: nat)
    ensures Triangle(n) == n * (n + 1) / 2
    decreases n
  {
    if n > 0 {
      TriangleIs(n - 1);
      assert n * (n + 1) == (n - 1) * n + 2 * n;
    }
  }

  lemma {:induction false} WorstGrows(m: nat, n: nat)
    requires m <= n
    ensures Worst(m) <= Worst(n)
    decreases n
  {
    if m < n {
      WorstGrows(m, n - 1);
      TriangleIs(n - 1);
      TriangleIs(n);
    }
  }

  /** NMAX is exactly the bound that its comment claims. */
  lemma NmaxIsLargest(n: nat)
    ensures Worst(n) <= 0xFFFF_FFFF <==> n <= NMAX
  {
    assert Worst(5552) == 4294690200 && Worst(5553) > 0xFFFF_FFFF;
    if n <= NMAX {
      WorstGrows(n, NMAX);
    } else {
      WorstGrows(NMAX + 1, n);
    }
  }

  /** Whatever the next bytes are, `left` more of them keep both sums below 2^32. */
  predicate Fits(s: Sums, left: nat)
    decreases left
  {
    && s.a < TWO_TO_THE_32 && s.b < TWO_TO_THE_32
    && (left > 0 ==> Fits(RawStep(s, 255), left - 1))
  }

  lemma {:induction false} FitsFromBound(s: Sums, n: nat)
    requires s.a + 255 * n < TWO_TO_THE_32 && s.b + n * s.a + 255 * Triangle(n) < TWO_TO_THE_32
    ensures Fits(s, n)
    decreases n
  {
    if n > 0 {
      BoundStep(s.a, n);
      FitsFromBound(RawStep(s, 255), n - 1);
    }
  }

  lemma BoundStep(a: nat, n: nat)
    requires n > 0
    ensures (a + 255) + (n - 1) * (a + 255) + 255 * Triangle(n - 1) == n * a + 255 * Triangle(n)
    ensures n * a >= 0 && (n - 1) * (a + 255) >= 0
  {
    assert (a + 255) + (n - 1) * (a + 255) == n * (a + 255) == n * a + n * 255;
  }

  lemma {:induction false} FitsSmaller(s: Sums, t: Sums, left: nat)
    requires t.a <= s.a && t.b <= s.b && Fits(s, left)
    ensures Fits(t, left)
    decreases left
  {
    if left > 0 {
      FitsSmaller(RawStep(s, 255), RawStep(t, 255), left - 1);
    }
  }

  /** NMAX bytes after a reduction cannot overflow. */
  lemma ReducedFits(s: Sums, n: nat)
    requires s.a < BASE && s.b < BASE && n <= NMAX
    ensures Fits(s, n)
  {
    TriangleIs(n);
    NmaxIsLargest(n);
    WorstCase(s.a, n);
    FitsFromBound(s, n);
  }

  lemma WorstCase(a: nat, n: nat)
    requires a <= 65520
    ensures n * a <= n * 65520 && (n + 1) * 65520 == n * 65520 + 65520
  {
  }

  // ----- the loops -----

  /** 32-bit addition. */
  function Add32(x: nat, y: nat): nat {
    (x + y) % TWO_TO_THE_32
  }

  /** Reading one byte leaves room for the rest. */
  lemma FitsRest(s: Sums, x: byte, left: nat)
    requires left > 0 && Fits(s, left)
    ensures Fits(RawStep(s, x), left - 1)
    ensures s.a + x < TWO_TO_THE_32 && s.b + (s.a + x) < TWO_TO_THE_32
  {
    FitsSmaller(RawStep(s, 255), RawStep(s, x), left - 1);
  }

  /** DO1: one byte, in 32-bit arithmetic. */
  method Do1(s: Sums, buf: seq<byte>, i: nat, ghost left: nat) returns (r: Sums)
    requires i < |buf| && left > 0 && Fits(s, left)
    ensures r == Raw(s, buf[i..i + 1]) && Fits(r, left - 1)
  {
    FitsRest(s, buf[i], left);
    var a := Add32(s.a, buf[i]);
    r := Sums(a, Add32(s.b, a));
    assert buf[i..i + 1] == [buf[i]];
    assert Raw(s, [buf[i]]) == RawStep(s, buf[i]);
  }

  lemma RawJoin(s: Sums, buf: seq<byte>, i: nat, j: nat, k: nat)
    requires i <= j <= k <= |buf|
    ensures Raw(Raw(s, buf[i..j]), buf[j..k]) == Raw(s, buf[i..k])
  {
    RawConcat(s, buf[i..j], buf[j..k]);
    assert buf[i..j] + buf[j..k] == buf[i..k];
  }

  method Do2(s: Sums, buf: seq<byte>, i: nat, ghost left: nat) returns (r: Sums)
    requires i + 2 <= |buf| && left >= 2 && Fits(s, left)
    ensures r == Raw(s, buf[i..i + 2]) && Fits(r, left - 2)
  {
    r := Do1(s, buf, i, left);
    r := Do1(r, buf, i + 1, left - 1);
    RawJoin(s, buf, i, i + 1, i + 2);
  }

  method Do4(s: Sums, buf: seq<byte>, i: nat, ghost left: nat) returns (r: Sums)
    requires i + 4 <= |buf| && left >= 4 && Fits(s, left)
    ensures r == Raw(s, buf[i..i + 4]) && Fits(r, left - 4)
  {
    r := Do2(s, buf, i, left);
    r := Do2(r, buf, i + 2, left - 2);
    RawJoin(s, buf, i, i + 2, i + 4);
  }

  method Do8(s: Sums, buf: seq<byte>, i: nat, ghost left: nat) returns (r: Sums)
    requires i + 8 <= |buf| && left >= 8 && Fits(s, left)
    ensures r == Raw(s, buf[i..i + 8]) && Fits(r, left - 8)
  {
    r := Do4(s, buf, i, left);
    r := Do4(r, buf, i + 4, left - 4);
    RawJoin(s, buf, i, i + 4, i + 8);
  }

  method Do16(s: Sums, buf: seq<byte>, i: nat, ghost left: nat) returns (r: Sums)
    requires i + 16 <= |buf| && left >= 16 && Fits(s, left)
    ensures r == Raw(s, buf[i..i + 16]) && Fits(r, left - 16)
  {
    r := Do8(s, buf, i, left);
    r := Do8(r, buf, i + 8, left - 8);
    RawJoin(s, buf, i, i + 8, i + 16);
  }

  /** adler32_len_16: the byte loop, reduced once at the end. */
  method Len16(s: Sums, buf: seq<byte>) returns (r: nat)
    requires Fits(s, |buf|)
    ensures r == Pack(Reduced(Mod(s), buf))
  {
    var t, i := s, 0;
    assert buf[..0] == [] && buf[0..0] == [];
    while i < |buf|
      invariant i <= |buf| && t == Raw(s, buf[0..i]) && Fits(t, |buf| - i)
    {
      t := Do1(t, buf, i, |buf| - i);
      RawJoin(s, buf, 0, i, i + 1);
      i := i + 1;
    }
    assert buf[0..|buf|] == buf;
    DeferredReduction(s, buf);
    ModIs(t.a);
    ModIs(t.b);
    r := Pack(Sums(t.a % BASE, t.b % BASE));
  }

  /** The unrolled loop, by 8 or by 16. */
  method Unrolled(s: Sums, buf: seq<byte>, step: nat) returns (t: Sums, i: nat)
    requires Fits(s, |buf|) && step in {8, 16}
    ensures i <= |buf| && t == Raw(s, buf[0..i]) && Fits(t, |buf| - i)
  {
    t, i := s, 0;
    assert buf[0..0] == [];
    while |buf| - i >= step
      invariant i <= |buf| && t == Raw(s, buf[0..i]) && Fits(t, |buf| - i)
    {
      if step == 16 {
        t := Do16(t, buf, i, |buf| - i);
      } else {
        t := Do8(t, buf, i, |buf| - i);
      }
      RawJoin(s, buf, 0, i, i + step);
      i := i + step;
    }
  }

  /** adler32_len_64: the unrolled loop, then the byte loop for the tail. */
  method Len64(s: Sums, buf: seq<byte>, unrollMore: bool) returns (r: nat)
    requires s.a < BASE && s.b < BASE && |buf| <= NMAX
    ensures r == Pack(Reduced(s, buf))
  {
    ReducedFits(s, |buf|);
    var t, i := Unrolled(s, buf, if unrollMore then 16 else 8);
    r := Len16(t, buf[i..]);
    TailOfReduction(s, buf, i);
  }

  lemma TailOfReduction(s: Sums, buf: seq<byte>, i: nat)
    requires s.a < BASE && s.b < BASE && i <= |buf|
    ensures Reduced(Mod(Raw(s, buf[0..i])), buf[i..]) == Reduced(s, buf)
  {
    var h, t := buf[0..i], buf[i..];
    assert h + t == buf;
    ReducedOfReduced(s, h, t);
    ModSelf(s);
  }

  lemma ReducedOfReduced(s: Sums, h: seq<byte>, t: seq<byte>)
    ensures Reduced(Mod(Raw(s, h)), t) == Reduced(Mod(s), h + t)
  {
    DeferredReduction(Raw(s, h), t);
    RawConcat(s, h, t);
    DeferredReduction(s, h + t);
  }

  lemma ModSelf(s: Sums)
    requires s.a < BASE && s.b < BASE
    ensures Mod(s) == s
  {
  }

  /** adler32_copy_len_16: the same checksum, and dst becomes a copy of the bytes. */
  method CopyLen16(s: Sums, buf: seq<byte>, dst: array<byte>) returns (r: nat)
    requires Fits(s, |buf|) && |buf| <= dst.Length
    modifies dst
    ensures r == Pack(Reduced(Mod(s), buf))
    ensures dst[..|buf|] == buf
    ensures forall k :: |buf| <= k < dst.Length ==> dst[k] == old(dst[k])
  {
    var t, i := s, 0;
    assert buf[0..0] == [];
    while i < |buf|
      invariant i <= |buf| && t == Raw(s, buf[0..i]) && Fits(t, |buf| - i)
      invariant dst[..i] == buf[..i]
      invariant forall k :: |buf| <= k < dst.Length ==> dst[k] == old(dst[k])
    {
      dst[i] := buf[i];
      t := Do1(t, buf, i, |buf| - i);
      RawJoin(s, buf, 0, i, i + 1);
      i := i + 1;
    }
    assert buf[0..|buf|] == buf;
    DeferredReduction(s, buf);
    ModIs(t.a);
    ModIs(t.b);
    r := Pack(Sums(t.a % BASE, t.b % BASE));
  }

  // ----- combining the checksums of two blocks -----

  /** n * a, by repeated addition. */
  function Times(n: nat, a: nat): nat {
    if n == 0 then 0 else a + Times(n - 1, a)
  }

  lemma {:induction false} TimesIs(n: nat, a: nat)
    ensures Times(n, a) == n * a
    decreases n
  {
    if n > 0 {
      TimesIs(n - 1, a);
      MulAdd(n - 1, 1, a);
    }
  }

  lemma {:induction false} TimesAdd(n: nat, m: nat, a: nat)
    ensures Times(n + m, a) == Times(n, a) + Times(m, a)
    decreases m
  {
    if m > 0 {
      TimesAdd(n, m - 1, a);
    }
  }

  lemma {:induction false} TimesPlus(n: nat, a: nat, b: nat)
    ensures Times(n, a + b) == Times(n, a) + Times(n, b)
    decreases n
  {
    if n > 0 {
      TimesPlus(n - 1, a, b);
    }
  }

  lemma {:induction false} TimesOne(n: nat)
    ensures Times(n, 1) == n
    decreases n
  {
    if n > 0 {
      TimesOne(n - 1);
    }
  }

  /** A product may be formed from reduced factors. */
  lemma {:induction false} TimesModRight(n: nat, a: nat)
    ensures M(Times(n, M(a))) == M(Times(n, a))
    decreases n
  {
    if n > 0 {
      TimesModRight(n - 1, a);
      ModAdd(a, Times(n - 1, M(a)));
      ModAdd(Times(n - 1, M(a)), a);
      ModAdd(Times(n - 1, a), a);
    }
  }

  lemma {:induction false} TimesModLeft(n: nat, a: nat)
    ensures M(Times(M(n), a)) == M(Times(n, a))
    decreases n
  {
    if n >= BASE {
      TimesModLeft(n - BASE, a);
      TimesAdd(n - BASE, BASE, a);
      TimesIs(65521, a);
      ModDrop(a, Times(n - BASE, a));
    }
  }

  /** Starting from a + k instead of a adds k to the first sum once and to the second
      once for every byte. */
  lemma {:induction false} ShiftedStart(s: Sums, k: nat, b: nat, y: seq<byte>)
    ensures var u := Raw(s, y);
            Raw(Sums(s.a + k, s.b + b), y) == Sums(u.a + k, u.b + b + Times(|y|, k))
    decreases |y|
  {
    if y != [] {
      var t := RawStep(s, y[0]);
      ShiftedStart(t, k, b + k, y[1..]);
      assert RawStep(Sums(s.a + k, s.b + b), y[0]) == Sums(t.a + k, t.b + (b + k));
    }
  }

  lemma ModDrop(k: nat, x: nat)
    ensures M(65521 * k + x) == M(x)
  {
    ModIs(65521 * k + x);
    ModIs(x);
  }

  /** The sums of x + y from the sums u of x and v of y, where y has n bytes. */
  function Combined(u: Sums, v: Sums, n: nat): Sums {
    Sums(M(u.a + v.a + 65520), M(M(Times(M(n), u.a)) + u.b + v.b + (65521 - M(n))))
  }

  lemma {:induction false} RawFirstPositive(s: Sums, buf: seq<byte>)
    requires s.a >= 1
    ensures Raw(s, buf).a >= 1
    decreases |buf|
  {
    if buf != [] {
      RawFirstPositive(RawStep(s, buf[0]), buf[1..]);
    }
  }

  /** The formula whose derivation adler32.c leaves to the reader. */
  lemma CombineIsConcat(x: seq<byte>, y: seq<byte>)
    ensures Combined(Reduced(Sums(1, 0), x), Reduced(Sums(1, 0), y), |y|) == Reduced(Sums(1, 0), x + y)
  {
    var one := Sums(1, 0);
    var u, v, n := Raw(one, x), Raw(one, y), |y|;
    assert Mod(one) == one;
    DeferredReduction(one, x);
    DeferredReduction(one, y);
    DeferredReduction(one, x + y);
    RawConcat(one, x, y);
    RawFirstPositive(one, x);
    ShiftedStart(one, u.a - 1, u.b, y);
    CombinedMod(u, v, n);
  }

  lemma CombinedMod(u: Sums, v: Sums, n: nat)
    requires u.a >= 1
    ensures Combined(Mod(u), Mod(v), n) == Mod(Sums(v.a + (u.a - 1), v.b + u.b + Times(n, u.a - 1)))
  {
    FirstSum(u.a, v.a);
    TimesModLeft(n, M(u.a));
    TimesModRight(n, u.a);
    TimesPlus(n, u.a - 1, 1);
    TimesOne(n);
    SecondSum(Times(n, u.a), Times(n, u.a - 1), Times(M(n), M(u.a)), u.b, v.b, n);
  }

  lemma FirstSum(a: nat, c: nat)
    requires a >= 1
    ensures M(M(a) + M(c) + 65520) == M(c + (a - 1))
  {
    ModAdd(a, M(c) + 65520);
    ModAdd(c, a + 65520);
    ModDrop(1, c + (a - 1));
  }

  lemma SecondSum(p: nat, k: nat, e: nat, b: nat, d: nat, n: nat)
    requires p == k + n && M(e) == M(p)
    ensures M(M(e) + M(b) + M(d) + (65521 - M(n))) == M(d + b + k)
  {
    ModAdd3(p, b, d, 65521 - M(n));
    LenCancels(n, d + b + k);
  }

  lemma ModAdd3(p: nat, b: nat, d: nat, c: nat)
    ensures M(M(p) + M(b) + M(d) + c) == M(p + b + d + c)
  {
    ModAdd(p, M(b) + M(d) + c);
    ModAdd(b, p + M(d) + c);
    ModAdd(d, p + b + c);
  }

  lemma LenCancels(n: nat, x: nat)
    ensures M(x + n + (65521 - M(n))) == M(x)
  {
    ModIs(n);
    var q := n / 65521;
    assert x + n + (65521 - M(n)) == 65521 * (q + 1) + x;
    ModDrop(q + 1, x);
  }

  /** adler32_combine_. */
  method Combine(adler1: nat, adler2: nat, len2: int) returns (r: nat)
    requires adler1 < TWO_TO_THE_32 && adler2 < TWO_TO_THE_32
    ensures len2 < 0 ==> r == 0xFFFF_FFFF
    ensures forall x: seq<byte>, y: seq<byte> ::
              adler1 == Checksum(x) && adler2 == Checksum(y) && len2 == |y| ==> r == Checksum(x + y)
  {
    if len2 < 0 {
      return 0xFFFF_FFFF;
    }
    ModIs(len2);
    var rem := len2 % BASE;
    var sum1 := adler1 % 0x1_0000;
    ProductBound(rem, sum1);
    TimesIs(rem, sum1);
    var sum2 := rem * sum1;
    ModIs(sum2);
    sum2 := sum2 % BASE;
    sum1 := sum1 + (adler2 % 0x1_0000) + BASE - 1;
    sum2 := sum2 + (adler1 / 0x1_0000 % 0x1_0000) + (adler2 / 0x1_0000 % 0x1_0000) + BASE - rem;
    assert sum1 < TWO_TO_THE_32 && sum2 < TWO_TO_THE_32;  // no 32-bit wrap-around
    ghost var total1, total2 := sum1, sum2;
    if sum1 >= BASE {
      sum1 := sum1 - BASE;
    }
    if sum1 >= BASE {
      sum1 := sum1 - BASE;
    }
    if sum2 >= 2 * BASE {
      sum2 := sum2 - 2 * BASE;
    }
    if sum2 >= BASE {
      sum2 := sum2 - BASE;
    }
    r := sum1 + sum2 * 0x1_0000;
    forall x: seq<byte>, y: seq<byte> | adler1 == Checksum(x) && adler2 == Checksum(y) && len2 == |y|
      ensures r == Checksum(x + y)
    {
      Unpacked(x);
      Unpacked(y);
      CombineIsConcat(x, y);
      TwoSubtractions(total1, total2);
    }
  }

  lemma TwoSubtractions(t1: nat, t2: nat)
    ensures t1 < 3 * 65521 ==> M(t1) == if t1 >= 2 * 65521 then t1 - 2 * 65521
            else if t1 >= 65521 then t1 - 65521 else t1
    ensures t2 < 4 * 65521 ==>
              M(t2) == if t2 >= 3 * 65521 then t2 - 3 * 65521 else if t2 >= 2 * 65521 then t2 - 2 * 65521
                       else if t2 >= 65521 then t2 - 65521 else t2
  {
    ModIs(t1);
    ModIs(t2);
  }

  lemma ProductBound(rem: nat, sum1: nat)
    requires rem < BASE && sum1 < 0x1_0000
    ensures rem * sum1 <= 65520 * 65535 < TWO_TO_THE_32
  {
    MulBound(rem, sum1, 65520, 65535);
  }

  /** The halves of a checksum are the reduced sums. */
  lemma Unpacked(x: seq<byte>)
    ensures var u, c := Reduced(Sums(1, 0), x), Checksum(x);
            u.a < BASE && u.b < BASE && c % 0x1_0000 == u.a && c / 0x1_0000 % 0x1_0000 == u.b && c < TWO_TO_THE_32
  {
    DeferredReduction(Sums(1, 0), x);
  }
}
