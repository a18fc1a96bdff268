/** png_ascii_from_fixed: a fixed-point value in hundred-thousandths as decimal text. */
module FpPrint {
  import opened Arith
  import opened Bytes
  import opened FixedPoint
  import opened FpText

  /** Digits stored least significant first. */
  function Value(digits: seq<byte>): nat
    requires AllDigits(digits)
  {
    if digits == [] then 0 else (digits[0] - 48) + 10 * Value(digits[1..])
  }

  lemma {:induction false} ValueSplit(digits: seq<byte>, k: nat)
    requires AllDigits(digits) && k <= |digits|
    ensures AllDigits(digits[..k]) && AllDigits(digits[k..])
    ensures Value(digits) == Value(digits[..k]) + Pow10(k) * Value(digits[k..])
    decreases k
  {
    if k == 0 {
      assert digits[0..] == digits;
    } else {
      var rest, low, high := digits[1..], digits[..k], digits[k..];
      ValueSplit(rest, k - 1);
      assert rest[..k - 1] == low[1..] && rest[k - 1..] == high;
      assert low[0] == digits[0];
      ShiftDigit(digits[0] - 48, Value(low[1..]), Pow10(k - 1), Value(high));
    }
  }

  lemma ShiftDigit(d: int, a: int, p: int, b: int)
    ensures d + 10 * (a + p * b) == d + 10 * a + 10 * p * b
  {
  }

  /** Writing one more digit, from the most significant end. */
  lemma SnocDigit(text: seq<byte>, digits: seq<byte>, n: nat)
    requires AllDigits(text) && AllDigits(digits) && 0 < n <= |digits|
    requires DigitsValue(text) == Value(digits[n..])
    ensures var c := digits[n - 1]; AllDigits(text + [c]) && DigitsValue(text + [c]) == Value(digits[n - 1..])
  {
    var t := text + [digits[n - 1]];
    assert t[..|t| - 1] == text;
    assert digits[n - 1..][1..] == digits[n..];
  }

  /** The decimal digits of n, least significant first; none for 0. */
  function Digits(n: nat): (d: seq<byte>)
    ensures AllDigits(d) && Value(d) == n && (d == [] <==> n == 0)
  {
    if n == 0 then [] else [48 + n % 10] + Digits(n / 10)
  }

  lemma {:induction false} DigitsLength(n: nat, k: nat)
    requires n < Pow10(k)
    ensures |Digits(n)| <= k
    decreases k
  {
    if n != 0 && k > 0 {
      DigitsLength(n / 10, k - 1);
    }
  }

  lemma Pow10At10()
    ensures Pow10(5) == 100000 && Pow10(10) == 10_000_000_000
  {
    assert Pow10(5) == 100000;
    assert Pow10(10) == 10 * 10 * 10 * 10 * 10 * Pow10(5);
  }

  predicate AllZero(s: seq<byte>) {
    forall i :: 0 <= i < |s| ==> s[i] == 48
  }

  lemma {:induction false} AllZeroValue(s: seq<byte>)
    requires AllZero(s)
    ensures AllDigits(s) && Value(s) == 0
    decreases |s|
  {
    if s != [] {
      AllZeroValue(s[1..]);
    }
  }

  /** The position, from 1, of the lowest digit that is not 0; 16 when there is none. */
  predicate IsFirst(first: nat, digits: seq<byte>) {
    if first == 16 then AllZero(digits)
    else 1 <= first <= |digits| && AllZero(digits[..first - 1]) && digits[first - 1] != 48
  }

  /** The loop that splits off the digits. */
  method Split(num0: nat) returns (digits: seq<byte>, first: nat)
    requires num0 <= TWO_TO_THE_31
    ensures digits == Digits(num0) && |digits| <= 10 && IsFirst(first, digits)
  {
    Pow10At10();
    DigitsLength(num0, 10);
    var num := num0;
    digits, first := [], 16;
    while num != 0
      invariant digits + Digits(num) == Digits(num0) && |digits| <= 10 && IsFirst(first, digits)
      decreases num
    {
      var tmp := num / 10;
      var low := num - tmp * 10;
      var c: byte := 48 + low;
      FirstSnoc(first, digits, c);
      AssocOne(digits, c, Digits(tmp));
      digits := digits + [c];
      if first == 16 && low > 0 {
        first := |digits|;
      }
      num := tmp;
    }
  }

  lemma AssocOne(a: seq<byte>, c: byte, b: seq<byte>)
    ensures a + ([c] + b) == (a + [c]) + b
  {
  }

  lemma FirstSnoc(first: nat, digits: seq<byte>, c: byte)
    requires IsFirst(first, digits) && |digits| < 15
    ensures IsFirst(if first == 16 && c != 48 then |digits| + 1 else first, digits + [c])
  {
    var d := digits + [c];
    if first == 16 {
      assert d[..|digits|] == digits;
    } else {
      assert d[..first - 1] == digits[..first - 1];
    }
  }

  /** Writing the digits from position hi down to position lo, which continues the digits `head`. */
  method WriteDown(ascii: array<byte>, at: nat, digits: seq<byte>, hi: nat, lo: nat, ghost head: seq<byte>)
    returns (pos: nat, ghost text: seq<byte>)
    requires AllDigits(digits) && lo <= hi <= |digits| && at + (hi - lo) <= ascii.Length
    requires AllDigits(head) && DigitsValue(head) == Value(digits[hi..])
    modifies ascii
    ensures pos == at + (hi - lo) && |text| == hi - lo
    ensures AllDigits(head + text) && DigitsValue(head + text) == Value(digits[lo..])
    ensures ascii[..pos] == old(ascii[..at]) + text
  {
    var n := hi;
    pos, text := at, [];
    assert head + text == head;
    while n > lo
      invariant lo <= n <= hi && |text| == hi - n && pos == at + |text|
      invariant AllDigits(head + text) && DigitsValue(head + text) == Value(digits[n..])
      invariant ascii[..pos] == old(ascii[..at]) + text
    {
      SnocDigit(head + text, digits, n);
      n := n - 1;
      assert head + (text + [digits[n]]) == (head + text) + [digits[n]];
      ascii[pos] := digits[n];
      text := text + [digits[n]];
      pos := pos + 1;
    }
  }

  /** The zeros between the point and the digits of a small fraction. */
  method WriteZeros(ascii: array<byte>, at: nat, n: nat) returns (pos: nat, ghost zeros: seq<byte>)
    requires n <= 5 && at + (5 - n) <= ascii.Length
    modifies ascii
    ensures pos == at + (5 - n) && |zeros| == 5 - n && AllZero(zeros)
    ensures ascii[..pos] == old(ascii[..at]) + zeros
  {
    var i := 5;
    pos, zeros := at, [];
    while n < i
      invariant n <= i <= 5 && |zeros| == 5 - i && pos == at + |zeros| && AllZero(zeros)
      invariant ascii[..pos] == old(ascii[..at]) + zeros
    {
      ascii[pos] := 48;
      zeros := zeros + [48];
      pos := pos + 1;
      i := i - 1;
    }
  }

  lemma {:induction false} ZerosValue(zeros: seq<byte>)
    requires AllZero(zeros)
    ensures AllDigits(zeros) && DigitsValue(zeros) == 0
    decreases |zeros|
  {
    if zeros != [] {
      ZerosValue(zeros[..|zeros| - 1]);
    }
  }

  lemma HeadValue(whole: seq<byte>, zeros: seq<byte>, digits: seq<byte>, n: nat)
    requires AllDigits(digits) && n <= 5 && n <= |digits| && AllZero(zeros) && |zeros| == 5 - n
    requires AllDigits(whole) && DigitsValue(whole) == Value(digits[n..]) && (n < 5 ==> |digits| == n && whole == [])
    ensures AllDigits(whole + zeros) && DigitsValue(whole + zeros) == Value(digits[n..])
  {
    ZerosValue(zeros);
    if n < 5 {
      assert whole + zeros == zeros && digits[n..] == [];
    } else {
      assert whole + zeros == whole;
    }
  }

  /** The fraction: a dot, leading zeros up to five places, then the digits down to the
      lowest one that is not 0. */
  method WriteFraction(ascii: array<byte>, at: nat, digits: seq<byte>, n: nat, first: nat, ghost whole: seq<byte>)
    returns (pos: nat, ghost frac: seq<byte>)
    requires AllDigits(digits) && n <= 5 && n <= |digits| && 1 <= first <= n && at + 6 <= ascii.Length
    requires AllDigits(whole) && DigitsValue(whole) == Value(digits[n..]) && (n < 5 ==> |digits| == n && whole == [])
    modifies ascii
    ensures pos == at + 7 - first && |frac| == 6 - first
    ensures AllDigits(whole + frac) && DigitsValue(whole + frac) == Value(digits[first - 1..])
    ensures ascii[..pos] == old(ascii[..at]) + [46] + frac
  {
    ascii[at] := 46;
    assert ascii[..at + 1] == old(ascii[..at]) + [46];
    ghost var zeros, tail;
    pos, zeros := WriteZeros(ascii, at + 1, n);
    ghost var head := whole + zeros;
    HeadValue(whole, zeros, digits, n);
    pos, tail := WriteDown(ascii, pos, digits, n, first - 1, head);
    frac := zeros + tail;
    Assoc(whole, zeros, tail);
    Assoc(old(ascii[..at]) + [46], zeros, tail);
  }

  lemma Assoc(a: seq<byte>, b: seq<byte>, c: seq<byte>)
    ensures (a + b) + c == a + (b + c)
  {
  }

  /** fp is the value of the parts in hundred-thousandths. */
  ghost predicate IsFixed(p: Parts, fp: int) {
    WellFormed(p) && Denotes(p) == fp as real / 100000.0
  }

  lemma {:induction false} Pow10Add(i: nat, j: nat)
    ensures Pow10(i) * Pow10(j) == Pow10(i + j)
    decreases i
  {
    if i > 0 {
      Pow10Add(i - 1, j);
      MulAssoc(10, Pow10(i - 1), Pow10(j));
    }
  }

  /** Digits below position k are 0, so the digits from k on, with 5 - k decimals, denote
      the value. */
  lemma FixedValue(digits: seq<byte>, k: nat, m: nat)
    requires AllDigits(digits) && k <= 5 && k <= |digits| && AllZero(digits[..k]) && m == Value(digits[k..])
    ensures m as real / Pow10(5 - k) as real == Value(digits) as real / 100000.0
  {
    ValueSplit(digits, k);
    AllZeroValue(digits[..k]);
    Pow10Add(k, 5 - k);
    Pow10At10();
    CrossMultiply(m, Pow10(k), Pow10(5 - k), Value(digits));
  }

  lemma CrossMultiply(m: nat, p: nat, q: nat, v: nat)
    requires p > 0 && q > 0 && p * q == 100000 && v == p * m
    ensures m as real / q as real == v as real / 100000.0
  {
    assert v as real == p as real * m as real;
    assert p as real * q as real == 100000.0;
    assert m as real / q as real == (p as real * m as real) / (p as real * q as real);
  }

  /** A number without exponent denotes mantissa / 10^decimals, with its sign. */
  lemma PlainIsFixed(p: Parts, fp: int)
    requires WellFormed(p) && p.mark == [] && p.sign == (if fp < 0 then [45] else [])
    requires Mantissa(p) as real / Pow10(|p.frac|) as real == Abs(fp) as real / 100000.0
    ensures IsFixed(p, fp)
  {
    assert DigitsValue(p.exp) == 0 && Pow10(0) == 1;
    var m := Mantissa(p) as real / Pow10(|p.frac|) as real;
    assert m * 1.0 == m;
  }

  /** Without a fraction: the digits from the sixth on, or "0". */
  lemma WholeIsFixed(p: Parts, digits: seq<byte>, first: nat, fp: int)
    requires digits == Digits(Abs(fp)) && IsFirst(first, digits) && first > 5
    requires p == EMPTY.(sign := if fp < 0 then [45] else [], whole := p.whole)
    requires AllDigits(p.whole) && p.whole != []
    requires if digits == [] then p.whole == [48] else |digits| > 5 && DigitsValue(p.whole) == Value(digits[5..])
    ensures IsFixed(p, fp)
  {
    assert p.whole + p.frac == p.whole;
    if digits == [] {
      assert DigitsValue([48]) == 0;
    } else {
      LowZeros(digits, first);
      FixedValue(digits, 5, DigitsValue(p.whole));
    }
    PlainIsFixed(p, fp);
  }

  lemma LowZeros(digits: seq<byte>, first: nat)
    requires IsFirst(first, digits) && first > 5 && |digits| > 5
    ensures AllZero(digits[..5])
  {
    if first != 16 {
      assert forall i :: 0 <= i < 5 ==> digits[i] == digits[..first - 1][i];
    }
  }

  lemma FractionIsFixed(p: Parts, digits: seq<byte>, first: nat, fp: int)
    requires digits == Digits(Abs(fp)) && IsFirst(first, digits) && first <= 5
    requires p == EMPTY.(sign := if fp < 0 then [45] else [], whole := p.whole, dot := true, frac := p.frac)
    requires AllDigits(p.whole + p.frac) && |p.frac| == 6 - first
    requires DigitsValue(p.whole + p.frac) == Value(digits[first - 1..])
    ensures IsFixed(p, fp)
  {
    DigitsOfConcat(p.whole, p.frac);
    FixedValue(digits, first - 1, DigitsValue(p.whole + p.frac));
    PlainIsFixed(p, fp);
  }

  lemma DigitsOfConcat(a: seq<byte>, b: seq<byte>)
    requires AllDigits(a + b)
    ensures AllDigits(a) && AllDigits(b)
  {
    assert forall i :: 0 <= i < |a| ==> a[i] == (a + b)[i];
    assert forall i :: 0 <= i < |b| ==> b[i] == (a + b)[|a| + i];
  }

  /** png_ascii_from_fixed: for every 32-bit value and a buffer of at least 13 bytes the
      text is a number of at most 12 characters that denotes the value exactly. */
  method AsciiFromFixed(ascii: array<byte>, size: nat, fp: int) returns (ok: bool, ghost p: Parts)
    requires Int32(fp) && size <= ascii.Length
    modifies ascii
    ensures ok <==> size > 12
    ensures ok ==> IsFixed(p, fp) && |Render(p)| <= 12 && ascii[..|Render(p)| + 1] == Render(p) + [0]
  {
    p := EMPTY;
    if size <= 12 {
      return false, p;
    }
    var pos, num := 0, fp;
    if fp < 0 {
      ascii[0] := 45;
      pos, num := 1, -fp;
    }
    ghost var sign: seq<byte> := if fp < 0 then [45] else [];
    assert ascii[..pos] == sign;
    var digits, first := Split(num);
    pos, p := WriteDigits(ascii, pos, digits, first, fp, sign);
    ascii[pos] := 0;
    ok := true;
  }

  method WriteDigits(ascii: array<byte>, at: nat, digits: seq<byte>, first: nat, ghost fp: int, ghost sign: seq<byte>)
    returns (pos: nat, ghost p: Parts)
    requires digits == Digits(Abs(fp)) && |digits| <= 10 && IsFirst(first, digits)
    requires sign == (if fp < 0 then [45] else []) && at <= 1 && ascii.Length > 12 && ascii[..at] == sign
    modifies ascii
    ensures IsFixed(p, fp) && pos <= 12 && ascii[..pos] == Render(p)
  {
    if |digits| == 0 {
      ascii[at] := 48;
      pos := at + 1;
      p := EMPTY.(sign := sign, whole := [48]);
      WholeIsFixed(p, digits, first, fp);
    } else {
      pos, p := WriteNonzero(ascii, at, digits, first, fp, sign);
    }
  }

  method WriteNonzero(ascii: array<byte>, at: nat, digits: seq<byte>, first: nat, ghost fp: int, ghost sign: seq<byte>)
    returns (pos: nat, ghost p: Parts)
    requires digits == Digits(Abs(fp)) && 0 < |digits| <= 10 && IsFirst(first, digits)
    requires sign == (if fp < 0 then [45] else []) && at <= 1 && ascii.Length > 12 && ascii[..at] == sign
    modifies ascii
    ensures IsFixed(p, fp) && pos <= 12 && ascii[..pos] == Render(p)
  {
    var n := if |digits| > 5 then 5 else |digits|;
    ghost var whole, frac;
    assert digits[|digits|..] == [];
    pos, whole := WriteDown(ascii, at, digits, |digits|, n, []);
    assert [] + whole == whole;
    p := EMPTY.(sign := sign, whole := whole);
    if first <= 5 {
      pos, frac := WriteFraction(ascii, pos, digits, n, first, whole);
      p := p.(dot := true, frac := frac);
      FractionIsFixed(p, digits, first, fp);
    } else {
      SomeNonzero(digits, first);
      WholeIsFixed(p, digits, first, fp);
    }
    RenderPlain(p);
  }

  lemma RenderPlain(p: Parts)
    requires p.mark == [] && p.expSign == [] && p.exp == []
    ensures p.dot ==> Render(p) == p.sign + p.whole + [46] + p.frac
    ensures !p.dot && p.frac == [] ==> Render(p) == p.sign + p.whole
  {
  }

  /** A number that is not 0 has a digit that is not 0. */
  lemma SomeNonzero(digits: seq<byte>, first: nat)
    requires AllDigits(digits) && Value(digits) > 0 && IsFirst(first, digits) && first > 5
    ensures |digits| > 5
  {
    if first == 16 {
      AllZeroValue(digits);
    }
  }

  /** Printer and parser: the text of every 32-bit value is accepted as a number, and the
      flags tell the value's sign. */
  method PrintThenCheck(fp: int) returns (r: Flags)
    requires Int32(fp)
    ensures r != 0
    ensures IsZero(r) <==> fp == 0
    ensures IsPositive(r) <==> fp > 0
    ensures IsNegative(r) <==> fp < 0
  {
    var ascii := new byte[13];
    var ok;
    ghost var p;
    ok, p := AsciiFromFixed(ascii, 13, fp);
    ghost var n := |Render(p)|;
    ParseRender(p);
    ParsedHasNoNul(Render(p));
    assert ascii[..n] == Render(p) && ascii[n] == 0 by {
      assert ascii[..n + 1][n] == 0 && ascii[..n + 1][..n] == Render(p);
    }
    assert forall k :: 0 <= k < n ==> ascii[..][k] == Render(p)[k];
    TextIs(ascii[..], n);
    assert ascii[..][..n] == ascii[..n];
    r := CheckString(ascii[..]);
    assert Denotes(p) == fp as real / 100000.0;
  }
}
