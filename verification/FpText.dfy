/** The floating-point text automaton of libpng (png_check_fp_number) and the numbers it
    recognizes. */
module FpText {
  import opened Bytes

  // ----- the numbers: [+-]?(D+(.D*)?|.D+)([Ee][+-]?D+)? -----

  predicate IsDigit(c: byte) { 48 <= c <= 57 }
  predicate IsSign(c: byte) { c == 43 || c == 45 }
  predicate IsDot(c: byte) { c == 46 }
  predicate IsE(c: byte) { c == 69 || c == 101 }

  predicate AllDigits(s: seq<byte>) {
    forall i :: 0 <= i < |s| ==> IsDigit(s[i])
  }

  predicate OptionalSign(s: seq<byte>) {
    s == [] || (|s| == 1 && IsSign(s[0]))
  }

  /** A number, or the beginning of one, split into its parts.  `mark` is [] or [E]. */
  datatype Parts = Parts(
    sign: seq<byte>, whole: seq<byte>, dot: bool, frac: seq<byte>,
    mark: seq<byte>, expSign: seq<byte>, exp: seq<byte>)

  const EMPTY := Parts([], [], false, [], [], [], [])

  function MantissaText(p: Parts): seq<byte> {
    p.sign + p.whole + (if p.dot then [46] else []) + p.frac
  }

  function ExponentText(p: Parts): seq<byte> {
    p.mark + p.expSign + p.exp
  }

  function Render(p: Parts): seq<byte> {
    MantissaText(p) + ExponentText(p)
  }

  predicate HasMantissa(p: Parts) {
    p.whole != [] || p.frac != []
  }

  /** The beginning of a number. */
  predicate Partial(p: Parts) {
    && OptionalSign(p.sign) && AllDigits(p.whole) && AllDigits(p.frac) && AllDigits(p.exp) && OptionalSign(p.expSign)
    && (p.mark == [] || (|p.mark| == 1 && IsE(p.mark[0]) && HasMantissa(p)))
    && (p.frac != [] ==> p.dot)
    && (p.mark == [] ==> p.expSign == [] && p.exp == [])
  }

  /** A complete number. */
  predicate WellFormed(p: Parts) {
    Partial(p) && HasMantissa(p) && (p.mark != [] ==> p.exp != [])
  }

  ghost predicate Matches(s: seq<byte>) {
    exists p :: WellFormed(p) && Render(p) == s
  }

  // ----- what a number denotes -----

  function DigitsValue(s: seq<byte>): nat
    requires AllDigits(s)
  {
    if s == [] then 0 else 10 * DigitsValue(s[..|s| - 1]) + (s[|s| - 1] - 48)
  }

  function Pow10(k: nat): (r: nat)
    ensures r >= 1
  {
    if k == 0 then 1 else 10 * Pow10(k - 1)
  }

  /** The mantissa as an integer: all digits read together. */
  function Mantissa(p: Parts): nat
    requires Partial(p)
  {
    DigitsValue(p.whole + p.frac)
  }

  function Denotes(p: Parts): real
    requires WellFormed(p)
  {
    var m := Mantissa(p) as real / Pow10(|p.frac|) as real;
    var e := Pow10(DigitsValue(p.exp)) as real;
    var v := if p.expSign == [45] then m / e else m * e;
    if p.sign == [45] then -v else v
  }

  // ----- reading one more character -----

  /** The parts after one more character, or None when it is not part of the number. */
  function Extend(p: Parts, c: byte): Option<Parts> {
    if p.mark != [] then
      if IsSign(c) && p.expSign == [] && p.exp == [] then Some(p.(expSign := [c]))
      else if IsDigit(c) then Some(p.(exp := p.exp + [c]))
      else None
    else if IsSign(c) then
      if p.sign == [] && p.whole == [] && !p.dot then Some(p.(sign := [c])) else None
    else if IsDot(c) then
      if p.dot then None else Some(p.(dot := true))
    else if IsDigit(c) then
      if p.dot then Some(p.(frac := p.frac + [c])) else Some(p.(whole := p.whole + [c]))
    else if IsE(c) then
      if HasMantissa(p) then Some(p.(mark := [c])) else None
    else None
  }

  lemma ExtendPartial(p: Parts, c: byte)
    requires Partial(p) && Extend(p, c).Some?
    ensures Partial(Extend(p, c).value)
  {
  }

  lemma ExtendExponent(p: Parts, c: byte)
    requires Partial(p) && Extend(p, c).Some? && Extend(p, c).value.mark != []
    ensures MantissaText(Extend(p, c).value) == MantissaText(p)
    ensures ExponentText(Extend(p, c).value) == ExponentText(p) + [c]
  {
    if p.mark == [] {
      assert p.expSign == [] && p.exp == [];
    } else if IsSign(c) {
      assert p.expSign == [] && p.exp == [];
    } else {
      Append(p.mark + p.expSign, p.exp, c);
    }
  }

  lemma ExtendMantissa(p: Parts, c: byte)
    requires Partial(p) && Extend(p, c).Some? && Extend(p, c).value.mark == []
    ensures MantissaText(Extend(p, c).value) == MantissaText(p) + [c]
    ensures ExponentText(Extend(p, c).value) == ExponentText(p) == []
  {
    if IsSign(c) {
      assert p.sign == [] && p.whole == [] && !p.dot && p.frac == [];
    } else if IsDot(c) {
      assert p.frac == [];
      assert MantissaText(p) == p.sign + p.whole;
    } else if p.dot {
      Append(p.sign + p.whole + [46], p.frac, c);
    } else {
      assert p.frac == [];
      Append(p.sign, p.whole, c);
      assert MantissaText(p) == p.sign + p.whole;
    }
  }

  lemma ExtendKeeps(p: Parts, c: byte)
    requires Partial(p) && Extend(p, c).Some?
    ensures Partial(Extend(p, c).value) && Render(Extend(p, c).value) == Render(p) + [c]
  {
    ExtendPartial(p, c);
    if Extend(p, c).value.mark != [] {
      ExtendExponent(p, c);
      Append(MantissaText(p), ExponentText(p), c);
    } else {
      ExtendMantissa(p, c);
    }
  }

  lemma Append(a: seq<byte>, b: seq<byte>, c: byte)
    ensures a + (b + [c]) == (a + b) + [c]
  {
  }

  /** The parts of s[..n], when every character belongs to the number. */
  function Parse(s: seq<byte>): Option<Parts> {
    if s == [] then Some(EMPTY)
    else
      match Parse(s[..|s| - 1])
      case None => None
      case Some(p) => Extend(p, s[|s| - 1])
  }

  lemma {:induction false} ParseSound(s: seq<byte>)
    ensures Parse(s).Some? ==> Partial(Parse(s).value) && Render(Parse(s).value) == s
    decreases |s|
  {
    if s != [] {
      var t := s[..|s| - 1];
      ParseSound(t);
      if Parse(s).Some? {
        ExtendKeeps(Parse(t).value, s[|s| - 1]);
        assert t + [s[|s| - 1]] == s;
      }
    }
  }

  /** The parts without their last character. */
  function Shrink(p: Parts): Parts {
    if p.exp != [] then p.(exp := p.exp[..|p.exp| - 1])
    else if p.expSign != [] then p.(expSign := [])
    else if p.mark != [] then p.(mark := [])
    else if p.frac != [] then p.(frac := p.frac[..|p.frac| - 1])
    else if p.dot then p.(dot := false)
    else if p.whole != [] then p.(whole := p.whole[..|p.whole| - 1])
    else p.(sign := [])
  }

  /** The last character of a rendering. */
  function Last(p: Parts): byte
    requires Partial(p) && p != EMPTY
  {
    if p.exp != [] then p.exp[|p.exp| - 1]
    else if p.expSign != [] then p.expSign[0]
    else if p.mark != [] then p.mark[0]
    else if p.frac != [] then p.frac[|p.frac| - 1]
    else if p.dot then 46
    else if p.whole != [] then p.whole[|p.whole| - 1]
    else p.sign[0]
  }

  lemma ShrinkExtends(p: Parts)
    requires Partial(p) && p != EMPTY
    ensures Partial(Shrink(p)) && Extend(Shrink(p), Last(p)) == Some(p)
  {
    if p.exp != [] {
      assert p.exp[..|p.exp| - 1] + [p.exp[|p.exp| - 1]] == p.exp;
    } else if p.expSign != [] {
      assert p.expSign == [p.expSign[0]];
    } else if p.mark != [] {
      assert p.mark == [p.mark[0]];
    } else if p.frac != [] {
      assert p.frac[..|p.frac| - 1] + [p.frac[|p.frac| - 1]] == p.frac;
    } else if p.dot {
    } else if p.whole != [] {
      assert p.whole[..|p.whole| - 1] + [p.whole[|p.whole| - 1]] == p.whole;
    } else {
      assert p.sign == [p.sign[0]];
    }
  }

  /** Rendering and parsing are inverse: a text has at most one reading. */
  lemma {:induction false} ParseRender(p: Parts)
    requires Partial(p)
    ensures Parse(Render(p)) == Some(p)
    decreases |Render(p)|
  {
    if p != EMPTY {
      var q, c := Shrink(p), Last(p);
      ShrinkExtends(p);
      ExtendKeeps(q, c);
      ParseRender(q);
      assert (Render(q) + [c])[..|Render(q)|] == Render(q);
    }
  }

  /** The automaton's language, character by character, is the grammar. */
  lemma ParseIsGrammar(s: seq<byte>)
    ensures Matches(s) <==> Parse(s).Some? && WellFormed(Parse(s).value)
  {
    ParseSound(s);
    forall p | WellFormed(p) && Render(p) == s ensures Parse(s) == Some(p) {
      ParseRender(p);
    }
  }

  // ----- the flag encoding of pngpriv.h -----

  type Flags = bv16

  const INTEGER: Flags := 0
  const FRACTION: Flags := 1
  const EXPONENT: Flags := 2
  const STATE: Flags := 3
  const SAW_SIGN: Flags := 4
  const SAW_DIGIT: Flags := 8
  const SAW_DOT: Flags := 16
  const SAW_E: Flags := 32
  const SAW_ANY: Flags := 60
  const WAS_VALID: Flags := 64
  const NEGATIVE: Flags := 128
  const NONZERO: Flags := 256
  const STICKY: Flags := 448
  const NZ_MASK: Flags := SAW_DIGIT | NEGATIVE | NONZERO
  const Z_MASK: Flags := SAW_DIGIT | NONZERO

  predicate IsZero(state: Flags) { state & Z_MASK == SAW_DIGIT }
  predicate IsPositive(state: Flags) { state & NZ_MASK == Z_MASK }
  predicate IsNegative(state: Flags) { state & NZ_MASK == NZ_MASK }

  function FpSet(state: Flags, value: Flags): Flags { value | (state & STICKY) }

  /** The type of a character; 0 for one that cannot occur in a number. */
  function CharType(c: byte): Flags {
    if c == 43 then SAW_SIGN
    else if c == 45 then SAW_SIGN + NEGATIVE
    else if c == 46 then SAW_DOT
    else if c == 48 then SAW_DIGIT
    else if 49 <= c <= 57 then SAW_DIGIT + NONZERO
    else if c == 69 || c == 101 then SAW_E
    else 0
  }

  /** The switch of png_check_fp_number: the next state, or None to stop. */
  function Step(state: Flags, c: byte): Option<Flags> {
    var t := CharType(c);
    if t == 0 then None
    else
      var k := (state & STATE) + (t & SAW_ANY);
      if k == INTEGER + SAW_SIGN then
        if state & SAW_ANY != 0 then None else Some(state | t)
      else if k == INTEGER + SAW_DOT then
        if state & SAW_DOT != 0 then None
        else if state & SAW_DIGIT != 0 then Some(state | t)
        else Some(FpSet(state, FRACTION | t))
      else if k == INTEGER + SAW_DIGIT then
        var base := if state & SAW_DOT != 0 then FpSet(state, FRACTION | SAW_DOT) else state;
        Some(base | (t | WAS_VALID))
      else if k == INTEGER + SAW_E then
        if state & SAW_DIGIT == 0 then None else Some(FpSet(state, EXPONENT))
      else if k == FRACTION + SAW_DIGIT then Some(state | (t | WAS_VALID))
      else if k == FRACTION + SAW_E then
        if state & SAW_DIGIT == 0 then None else Some(FpSet(state, EXPONENT))
      else if k == EXPONENT + SAW_SIGN then
        if state & SAW_ANY != 0 then None else Some(state | SAW_SIGN)
      else if k == EXPONENT + SAW_DIGIT then Some(state | (SAW_DIGIT | WAS_VALID))
      else None
  }

  predicate HasNonzero(s: seq<byte>) {
    exists i :: 0 <= i < |s| && s[i] != 48
  }

  function If(b: bool, f: Flags): Flags { if b then f else 0 }

  /** What the flags record of the parts. */
  datatype Shape = Shape(
    sign: bool, negative: bool, whole: bool, dot: bool, frac: bool, nonzero: bool,
    mark: bool, expSign: bool, exp: bool)

  function ShapeOf(p: Parts): Shape {
    Shape(p.sign != [], p.sign == [45], p.whole != [], p.dot, p.frac != [],
          HasNonzero(p.whole) || HasNonzero(p.frac), p.mark != [], p.expSign != [], p.exp != [])
  }

  predicate PartialShape(h: Shape) {
    && (h.negative ==> h.sign) && (h.frac ==> h.dot) && (h.mark ==> h.whole || h.frac)
    && (!h.mark ==> !h.expSign && !h.exp)
  }

  function EncodeShape(h: Shape): Flags {
    var sticky := If(h.whole || h.frac, WAS_VALID) | If(h.negative, NEGATIVE) | If(h.nonzero, NONZERO);
    if h.mark then EXPONENT | If(h.expSign, SAW_SIGN) | If(h.exp, SAW_DIGIT) | sticky
    else if h.dot && (!h.whole || h.frac) then FRACTION | SAW_DOT | If(h.frac, SAW_DIGIT) | sticky
    else INTEGER | If(h.sign, SAW_SIGN) | If(h.whole, SAW_DIGIT) | If(h.dot, SAW_DOT) | sticky
  }

  function Encode(p: Parts): Flags {
    EncodeShape(ShapeOf(p))
  }

  function ExtendShape(h: Shape, c: byte): Option<Shape> {
    if h.mark then
      if IsSign(c) && !h.expSign && !h.exp then Some(h.(expSign := true))
      else if IsDigit(c) then Some(h.(exp := true))
      else None
    else if IsSign(c) then
      if !h.sign && !h.whole && !h.dot then Some(h.(sign := true, negative := c == 45)) else None
    else if IsDot(c) then
      if h.dot then None else Some(h.(dot := true))
    else if IsDigit(c) then
      var g := h.(nonzero := h.nonzero || c != 48);
      if h.dot then Some(g.(frac := true)) else Some(g.(whole := true))
    else if IsE(c) then
      if h.whole || h.frac then Some(h.(mark := true)) else None
    else None
  }

  lemma NonzeroSnoc(s: seq<byte>, c: byte)
    ensures HasNonzero(s + [c]) <==> HasNonzero(s) || c != 48
  {
    if c != 48 {
      assert (s + [c])[|s|] == c;
    }
    if HasNonzero(s) {
      var i :| 0 <= i < |s| && s[i] != 48;
      assert (s + [c])[i] == s[i];
    }
  }

  lemma ShapeExtends(p: Parts, c: byte)
    requires Partial(p)
    ensures PartialShape(ShapeOf(p))
    ensures ExtendShape(ShapeOf(p), c) == match Extend(p, c) case None => None case Some(q) => Some(ShapeOf(q))
  {
    NonzeroSnoc(p.whole, c);
    NonzeroSnoc(p.frac, c);
  }

  /** The bit-level step in the exponent, */
  lemma StepInExponent(h: Shape, c: byte)
    requires PartialShape(h) && h.mark
    ensures Step(EncodeShape(h), c) == match ExtendShape(h, c) case None => None case Some(g) => Some(EncodeShape(g))
  {
  }

  /** in the fraction, */
  lemma StepInFraction(h: Shape, c: byte)
    requires PartialShape(h) && !h.mark && h.dot && (!h.whole || h.frac)
    ensures Step(EncodeShape(h), c) == match ExtendShape(h, c) case None => None case Some(g) => Some(EncodeShape(g))
  {
  }

  /** and in the integer, is the step on shapes. */
  lemma StepInInteger(h: Shape, c: byte)
    requires PartialShape(h) && !h.mark && !(h.dot && (!h.whole || h.frac))
    ensures Step(EncodeShape(h), c) == match ExtendShape(h, c) case None => None case Some(g) => Some(EncodeShape(g))
  {
  }

  /** The bit-level step is the step on parts. */
  lemma StepSimulates(p: Parts, c: byte)
    requires Partial(p)
    ensures Step(Encode(p), c) == match Extend(p, c) case None => None case Some(q) => Some(Encode(q))
  {
    var h := ShapeOf(p);
    ShapeExtends(p, c);
    if h.mark {
      StepInExponent(h, c);
    } else if h.dot && (!h.whole || h.frac) {
      StepInFraction(h, c);
    } else {
      StepInInteger(h, c);
    }
  }

  // ----- the parser -----

  /** How far the number goes from index i on, with what has been read. */
  function Walk(s: seq<byte>, size: nat, p: Parts, i: nat): (Parts, nat)
    requires size <= |s|
    decreases size - i
  {
    if i >= size then (p, i)
    else
      match Extend(p, s[i])
      case None => (p, i)
      case Some(q) => Walk(s, size, q, i + 1)
  }

  /** The loop on the flag word itself: the word and the position it ends with. */
  function Scan(s: seq<byte>, size: nat, state: Flags, i: nat): (Flags, nat)
    requires size <= |s|
    decreases size - i
  {
    if i >= size then (state, i)
    else
      match Step(state, s[i])
      case None => (state, i)
      case Some(next) => Scan(s, size, next, i + 1)
  }

  /** Stopping early and resuming with the saved word and position, whatever the word, changes
      nothing. */
  lemma {:induction false} Resume(s: seq<byte>, size: nat, more: nat, state: Flags, i: nat)
    requires size <= more <= |s|
    ensures var (saved, j) := Scan(s, size, state, i); Scan(s, more, saved, j) == Scan(s, more, state, i)
    decreases size - i
  {
    if i < size {
      match Step(state, s[i])
      case None =>
      case Some(next) => Resume(s, size, more, next, i + 1);
    }
  }

  /** png_check_fp_number. */
  method CheckNumber(s: seq<byte>, size: nat, state0: Flags, i0: nat, ghost p: Parts)
    returns (ok: bool, state: Flags, i: nat)
    requires size <= |s| && Partial(p) && state0 == Encode(p)
    ensures var (q, j) := Walk(s, size, p, i0); i == j && Partial(q) && state == Encode(q)
    ensures (state, i) == Scan(s, size, state0, i0) && ok == (state & SAW_DIGIT != 0)
  {
    state, i := state0, i0;
    ghost var q := p;
    while i < size
      invariant Partial(q) && state == Encode(q) && Walk(s, size, q, i) == Walk(s, size, p, i0)
      invariant Scan(s, size, state, i) == Scan(s, size, state0, i0)
    {
      StepSimulates(q, s[i]);
      match Step(state, s[i])
      case None => break;
      case Some(next) =>
        ExtendPartial(q, s[i]);
        q := Extend(q, s[i]).value;
        state := next;
        i := i + 1;
    }
    ok := state & SAW_DIGIT != 0;
  }

  /** The text before the first NUL. */
  function Text(s: seq<byte>): seq<byte> {
    if s == [] || s[0] == 0 then [] else [s[0]] + Text(s[1..])
  }

  lemma {:induction false} TextIs(s: seq<byte>, n: nat)
    requires n <= |s| && (forall k :: 0 <= k < n ==> s[k] != 0) && (n == |s| || s[n] == 0)
    ensures Text(s) == s[..n]
    decreases n
  {
    if n > 0 {
      TextIs(s[1..], n - 1);
      assert s[..n] == [s[0]] + s[1..][..n - 1];
    }
  }

  lemma {:induction false} TextCut(s: seq<byte>) returns (n: nat)
    ensures n <= |s| && Text(s) == s[..n] && (forall k :: 0 <= k < n ==> s[k] != 0) && (n == |s| || s[n] == 0)
    decreases |s|
  {
    if s == [] || s[0] == 0 {
      n := 0;
    } else {
      var m := TextCut(s[1..]);
      n := m + 1;
      assert s[..n] == [s[0]] + s[1..][..m];
      assert forall k :: 0 < k < n ==> s[k] == s[1..][k - 1];
    }
  }

  /** Walking from the start parses a prefix and stops where parsing must stop. */
  lemma {:induction false} WalkParses(s: seq<byte>, p: Parts, i: nat)
    requires i <= |s| && Parse(s[..i]) == Some(p)
    ensures var (q, j) := Walk(s, |s|, p, i);
            i <= j <= |s| && Parse(s[..j]) == Some(q) && (j == |s| || Extend(q, s[j]).None?)
    decreases |s| - i
  {
    if i < |s| {
      assert s[..i + 1][..i] == s[..i];
      match Extend(p, s[i])
      case None =>
      case Some(q) => WalkParses(s, q, i + 1);
    }
  }

  lemma {:induction false} ParseStops(s: seq<byte>, j: nat, n: nat)
    requires j < n <= |s| && Parse(s[..j]).Some? && Extend(Parse(s[..j]).value, s[j]).None?
    ensures Parse(s[..n]).None?
    decreases n
  {
    assert s[..n][..n - 1] == s[..n - 1];
    if n > j + 1 {
      ParseStops(s, j, n - 1);
    }
  }

  lemma {:induction false} ParsedHasNoNul(s: seq<byte>)
    requires Parse(s).Some?
    ensures forall k :: 0 <= k < |s| ==> s[k] != 0
    decreases |s|
  {
    if s != [] {
      var t := s[..|s| - 1];
      ParsedHasNoNul(t);
      assert forall k :: 0 <= k < |t| ==> t[k] == s[k];
    }
  }

  lemma {:induction false} ZeroDigits(s: seq<byte>)
    requires AllDigits(s)
    ensures DigitsValue(s) == 0 <==> !HasNonzero(s)
    decreases |s|
  {
    if s != [] {
      var t := s[..|s| - 1];
      ZeroDigits(t);
      NonzeroSnoc(t, s[|s| - 1]);
      assert t + [s[|s| - 1]] == s;
    }
  }

  lemma NonzeroConcat(a: seq<byte>, b: seq<byte>)
    ensures HasNonzero(a + b) <==> HasNonzero(a) || HasNonzero(b)
  {
    if HasNonzero(a) {
      var i :| 0 <= i < |a| && a[i] != 48;
      assert (a + b)[i] == a[i];
    }
    if HasNonzero(b) {
      var i :| 0 <= i < |b| && b[i] != 48;
      assert (a + b)[|a| + i] == b[i];
    }
  }

  /** The sign of a number is the sign written, unless every mantissa digit is 0. */
  lemma DenotedSign(p: Parts)
    requires WellFormed(p)
    ensures var nonzero := HasNonzero(p.whole) || HasNonzero(p.frac);
            && (Denotes(p) == 0.0 <==> !nonzero)
            && (Denotes(p) > 0.0 <==> nonzero && p.sign != [45])
            && (Denotes(p) < 0.0 <==> nonzero && p.sign == [45])
  {
    NonzeroConcat(p.whole, p.frac);
    ZeroDigits(p.whole + p.frac);
    RealSign(Mantissa(p), Pow10(|p.frac|), Pow10(DigitsValue(p.exp)));
  }

  /** The three classification macros tell the sign of the number. */
  lemma FlagsTellSign(p: Parts)
    requires WellFormed(p)
    ensures IsZero(Encode(p)) <==> Denotes(p) == 0.0
    ensures IsPositive(Encode(p)) <==> Denotes(p) > 0.0
    ensures IsNegative(Encode(p)) <==> Denotes(p) < 0.0
  {
    DenotedSign(p);
    SignBits(ShapeOf(p));
  }

  lemma RealSign(m: nat, f: nat, e: nat)
    requires f > 0 && e > 0
    ensures var v := m as real / f as real;
            && (v * e as real == 0.0 <==> m == 0) && (v / e as real == 0.0 <==> m == 0)
            && v * e as real >= 0.0 && v / e as real >= 0.0
  {
  }

  lemma SignBits(h: Shape)
    requires PartialShape(h) && (if h.mark then h.exp else h.whole || h.frac)
    ensures IsZero(EncodeShape(h)) <==> !h.nonzero
    ensures IsPositive(EncodeShape(h)) <==> h.nonzero && !h.negative
    ensures IsNegative(EncodeShape(h)) <==> h.nonzero && h.negative
  {
  }

  /** The digit flag says whether the parts are a complete number. */
  lemma DigitBit(p: Parts)
    requires Partial(p)
    ensures Encode(p) & SAW_DIGIT != 0 <==> WellFormed(p)
  {
  }

  /** png_check_fp_string: the flags when the whole text is a number, otherwise 0. */
  method CheckString(s: seq<byte>) returns (r: Flags)
    ensures r != 0 <==> Matches(Text(s))
    ensures forall p :: WellFormed(p) && Render(p) == Text(s) ==>
              && (IsZero(r) <==> Denotes(p) == 0.0)
              && (IsPositive(r) <==> Denotes(p) > 0.0)
              && (IsNegative(r) <==> Denotes(p) < 0.0)
  {
    assert Encode(EMPTY) == 0;
    var ok, state, i := CheckNumber(s, |s|, 0, 0, EMPTY);
    ghost var (q, j) := Walk(s, |s|, EMPTY, 0);
    assert s[..0] == [];
    WalkParses(s, EMPTY, 0);
    DigitBit(q);
    r := if ok && (i == |s| || s[i] == 0) then state else 0;
    Decides(s, q, i);
    if r != 0 {
      FlagsTellSign(q);
    }
    forall p | WellFormed(p) && Render(p) == Text(s) ensures r != 0 && p == q {
      ParseRender(p);
    }
  }

  /** The number is the whole text exactly when the walk ends at its end in a complete number. */
  lemma Decides(s: seq<byte>, q: Parts, j: nat)
    requires j <= |s| && Parse(s[..j]) == Some(q) && (j == |s| || Extend(q, s[j]).None?)
    ensures Matches(Text(s)) <==> WellFormed(q) && (j == |s| || s[j] == 0)
    ensures Matches(Text(s)) ==> Parse(Text(s)) == Some(q)
  {
    ParsedHasNoNul(s[..j]);
    var n := TextCut(s);
    assert forall k :: 0 <= k < j ==> s[k] == s[..j][k];
    ParseIsGrammar(Text(s));
    if j == |s| || s[j] == 0 {
      TextIs(s, j);
    } else {
      assert j < n;
      ParseStops(s, j, n);
    }
  }
}
