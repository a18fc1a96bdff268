/** Chromaticities to tristimulus values and back (png_XYZ_from_xy, png_xy_from_XYZ and
    the checks built on them), with every signed 32-bit operation made explicit. */
module Chromaticity {
  import opened Arith
  import opened Bytes
  import opened FixedPoint

  datatype Xy = Xy(redx: int, redy: int, greenx: int, greeny: int, bluex: int, bluey: int, whitex: int, whitey: int)

  /** Return code 0 with a value, return codes 1 and 2, or a signed overflow, which the
      C language leaves undefined. */
  datatype Outcome<+T> = Good(value: T) | Rejected | InternalError | SignedOverflow {
    predicate IsFailure() {
      !Good?
    }

    function PropagateFailure<U>(): Outcome<U>
      requires IsFailure()
    {
      match this
      case Rejected => Rejected
      case InternalError => InternalError
      case SignedOverflow => SignedOverflow
    }

    function Extract(): T
      requires Good?
    {
      value
    }
  }

  /** x, y and z = 1 - x - y are all non-negative. */
  predicate InSimplex(x: int, y: int) {
    0 <= x <= FP_1 && 0 <= y <= FP_1 - x
  }

  predicate RangesOk(xy: Xy) {
    && InSimplex(xy.redx, xy.redy) && InSimplex(xy.greenx, xy.greeny)
    && InSimplex(xy.bluex, xy.bluey) && InSimplex(xy.whitex, xy.whitey) && xy.whitey >= 5
  }

  /** png_reciprocal. */
  function Reciprocal(a: int): int {
    match MulDiv(FP_1, FP_1, a)
    case Some(r) => r
    case None => 0
  }

  /** One difference of products, each divided by 7: left - right. */
  function Difference(a: int, b: int, c: int, d: int): Outcome<int> {
    match (MulDiv(a, b, 7), MulDiv(c, d, 7))
    case (Some(left), Some(right)) => if Int32(left - right) then Good(left - right) else SignedOverflow
    case _ => InternalError
  }

  /** The reciprocal of a colour's scale, which must exceed the white's. */
  function Inverse(whitey: int, denominator: int, numerator: int): Outcome<int> {
    match MulDiv(whitey, denominator, numerator)
    case Some(r) => if r <= whitey then Rejected else Good(r)
    case None => Rejected
  }

  /** The determinant of the chromaticities, and the numerators of two of its solutions. */
  function Denominator(xy: Xy): Outcome<int> {
    Difference(xy.greenx - xy.bluex, xy.redy - xy.bluey, xy.greeny - xy.bluey, xy.redx - xy.bluex)
  }

  function RedPart(xy: Xy): Outcome<int> {
    Difference(xy.greenx - xy.bluex, xy.whitey - xy.bluey, xy.greeny - xy.bluey, xy.whitex - xy.bluex)
  }

  function GreenPart(xy: Xy): Outcome<int> {
    Difference(xy.redy - xy.bluey, xy.whitex - xy.bluex, xy.redx - xy.bluex, xy.whitey - xy.bluey)
  }

  datatype Scales = Scales(redInverse: int, greenInverse: int, blueScale: int)

  /** The first half of png_XYZ_from_xy. */
  function FindScales(xy: Xy): Outcome<Scales> {
    if !RangesOk(xy) then Rejected
    else
      var denominator :- Denominator(xy);
      var red :- RedPart(xy);
      var redInverse :- Inverse(xy.whitey, denominator, red);
      var green :- GreenPart(xy);
      var greenInverse :- Inverse(xy.whitey, denominator, green);
      var blueScale :- Subtract3(Reciprocal(xy.whitey), Reciprocal(redInverse), Reciprocal(greenInverse));
      if blueScale <= 0 then Rejected else Good(Scales(redInverse, greenInverse, blueScale))
  }

  function Subtract3(a: int, b: int, c: int): Outcome<int> {
    if Int32(a - b) && Int32(a - b - c) then Good(a - b - c) else SignedOverflow
  }

  function Add3(a: int, b: int, c: int): Outcome<int> {
    if Int32(a + b) && Int32(a + b + c) then Good(a + b + c) else SignedOverflow
  }

  datatype Point = Point(X: int, Y: int, Z: int)

  /** The coordinates of one end point scaled by times / divisor. */
  function Scale(x: int, y: int, times: int, divisor: int): Outcome<Point> {
    match (MulDiv(x, times, divisor), MulDiv(y, times, divisor), MulDiv(FP_1 - x - y, times, divisor))
    case (Some(X), Some(Y), Some(Z)) => Good(Point(X, Y, Z))
    case _ => Rejected
  }

  datatype Xyz = Xyz(red: Point, green: Point, blue: Point)

  predicate NonNegative(p: Point) {
    p.X >= 0 && p.Y >= 0 && p.Z >= 0
  }

  predicate NonNegativeXyz(v: Xyz) {
    NonNegative(v.red) && NonNegative(v.green) && NonNegative(v.blue)
  }

  function RowSum(p: Point): int {
    p.X + p.Y + p.Z
  }

  /** png_XYZ_from_xy. */
  function XyzFromXy(xy: Xy): Outcome<Xyz> {
    var s :- FindScales(xy);
    var red :- Scale(xy.redx, xy.redy, FP_1, s.redInverse);
    var green :- Scale(xy.greenx, xy.greeny, FP_1, s.greenInverse);
    var blue :- Scale(xy.bluex, xy.bluey, s.blueScale, FP_1);
    Good(Xyz(red, green, blue))
  }

  datatype Chroma = Chroma(x: int, y: int, d: int)

  /** x = X / d and y = Y / d. */
  function Normalized(X: int, Y: int, d: int): Outcome<Chroma> {
    match (MulDiv(X, FP_1, d), MulDiv(Y, FP_1, d))
    case (Some(x), Some(y)) => Good(Chroma(x, y, d))
    case _ => Rejected
  }

  function PointChroma(p: Point): Outcome<Chroma> {
    var d :- Add3(p.X, p.Y, p.Z);
    Normalized(p.X, p.Y, d)
  }

  /** The running sums for the reference white. */
  datatype White = White(d: int, X: int, Y: int)

  function AddWhite(w: White, d: int, p: Point): Outcome<White> {
    if Int32(w.d + d) && Int32(w.X + p.X) && Int32(w.Y + p.Y) then Good(White(w.d + d, w.X + p.X, w.Y + p.Y))
    else SignedOverflow
  }

  /** png_xy_from_XYZ. */
  function XyFromXyz(v: Xyz): Outcome<Xy> {
    var red :- PointChroma(v.red);
    var green :- PointChroma(v.green);
    var two :- AddWhite(White(red.d, v.red.X, v.red.Y), green.d, v.green);
    var blue :- PointChroma(v.blue);
    var sum :- AddWhite(two, blue.d, v.blue);
    var white :- Normalized(sum.X, sum.Y, sum.d);
    Good(Xy(red.x, red.y, green.x, green.y, blue.x, blue.y, white.x, white.y))
  }

  predicate Near(a: int, b: int, delta: nat) {
    !(a < b - delta || a > b + delta)
  }

  /** png_colorspace_endpoints_match. */
  predicate EndpointsMatch(p: Xy, q: Xy, delta: nat) {
    && Near(p.whitex, q.whitex, delta) && Near(p.whitey, q.whitey, delta)
    && Near(p.redx, q.redx, delta) && Near(p.redy, q.redy, delta)
    && Near(p.greenx, q.greenx, delta) && Near(p.greeny, q.greeny, delta)
    && Near(p.bluex, q.bluex, delta) && Near(p.bluey, q.bluey, delta)
  }

  /** png_colorspace_check_xy: invert, convert back and compare. */
  function CheckXy(xy: Xy): Outcome<Xyz> {
    var v :- XyzFromXy(xy);
    var back :- XyFromXyz(v);
    if EndpointsMatch(xy, back, 5) then Good(v) else Rejected
  }

  // ----- the determinant bound -----

  /** Twice the signed area of the triangle (p, q, b). */
  function Cross(px: int, py: int, qx: int, qy: int, ox: int, oy: int): int {
    (px - ox) * (qy - oy) - (py - oy) * (qx - ox)
  }

  const AREA: int := FP_1 * FP_1

  predicate Within(x: int, bound: int) {
    -bound <= x <= bound
  }

  /** An affine function on the simplex is bounded by its values at the corners. */
  lemma Affine(k: int, u: int, v: int, x: int, y: int, bound: int)
    requires InSimplex(x, y)
    requires Within(k, bound) && Within(k + FP_1 * u, bound) && Within(k + FP_1 * v, bound)
    ensures Within(k + x * u + y * v, bound)
  {
    var c := FP_1 - x - y;
    MulWithin(c, k, bound);
    MulWithin(x, k + FP_1 * u, bound);
    MulWithin(y, k + FP_1 * v, bound);
    assert c * bound + x * bound + y * bound == FP_1 * bound by {
      MulAdd(c, x, bound);
      MulAdd(c + x, y, bound);
    }
    assert c * k + x * (k + FP_1 * u) + y * (k + FP_1 * v) == FP_1 * (k + x * u + y * v) by {
      MulAdd(c, x, k);
      MulAdd(c + x, y, k);
      assert x * (k + FP_1 * u) == x * k + FP_1 * (x * u);
      assert y * (k + FP_1 * v) == y * k + FP_1 * (y * v);
    }
  }

  lemma MulWithin(c: int, z: int, bound: int)
    requires c >= 0 && Within(z, bound)
    ensures Within(c * z, c * bound)
  {
  }

  predicate Corner(x: int, y: int) {
    (x == 0 && y == 0) || (x == FP_1 && y == 0) || (x == 0 && y == FP_1)
  }

  lemma CrossCorners(px: int, py: int, qx: int, qy: int, ox: int, oy: int)
    requires Corner(px, py) && Corner(qx, qy) && InSimplex(ox, oy)
    ensures Within(Cross(px, py, qx, qy, ox, oy), AREA)
  {
    assert (FP_1 - ox) * (FP_1 - oy) == AREA - FP_1 * ox - FP_1 * oy + ox * oy;
    assert (FP_1 - ox) * (0 - oy) == ox * oy - FP_1 * oy;
    assert (0 - ox) * (FP_1 - oy) == ox * oy - FP_1 * ox;
    assert (0 - ox) * (0 - oy) == ox * oy;
  }

  lemma CrossSplitP(px: int, py: int, qx: int, qy: int, ox: int, oy: int)
    ensures Cross(px, py, qx, qy, ox, oy) == Cross(0, 0, qx, qy, ox, oy) + px * (qy - oy) + py * (ox - qx)
  {
    MulAdd(px, -ox, qy - oy);
    MulAdd(py, -oy, qx - ox);
    MulAdd(qx - ox, ox - qx, py);
  }

  lemma CrossSwap(px: int, py: int, qx: int, qy: int, ox: int, oy: int)
    ensures Cross(px, py, qx, qy, ox, oy) == -Cross(qx, qy, px, py, ox, oy)
  {
  }

  /** No triangle in the chromaticity simplex has more than its area. */
  lemma CrossBound(px: int, py: int, qx: int, qy: int, ox: int, oy: int)
    requires InSimplex(px, py) && InSimplex(qx, qy) && InSimplex(ox, oy)
    ensures Within(Cross(px, py, qx, qy, ox, oy), AREA)
  {
    CrossOneCorner(0, 0, qx, qy, ox, oy);
    CrossOneCorner(FP_1, 0, qx, qy, ox, oy);
    CrossOneCorner(0, FP_1, qx, qy, ox, oy);
    CrossSplitP(FP_1, 0, qx, qy, ox, oy);
    CrossSplitP(0, FP_1, qx, qy, ox, oy);
    CrossSplitP(px, py, qx, qy, ox, oy);
    Affine(Cross(0, 0, qx, qy, ox, oy), qy - oy, ox - qx, px, py, AREA);
  }

  lemma CrossOneCorner(px: int, py: int, qx: int, qy: int, ox: int, oy: int)
    requires Corner(px, py) && InSimplex(qx, qy) && InSimplex(ox, oy)
    ensures Within(Cross(px, py, qx, qy, ox, oy), AREA)
  {
    CrossSwap(px, py, qx, qy, ox, oy);
    CrossCorners(0, 0, px, py, ox, oy);
    CrossCorners(FP_1, 0, px, py, ox, oy);
    CrossCorners(0, FP_1, px, py, ox, oy);
    CrossSplitP(FP_1, 0, px, py, ox, oy);
    CrossSplitP(0, FP_1, px, py, ox, oy);
    CrossSplitP(qx, qy, px, py, ox, oy);
    Affine(Cross(0, 0, px, py, ox, oy), py - oy, ox - px, qx, qy, AREA);
  }

  // ----- no step overflows and the internal error never arises -----

  lemma DifferenceSafe(a: int, b: int, c: int, d: int)
    requires Within(a, FP_1) && Within(b, FP_1) && Within(c, FP_1) && Within(d, FP_1)
    requires Within(a * b - c * d, AREA)
    ensures Difference(a, b, c, d).Good?
  {
    ProductWithin(a, b);
    ProductWithin(c, d);
    Sevenths(a * b, c * d);
  }

  lemma Sevenths(n: int, m: int)
    requires Within(n, AREA) && Within(m, AREA) && Within(n - m, AREA)
    ensures Quotient(n, 7).Some? && Quotient(m, 7).Some? && Int32(Quotient(n, 7).value - Quotient(m, 7).value)
  {
  }

  lemma ProductWithin(a: int, b: int)
    requires Within(a, FP_1) && Within(b, FP_1)
    ensures Within(a * b, AREA)
  {
    MulBound(Abs(a), Abs(b), FP_1, FP_1);
    SignedProduct(a, b);
  }

  /** 1/a for a >= 5, to the nearest unit. */
  lemma ReciprocalBounds(a: int)
    requires a >= 5
    ensures 0 <= Reciprocal(a) <= 2_000_000_000
    ensures 2 * (Reciprocal(a) * a) <= 2 * AREA + a < 2 * (Reciprocal(a) * a) + 2 * a
  {
    var r := RoundDiv(AREA, a);
    assert r >= 2_000_000_001 ==> r * a >= 2_000_000_001 * a;
    assert r <= -1 ==> r * a <= -1 * a;
  }

  /** Larger arguments have smaller reciprocals. */
  lemma ReciprocalDecreases(a: int, b: int)
    requires 5 <= a <= b
    ensures Reciprocal(b) <= Reciprocal(a)
  {
    ReciprocalBounds(a);
    ReciprocalBounds(b);
    Decreasing(Reciprocal(a), a, Reciprocal(b), b);
  }

  lemma Decreasing(p: int, a: int, q: int, b: int)
    requires 5 <= a <= b && p >= 0
    requires 2 * AREA + a < 2 * (p * a) + 2 * a && 2 * (q * b) <= 2 * AREA + b
    ensures q <= p
  {
    MulAdd(p, 1, b);
    MulAdd(q - p - 1, p + 1, b);
    MulAdd(b - a, a, p);
    assert q >= p + 1 ==> (q - p - 1) * b >= 0;
    assert (b - a) * p >= 0;
  }

  lemma DifferencesSafe(xy: Xy)
    requires RangesOk(xy)
    ensures Denominator(xy).Good? && RedPart(xy).Good? && GreenPart(xy).Good?
  {
    CrossBound(xy.greenx, xy.greeny, xy.redx, xy.redy, xy.bluex, xy.bluey);
    CrossBound(xy.greenx, xy.greeny, xy.whitex, xy.whitey, xy.bluex, xy.bluey);
    CrossBound(xy.redx, xy.redy, xy.whitex, xy.whitey, xy.bluex, xy.bluey);
    DifferenceSafe(xy.greenx - xy.bluex, xy.redy - xy.bluey, xy.greeny - xy.bluey, xy.redx - xy.bluex);
    DifferenceSafe(xy.greenx - xy.bluex, xy.whitey - xy.bluey, xy.greeny - xy.bluey, xy.whitex - xy.bluex);
    DifferenceSafe(xy.redy - xy.bluey, xy.whitex - xy.bluex, xy.redx - xy.bluex, xy.whitey - xy.bluey);
  }

  /** What is left of the white scale when two smaller scales are taken off fits. */
  lemma BlueScaleSafe(whitey: int, r: int, g: int)
    requires whitey >= 5 && r > whitey && g > whitey
    ensures Subtract3(Reciprocal(whitey), Reciprocal(r), Reciprocal(g)).Good?
  {
    ReciprocalBounds(whitey);
    ReciprocalBounds(r);
    ReciprocalBounds(g);
    ReciprocalDecreases(whitey, r);
    ReciprocalDecreases(whitey, g);
  }

  /** The scales are found without overflow, or the chromaticities are refused; found
      scales add up to the white scale. */
  lemma ScalesSafe(xy: Xy)
    ensures FindScales(xy).Good? || FindScales(xy).Rejected?
    ensures FindScales(xy).Good? ==>
              var s := FindScales(xy).value;
              && Denominator(xy).Good? && RedPart(xy).Good? && GreenPart(xy).Good?
              && RangesOk(xy) && s.redInverse > xy.whitey && s.greenInverse > xy.whitey && s.blueScale > 0
              && Inverse(xy.whitey, Denominator(xy).value, RedPart(xy).value) == Good(s.redInverse)
              && Inverse(xy.whitey, Denominator(xy).value, GreenPart(xy).value) == Good(s.greenInverse)
              && s.blueScale == Reciprocal(xy.whitey) - Reciprocal(s.redInverse) - Reciprocal(s.greenInverse)
  {
    if RangesOk(xy) {
      DifferencesSafe(xy);
      var D := Denominator(xy).value;
      var r, g := Inverse(xy.whitey, D, RedPart(xy).value), Inverse(xy.whitey, D, GreenPart(xy).value);
      if r.Good? && g.Good? {
        BlueScaleSafe(xy.whitey, r.value, g.value);
      }
    }
  }

  /** An end point scaled by 1 / inverse keeps its sum within one unit of 1 / inverse. */
  lemma InverseScaleSum(x: int, y: int, inverse: int)
    requires InSimplex(x, y) && inverse >= 6
    ensures Scale(x, y, FP_1, inverse).Good?
    ensures var p := Scale(x, y, FP_1, inverse).value;
            p.X >= 0 && p.Y >= 0 && p.Z >= 0 && p.X + p.Y + p.Z <= Reciprocal(inverse) + 1
  {
    var n1, n2, n3 := x * FP_1, y * FP_1, (FP_1 - x - y) * FP_1;
    QuotientSafe(n1, inverse);
    QuotientSafe(n2, inverse);
    QuotientSafe(n3, inverse);
    ReciprocalBounds(inverse);
    SumOfRounds(RoundDiv(n1, inverse), RoundDiv(n2, inverse), RoundDiv(n3, inverse),
                n1, n2, n3, Reciprocal(inverse), inverse);
  }

  lemma SumOfRounds(X: int, Y: int, Z: int, n1: int, n2: int, n3: int, r: int, d: int)
    requires d >= 6 && n1 + n2 + n3 == AREA
    requires 2 * (X * d) <= 2 * n1 + d && 2 * (Y * d) <= 2 * n2 + d && 2 * (Z * d) <= 2 * n3 + d
    requires 2 * AREA + d < 2 * (r * d) + 2 * d
    ensures X + Y + Z <= r + 1
  {
    MulAdd(X, Y, d);
    MulAdd(X + Y, Z, d);
    MulAdd(r, 2, d);
    MulAdd(X + Y + Z - r - 2, r + 2, d);
    assert X + Y + Z >= r + 2 ==> (X + Y + Z - r - 2) * d >= 0;
  }

  lemma QuotientSafe(n: int, d: int)
    requires 0 <= n <= AREA && d >= 6
    ensures 0 <= RoundDiv(n, d) && Int32(RoundDiv(n, d))
  {
    var q := RoundDiv(n, d);
    assert q <= -1 ==> q * d <= -1 * d;
    assert q >= 0x8000_0000 ==> q * d >= 0x8000_0000 * 6;
  }

  /** An end point scaled by the blue scale keeps its sum within one unit of it. */
  lemma DirectScaleSum(x: int, y: int, scale: int)
    requires InSimplex(x, y) && 0 < scale <= 2_000_000_000
    ensures Scale(x, y, scale, FP_1).Good?
    ensures var p := Scale(x, y, scale, FP_1).value;
            p.X >= 0 && p.Y >= 0 && p.Z >= 0 && p.X + p.Y + p.Z <= scale + 1
  {
    var n1, n2, n3 := x * scale, y * scale, (FP_1 - x - y) * scale;
    MulAdd(x, y, scale);
    MulAdd(x + y, FP_1 - x - y, scale);
    assert n1 >= 0 && n2 >= 0 && n3 >= 0;
    UnitRounds(n1, n2, n3, scale);
  }

  lemma UnitRounds(n1: int, n2: int, n3: int, scale: int)
    requires n1 >= 0 && n2 >= 0 && n3 >= 0 && n1 + n2 + n3 == FP_1 * scale && 0 < scale <= 2_000_000_000
    ensures Quotient(n1, FP_1).Some? && Quotient(n2, FP_1).Some? && Quotient(n3, FP_1).Some?
    ensures var X, Y, Z := Quotient(n1, FP_1).value, Quotient(n2, FP_1).value, Quotient(n3, FP_1).value;
            X >= 0 && Y >= 0 && Z >= 0 && X + Y + Z <= scale + 1
  {
  }

  /** png_XYZ_from_xy never returns 2 and never overflows; its end points are
      non-negative and their coordinates sum to the white scale, up to rounding. */
  lemma XyzSafe(xy: Xy)
    ensures XyzFromXy(xy).Good? || XyzFromXy(xy).Rejected?
    ensures XyzFromXy(xy).Good? ==>
              var v := XyzFromXy(xy).value;
              && NonNegativeXyz(v)
              && RowSum(v.red) + RowSum(v.green) + RowSum(v.blue) <= Reciprocal(xy.whitey) + 3 <= 2_000_000_003
  {
    ScalesSafe(xy);
    if FindScales(xy).Good? {
      var s := FindScales(xy).value;
      ReciprocalBounds(xy.whitey);
      ReciprocalBounds(s.redInverse);
      ReciprocalBounds(s.greenInverse);
      InverseScaleSum(xy.redx, xy.redy, s.redInverse);
      InverseScaleSum(xy.greenx, xy.greeny, s.greenInverse);
      DirectScaleSum(xy.bluex, xy.bluey, s.blueScale);
    }
  }

  // ----- the end points found are those of the chromaticities -----

  /** A rounded quotient, times its divisor, is within half a divisor of the numerator. */
  lemma RoundError(n: int, d: int)
    requires d > 0
    ensures Within(2 * (RoundDiv(n, d) * d) - 2 * n, d)
  {
  }

  /** The part of x in the whole FP_1 is the part of X in the sum, up to the roundings. */
  lemma PartKept(x: int, X: int, S: int, times: int, d: int)
    requires 0 <= x <= FP_1 && d > 0
    requires Within(2 * (X * d) - 2 * (x * times), d) && Within(2 * (S * d) - 2 * (FP_1 * times), 3 * d)
    ensures Within(X * FP_1 - x * S, 2 * FP_1)
  {
    var f, F := 2 * (X * d) - 2 * (x * times), 2 * (S * d) - 2 * (FP_1 * times);
    var e := X * FP_1 - x * S;
    MulWithin(x, F, 3 * d);
    MulBound(x, 3 * d, FP_1, 3 * d);
    assert 2 * (e * d) == FP_1 * f - x * F by {
      PartTerms(x, X, S, times, d);
    }
    Bracket(e, d, 2 * FP_1 + 1);
    Bracket(e, d, -2 * FP_1);
  }

  lemma PartTerms(x: int, X: int, S: int, times: int, d: int)
    ensures 2 * ((X * FP_1 - x * S) * d)
         == FP_1 * (2 * (X * d) - 2 * (x * times)) - x * (2 * (S * d) - 2 * (FP_1 * times))
  {
    assert (X * FP_1 - x * S) * d == FP_1 * (X * d) - x * (S * d) by {
      MulAdd(X * FP_1, -(x * S), d);
      MulAssoc(x, d, S);
      assert x * (S * d) == x * S * d;
    }
    assert x * (2 * (S * d) - 2 * (FP_1 * times)) == 2 * (x * (S * d)) - 2 * (x * (FP_1 * times));
    assert x * (FP_1 * times) == FP_1 * (x * times);
  }

  /** A colorant of chromaticity (x, y) has coordinates in the ratio of x, y and z, each to
      within two units. */
  ghost predicate HasChromaticity(p: Point, x: int, y: int) {
    && Within(p.X * FP_1 - x * RowSum(p), 2 * FP_1)
    && Within(p.Y * FP_1 - y * RowSum(p), 2 * FP_1)
    && Within(p.Z * FP_1 - (FP_1 - x - y) * RowSum(p), 2 * FP_1)
  }

  lemma ScaleKeeps(x: int, y: int, times: int, d: int)
    requires InSimplex(x, y) && d > 0 && Scale(x, y, times, d).Good?
    ensures HasChromaticity(Scale(x, y, times, d).value, x, y)
  {
    var p, z := Scale(x, y, times, d).value, FP_1 - x - y;
    RoundError(x * times, d);
    RoundError(y * times, d);
    RoundError(z * times, d);
    MulAdd(x, y, times);
    MulAdd(x + y, z, times);
    MulAdd(p.X, p.Y, d);
    MulAdd(p.X + p.Y, p.Z, d);
    PartKept(x, p.X, RowSum(p), times, d);
    PartKept(y, p.Y, RowSum(p), times, d);
    PartKept(z, p.Z, RowSum(p), times, d);
  }

  /** Every end point that png_XYZ_from_xy finds has the chromaticity it was given for its own
      colour. */
  lemma ColorantsKeepChromaticity(xy: Xy)
    requires XyzFromXy(xy).Good?
    ensures var v := XyzFromXy(xy).value;
            && HasChromaticity(v.red, xy.redx, xy.redy) && HasChromaticity(v.green, xy.greenx, xy.greeny)
            && HasChromaticity(v.blue, xy.bluex, xy.bluey)
  {
    ScalesSafe(xy);
    var s := FindScales(xy).value;
    ScaleKeeps(xy.redx, xy.redy, FP_1, s.redInverse);
    ScaleKeeps(xy.greenx, xy.greeny, FP_1, s.greenInverse);
    ScaleKeeps(xy.bluex, xy.bluey, s.blueScale, FP_1);
  }

  /** The chromaticities of ITU-R BT.709, which sRGB uses. */
  const BT709 := Xy(64000, 33000, 30000, 60000, 15000, 6000, 31270, 32900)
  const BT709_XYZ := Xyz(Point(41239, 21264, 1933), Point(35759, 71517, 11920), Point(18048, 7219, 95053))

  lemma QuotientIs(a: int, times: int, d: int, q: int)
    requires d != 0 && Int32(q)
    requires var n, e := (if d > 0 then a * times else -(a * times)), (if d > 0 then d else -d);
             2 * (q * e) <= 2 * n + e < 2 * (q * e) + 2 * e
    ensures MulDiv(a, times, d) == Some(q)
  {
    var n, e := (if d > 0 then a * times else -(a * times)), (if d > 0 then d else -d);
    RoundDivIs(n, e, q);
  }

  lemma Bt709Parts()
    ensures Denominator(BT709) == Good(-320142857) && RedPart(BT709) == Good(-67868572)
    ensures GreenPart(BT709) == Good(-125544286)
  {
    QuotientIs(15000, 27000, 7, 57857143);
    QuotientIs(54000, 49000, 7, 378000000);
    QuotientIs(15000, 26900, 7, 57642857);
    QuotientIs(54000, 16270, 7, 125511429);
    QuotientIs(27000, 16270, 7, 62755714);
    QuotientIs(49000, 26900, 7, 188300000);
  }

  lemma ScalesFrom(xy: Xy, D: int, R: int, G: int, a: int, b: int, s: int)
    requires RangesOk(xy) && Denominator(xy) == Good(D) && RedPart(xy) == Good(R) && GreenPart(xy) == Good(G)
    requires Inverse(xy.whitey, D, R) == Good(a) && Inverse(xy.whitey, D, G) == Good(b)
    requires Subtract3(Reciprocal(xy.whitey), Reciprocal(a), Reciprocal(b)) == Good(s) && s > 0
    ensures FindScales(xy) == Good(Scales(a, b, s))
  {
  }

  lemma Bt709Scales()
    ensures FindScales(BT709) == Good(Scales(155193, 83896, 120320))
  {
    Bt709Parts();
    QuotientIs(32900, -320142857, -67868572, 155193);
    QuotientIs(32900, -320142857, -125544286, 83896);
    QuotientIs(FP_1, FP_1, 32900, 303951);
    QuotientIs(FP_1, FP_1, 155193, 64436);
    QuotientIs(FP_1, FP_1, 83896, 119195);
    ScalesFrom(BT709, -320142857, -67868572, -125544286, 155193, 83896, 120320);
  }

  lemma FromScales(xy: Xy, s: Scales, v: Xyz)
    requires FindScales(xy) == Good(s) && Scale(xy.redx, xy.redy, FP_1, s.redInverse) == Good(v.red)
    requires Scale(xy.greenx, xy.greeny, FP_1, s.greenInverse) == Good(v.green)
    requires Scale(xy.bluex, xy.bluey, s.blueScale, FP_1) == Good(v.blue)
    ensures XyzFromXy(xy) == Good(v)
  {
  }

  lemma Bt709Points()
    ensures Scale(64000, 33000, FP_1, 155193) == Good(BT709_XYZ.red)
    ensures Scale(30000, 60000, FP_1, 83896) == Good(BT709_XYZ.green)
    ensures Scale(15000, 6000, 120320, FP_1) == Good(BT709_XYZ.blue)
  {
    QuotientIs(64000, FP_1, 155193, 41239);
    QuotientIs(33000, FP_1, 155193, 21264);
    QuotientIs(3000, FP_1, 155193, 1933);
    QuotientIs(30000, FP_1, 83896, 35759);
    QuotientIs(60000, FP_1, 83896, 71517);
    QuotientIs(10000, FP_1, 83896, 11920);
    QuotientIs(15000, 120320, FP_1, 18048);
    QuotientIs(6000, 120320, FP_1, 7219);
    QuotientIs(79000, 120320, FP_1, 95053);
  }

  lemma Bt709Xyz()
    ensures XyzFromXy(BT709) == Good(BT709_XYZ)
  {
    Bt709Scales();
    Bt709Points();
    FromScales(BT709, Scales(155193, 83896, 120320), BT709_XYZ);
  }

  lemma Bt709Back()
    ensures XyFromXyz(BT709_XYZ) == Good(Xy(64000, 33000, 30000, 59999, 15000, 6000, 31270, 32900))
  {
    QuotientIs(41239, FP_1, 64436, 64000);
    QuotientIs(21264, FP_1, 64436, 33000);
    QuotientIs(35759, FP_1, 119196, 30000);
    QuotientIs(71517, FP_1, 119196, 59999);
    QuotientIs(18048, FP_1, 120320, 15000);
    QuotientIs(7219, FP_1, 120320, 6000);
    QuotientIs(95046, FP_1, 303952, 31270);
    QuotientIs(100000, FP_1, 303952, 32900);
  }

  /** The chromaticities of sRGB are accepted, with these end points. */
  lemma Bt709Accepted()
    ensures CheckXy(BT709) == Good(BT709_XYZ)
  {
    Bt709Xyz();
    Bt709Back();
    Accepted(BT709, BT709_XYZ, Xy(64000, 33000, 30000, 59999, 15000, 6000, 31270, 32900));
  }

  /** The three corners of the range, with the white in their middle. */
  const CORNERS := Xy(FP_1, 0, 0, FP_1, 0, 0, 33333, 33333)
  const CORNERS_XYZ := Xyz(Point(FP_1, 0, 0), Point(0, FP_1, 0), Point(0, 0, 100003))

  lemma CornersParts()
    ensures Denominator(CORNERS) == Good(-1428571429)
    ensures RedPart(CORNERS) == GreenPart(CORNERS) == Good(-476185714)
  {
    QuotientIs(FP_1, FP_1, 7, 1428571429);
    QuotientIs(FP_1, 33333, 7, 476185714);
  }

  lemma CornersInverse()
    ensures Inverse(33333, -1428571429, -476185714) == Good(FP_1)
  {
    QuotientIs(33333, -1428571429, -476185714, FP_1);
  }

  lemma CornersBlue()
    ensures Reciprocal(33333) == 300003 && Reciprocal(FP_1) == FP_1
  {
    QuotientIs(FP_1, FP_1, 33333, 300003);
    QuotientIs(FP_1, FP_1, FP_1, FP_1);
  }

  lemma CornersScales()
    ensures FindScales(CORNERS) == Good(Scales(FP_1, FP_1, 100003))
  {
    CornersParts();
    CornersInverse();
    CornersBlue();
    ScalesFrom(CORNERS, -1428571429, -476185714, -476185714, FP_1, FP_1, 100003);
  }

  lemma ZeroTimes(times: int, d: int)
    requires d != 0
    ensures MulDiv(0, times, d) == Some(0)
  {
    QuotientIs(0, times, d, 0);
  }

  lemma CornerScaled(times: int, d: int, q: int)
    requires d != 0 && MulDiv(FP_1, times, d) == Some(q)
    ensures Scale(FP_1, 0, times, d) == Good(Point(q, 0, 0))
    ensures Scale(0, FP_1, times, d) == Good(Point(0, q, 0))
    ensures Scale(0, 0, times, d) == Good(Point(0, 0, q))
  {
    ZeroTimes(times, d);
  }

  lemma CornersXyz()
    ensures XyzFromXy(CORNERS) == Good(CORNERS_XYZ)
  {
    CornersScales();
    assert MulDiv(FP_1, FP_1, FP_1) == Some(FP_1) by { QuotientIs(FP_1, FP_1, FP_1, FP_1); }
    assert MulDiv(FP_1, 100003, FP_1) == Some(100003) by { QuotientIs(FP_1, 100003, FP_1, 100003); }
    CornerScaled(FP_1, FP_1, FP_1);
    CornerScaled(100003, FP_1, 100003);
    FromScales(CORNERS, Scales(FP_1, FP_1, 100003), CORNERS_XYZ);
  }

  lemma CornerChroma(q: int)
    requires q > 0 && Int32(q)
    ensures PointChroma(Point(q, 0, 0)) == Good(Chroma(FP_1, 0, q))
    ensures PointChroma(Point(0, q, 0)) == Good(Chroma(0, FP_1, q))
    ensures PointChroma(Point(0, 0, q)) == Good(Chroma(0, 0, q))
  {
    QuotientIs(q, FP_1, q, FP_1);
    ZeroTimes(FP_1, q);
  }

  lemma CornersBack()
    ensures XyFromXyz(CORNERS_XYZ) == Good(CORNERS)
  {
    CornerChroma(FP_1);
    CornerChroma(100003);
    assert MulDiv(FP_1, FP_1, 300003) == Some(33333) by { QuotientIs(FP_1, FP_1, 300003, 33333); }
  }

  /** The range is closed: chromaticities on its very corners are accepted. */
  lemma CornersAccepted()
    ensures CheckXy(CORNERS) == Good(CORNERS_XYZ)
  {
    CornersXyz();
    CornersBack();
    Accepted(CORNERS, CORNERS_XYZ, CORNERS);
  }

  lemma Accepted(xy: Xy, v: Xyz, back: Xy)
    requires XyzFromXy(xy) == Good(v) && XyFromXyz(v) == Good(back) && EndpointsMatch(xy, back, 5)
    ensures CheckXy(xy) == Good(v)
  {
  }

  // ----- the way back -----

  /** The way back does not overflow on non-negative values of bounded sum. */
  lemma BackSafe(v: Xyz)
    requires NonNegativeXyz(v) && RowSum(v.red) + RowSum(v.green) + RowSum(v.blue) <= 2_000_000_003
    ensures XyFromXyz(v).Good? || XyFromXyz(v).Rejected?
  {
  }

  /** (x, y) is the chromaticity of p, to the nearest unit. */
  ghost predicate IsChromaticityOf(x: int, y: int, p: Point) {
    && Within(2 * (x * RowSum(p)) - 2 * (p.X * FP_1), RowSum(p))
    && Within(2 * (y * RowSum(p)) - 2 * (p.Y * FP_1), RowSum(p))
  }

  /** The colour of all three colorants together. */
  function WhiteOf(v: Xyz): Point {
    Point(v.red.X + v.green.X + v.blue.X, v.red.Y + v.green.Y + v.blue.Y, v.red.Z + v.green.Z + v.blue.Z)
  }

  lemma NormalizedIs(p: Point, x: int, y: int)
    requires NonNegative(p) && Normalizes(p, x, y)
    ensures IsChromaticityOf(x, y, p) && RowSum(p) > 0
  {
    RoundError(p.X * FP_1, RowSum(p));
    RoundError(p.Y * FP_1, RowSum(p));
  }

  predicate Normalizes(p: Point, x: int, y: int) {
    Normalized(p.X, p.Y, RowSum(p)) == Good(Chroma(x, y, RowSum(p)))
  }

  lemma BackParts(v: Xyz, xy: Xy)
    requires XyFromXyz(v) == Good(xy)
    ensures Normalizes(v.red, xy.redx, xy.redy) && Normalizes(v.green, xy.greenx, xy.greeny)
    ensures Normalizes(v.blue, xy.bluex, xy.bluey) && Normalizes(WhiteOf(v), xy.whitex, xy.whitey)
  {
    assert RowSum(WhiteOf(v)) == RowSum(v.red) + RowSum(v.green) + RowSum(v.blue);
  }

  /** png_xy_from_XYZ gives the chromaticity of each colorant, and of the white they add up to. */
  lemma BackIs(v: Xyz, xy: Xy)
    requires NonNegativeXyz(v) && XyFromXyz(v) == Good(xy)
    ensures IsChromaticityOf(xy.redx, xy.redy, v.red) && IsChromaticityOf(xy.greenx, xy.greeny, v.green)
    ensures IsChromaticityOf(xy.bluex, xy.bluey, v.blue) && IsChromaticityOf(xy.whitex, xy.whitey, WhiteOf(v))
    ensures RowSum(WhiteOf(v)) > 0
  {
    BackParts(v, xy);
    NormalizedIs(v.red, xy.redx, xy.redy);
    NormalizedIs(v.green, xy.greenx, xy.greeny);
    NormalizedIs(v.blue, xy.bluex, xy.bluey);
    NormalizedIs(WhiteOf(v), xy.whitex, xy.whitey);
  }

  lemma NearPart(x: int, b: int, S: int, X: int)
    requires S > 0 && Within(x - b, 5) && Within(2 * (b * S) - 2 * (X * FP_1), S)
    ensures Within(2 * (x * S) - 2 * (X * FP_1), 11 * S)
  {
    MulWithin(S, x - b, 5);
    assert x * S == b * S + S * (x - b) by {
      MulAdd(b, x - b, S);
    }
  }

  /** Accepted chromaticities: the colorants found add up to the white that was asked for, to
      within five units and a rounding. */
  lemma AcceptedWhite(xy: Xy)
    requires CheckXy(xy).Good?
    ensures var w := WhiteOf(CheckXy(xy).value);
            && Within(2 * (xy.whitex * RowSum(w)) - 2 * (w.X * FP_1), 11 * RowSum(w))
            && Within(2 * (xy.whitey * RowSum(w)) - 2 * (w.Y * FP_1), 11 * RowSum(w))
  {
    XyzSafe(xy);
    var v := XyzFromXy(xy).value;
    var back := XyFromXyz(v).value;
    BackIs(v, back);
    EndpointsMatchIff(xy, back, 5);
    NearPart(xy.whitex, back.whitex, RowSum(WhiteOf(v)), WhiteOf(v).X);
    NearPart(xy.whitey, back.whitey, RowSum(WhiteOf(v)), WhiteOf(v).Y);
  }

  /** Matching end points: all eight coordinates differ by at most delta. */
  lemma EndpointsMatchIff(p: Xy, q: Xy, delta: nat)
    ensures EndpointsMatch(p, q, delta)
       <==> && Within(p.redx - q.redx, delta) && Within(p.redy - q.redy, delta)
            && Within(p.greenx - q.greenx, delta) && Within(p.greeny - q.greeny, delta)
            && Within(p.bluex - q.bluex, delta) && Within(p.bluey - q.bluey, delta)
            && Within(p.whitex - q.whitex, delta) && Within(p.whitey - q.whitey, delta)
  {
  }

  /** For every cHRM chunk the check accepts or refuses: the "internal error checking
      chromaticities" arm is unreachable and no signed operation overflows. */
  lemma CheckXySafe(xy: Xy)
    ensures CheckXy(xy).Good? || CheckXy(xy).Rejected?
  {
    XyzSafe(xy);
    if XyzFromXy(xy).Good? {
      BackSafe(XyzFromXy(xy).value);
    }
  }

  // ----- the same check from end points -----

  function Rescale(p: Point, Y: int): Outcome<Point> {
    match (MulDiv(p.X, FP_1, Y), MulDiv(p.Y, FP_1, Y), MulDiv(p.Z, FP_1, Y))
    case (Some(X), Some(Y'), Some(Z)) => Good(Point(X, Y', Z))
    case _ => Rejected
  }

  /** The sum of the three Y values; the guards before the additions look at X values. */
  function SumY(v: Xyz): Outcome<int> {
    if 0x7FFF_FFFF - v.red.Y < v.green.X then Rejected
    else if !Int32(v.red.Y + v.green.Y) then SignedOverflow
    else if 0x7FFF_FFFF - (v.red.Y + v.green.Y) < v.blue.X then Rejected
    else if !Int32(v.red.Y + v.green.Y + v.blue.Y) then SignedOverflow
    else Good(v.red.Y + v.green.Y + v.blue.Y)
  }

  /** png_XYZ_normalize. */
  function Normalize(v: Xyz): Outcome<Xyz> {
    if !NonNegativeXyz(v) then Rejected
    else
      var Y :- SumY(v);
      if Y == FP_1 then Good(v)
      else
        var red :- Rescale(v.red, Y);
        var green :- Rescale(v.green, Y);
        var blue :- Rescale(v.blue, Y);
        Good(Xyz(red, green, blue))
  }

  /** png_colorspace_check_XYZ. */
  function CheckXyz(v: Xyz): Outcome<(Xy, Xyz)> {
    var n :- Normalize(v);
    var xy :- XyFromXyz(n);
    var _ :- CheckXy(xy);
    Good((xy, n))
  }

  /** This check never returns 2 either. */
  lemma CheckXyzNeverInternal(v: Xyz)
    ensures !CheckXyz(v).InternalError?
  {
    if Normalize(v).Good? && XyFromXyz(Normalize(v).value).Good? {
      CheckXySafe(XyFromXyz(Normalize(v).value).value);
    }
  }

  // ----- the colorants add up to a white that is not black -----

  predicate Black(v: Xyz) {
    v.red.Y == 0 && v.green.Y == 0 && v.blue.Y == 0
  }

  lemma ZeroChroma(p: Point, x: int, y: int)
    requires NonNegative(p) && p.Y == 0 && Normalizes(p, x, y)
    ensures y == 0
  {
    RoundDivIs(0, RowSum(p), 0);
  }

  lemma BlackBack(v: Xyz, xy: Xy)
    requires NonNegativeXyz(v) && Black(v) && XyFromXyz(v) == Good(xy)
    ensures xy.redy == xy.greeny == xy.bluey == xy.whitey == 0
  {
    BackParts(v, xy);
    ZeroChroma(v.red, xy.redx, xy.redy);
    ZeroChroma(v.green, xy.greenx, xy.greeny);
    ZeroChroma(v.blue, xy.bluex, xy.bluey);
    ZeroChroma(WhiteOf(v), xy.whitex, xy.whitey);
  }

  lemma DarkEndpoints(xy: Xy, back: Xy)
    requires RangesOk(xy) && EndpointsMatch(xy, back, 5)
    requires back.redy == back.greeny == back.bluey == back.whitey == 0
    ensures xy.whitey == 5 && xy.redy <= 5 && xy.greeny <= 5 && xy.bluey <= 5
  {
  }

  /** Black colorants come back with all y coordinates 0, so they must have been near 0. */
  lemma BlackIsDark(xy: Xy)
    requires CheckXy(xy).Good? && Black(CheckXy(xy).value)
    ensures RangesOk(xy) && xy.whitey == 5 && xy.redy <= 5 && xy.greeny <= 5 && xy.bluey <= 5
  {
    XyzSafe(xy);
    var v := CheckXy(xy).value;
    BlackBack(v, XyFromXyz(v).value);
    DarkEndpoints(xy, XyFromXyz(v).value);
  }

  /** What it means for the scales that the Y values come out as 0. */
  lemma BlackScales(xy: Xy)
    requires XyzFromXy(xy).Good? && Black(XyzFromXy(xy).value)
    ensures FindScales(xy).Good?
    ensures var s := FindScales(xy).value;
            2 * (xy.redy * FP_1) < s.redInverse && 2 * (xy.greeny * FP_1) < s.greenInverse
            && 2 * (xy.bluey * s.blueScale) < FP_1
  {
    ScalesSafe(xy);
    var s := FindScales(xy).value;
    ZeroRound(xy.redy * FP_1, s.redInverse);
    ZeroRound(xy.greeny * FP_1, s.greenInverse);
    ZeroRound(xy.bluey * s.blueScale, FP_1);
  }

  lemma ReciprocalIs(a: int, r: int)
    requires a >= 5 && 2 * (r * a) <= 2 * AREA + a < 2 * (r * a) + 2 * a && Int32(r)
    ensures Reciprocal(a) == r
  {
    RoundDivIs(AREA, a, r);
  }

  /** Two reciprocals, the first with a known value, and the second on either side of the
      place where the sum passes 2 * 10^9: it never falls just short of it. */
  lemma NoNearSum(a: int, b: int, t: int, ra: int, rt: int, ru: int)
    requires a >= 6 && b >= 6 && t >= 6 && Reciprocal(a) == ra && Reciprocal(t) == rt && Reciprocal(t + 1) == ru
    requires ra + rt >= 2_000_000_000 && ra + ru <= 1_999_950_000
    ensures !(1_999_950_000 < Reciprocal(a) + Reciprocal(b) < 2_000_000_000)
  {
    if b <= t {
      ReciprocalDecreases(b, t);
    } else {
      ReciprocalDecreases(t + 1, b);
    }
  }

  lemma NeverJustShort(a: int, b: int)
    requires 6 <= a <= b
    ensures !(1_999_950_000 < Reciprocal(a) + Reciprocal(b) < 2_000_000_000)
  {
    ReciprocalIs(10, 1_000_000_000);
    ReciprocalIs(11, 909_090_909);
    if a == 6 {
      ReciprocalIs(6, 1_666_666_667);
      ReciprocalIs(30, 333_333_333);
      ReciprocalIs(31, 322_580_645);
      NoNearSum(a, b, 30, 1_666_666_667, 333_333_333, 322_580_645);
    } else if a == 7 {
      ReciprocalIs(7, 1_428_571_429);
      ReciprocalIs(17, 588_235_294);
      ReciprocalIs(18, 555_555_556);
      NoNearSum(a, b, 17, 1_428_571_429, 588_235_294, 555_555_556);
    } else if a == 8 {
      ReciprocalIs(8, 1_250_000_000);
      ReciprocalIs(13, 769_230_769);
      ReciprocalIs(14, 714_285_714);
      NoNearSum(a, b, 13, 1_250_000_000, 769_230_769, 714_285_714);
    } else if a == 9 {
      ReciprocalIs(9, 1_111_111_111);
      ReciprocalIs(12, 833_333_333);
      NoNearSum(a, b, 11, 1_111_111_111, 909_090_909, 833_333_333);
    } else if a == 10 {
      NoNearSum(a, b, 10, 1_000_000_000, 1_000_000_000, 909_090_909);
    } else {
      ReciprocalDecreases(11, a);
      ReciprocalDecreases(11, b);
    }
  }

  /** A quotient with a rounded value of 0 has a large divisor. */
  lemma ZeroRound(n: int, d: int)
    requires d > 0 && RoundDiv(n, d) == 0
    ensures 2 * n < d
  {
  }

  /** With a blue that is not on the axis the other two would have to fill the white scale
      almost exactly, which no two reciprocals do. */
  lemma BlueOffAxis(redy: int, greeny: int, bluey: int, a: int, b: int, s: int)
    requires 0 <= redy && 0 <= greeny && 1 <= bluey && a >= 6 && b >= 6 && s > 0
    requires s == Reciprocal(5) - Reciprocal(a) - Reciprocal(b)
    requires 2 * (redy * FP_1) < a && 2 * (greeny * FP_1) < b
    ensures 2 * (bluey * s) >= FP_1
  {
    ReciprocalIs(5, 2_000_000_000);
    assert s >= 50_000 by {
      if a <= b {
        NeverJustShort(a, b);
      } else {
        NeverJustShort(b, a);
      }
    }
    MulAdd(bluey - 1, 1, s);
    assert (bluey - 1) * s >= 0;
  }

  lemma Seventh(n: int)
    ensures Within(7 * RoundDiv(n, 7) - n, 3)
  {
  }

  /** Cramer's rule with its terms divided by 7: exact up to the roundings. */
  lemma Cramer(p: int, q: int, w: int, redy: int, greeny: int, D: int, R: int, G: int)
    requires 0 <= redy <= 5 && 0 <= greeny <= 5
    requires Within(7 * D - (p * redy - greeny * q), 6) && Within(7 * R - (p * 5 - greeny * w), 6)
    requires Within(7 * G - (redy * w - q * 5), 6)
    ensures Within(5 * D - redy * R - greeny * G, 12)
  {
    var eD, eR, eG := 7 * D - (p * redy - greeny * q), 7 * R - (p * 5 - greeny * w), 7 * G - (redy * w - q * 5);
    MulWithin(redy, eR, 6);
    MulWithin(greeny, eG, 6);
    Spread(redy, 7 * R, 5 * p, greeny * w);
    Spread(greeny, 7 * G, redy * w, 5 * q);
    CramerTerms(redy, p, greeny, q, w, D, R, G, redy * eR, greeny * eG);
  }

  lemma Spread(k: int, x: int, y: int, z: int)
    ensures k * (x - (y - z)) == k * x - k * y + k * z
  {
    MulAdd(x, z - y, k);
    MulAdd(z, -y, k);
  }

  lemma CramerTerms(r: int, p: int, g: int, q: int, w: int, D: int, R: int, G: int, rR: int, gG: int)
    requires rR == r * (7 * R) - r * (5 * p) + r * (g * w) && gG == g * (7 * G) - g * (r * w) + g * (5 * q)
    ensures 7 * (5 * D - r * R - g * G) == 5 * (7 * D - (p * r - g * q)) - rR - gG
  {
    MulAssoc(r, w, g);
    MulAssoc(g, w, r);
    assert r * (7 * R) == 7 * (r * R) && g * (7 * G) == 7 * (g * G);
    assert r * (5 * p) == 5 * (p * r) && g * (5 * q) == 5 * (g * q);
    assert r * (g * w) == g * (r * w);
  }

  /** A colorant off the axis whose Y rounds to 0 has a numerator far below the denominator. */
  lemma SmallShare(y: int, D: int, R: int, a: int)
    requires 0 <= y && R > 0 && a == RoundDiv(5 * D, R) && 2 * (y * FP_1) < a
    ensures 400_000 * (y * R) <= 10 * D && (y >= 1 ==> y * R >= 1)
  {
    MulAdd(a - 200_000 * y - 1, 200_000 * y + 1, R);
    assert (a - 200_000 * y - 1) * R >= 0;
    assert (200_000 * y + 1) * R == 200_000 * (y * R) + R;
    MulAdd(y - 1, 1, R);
    assert y >= 1 ==> (y - 1) * R >= 0;
  }

  /** With blue on the axis the determinant would be too small for its own parts. */
  lemma BlueOnAxis(redy: int, greeny: int, D: int, R: int, G: int, a: int, b: int)
    requires 0 <= redy && 0 <= greeny && redy + greeny >= 1 && R > 0 && G > 0
    requires a == RoundDiv(5 * D, R) && b == RoundDiv(5 * D, G)
    requires 2 * (redy * FP_1) < a && 2 * (greeny * FP_1) < b
    ensures !Within(5 * D - redy * R - greeny * G, 12)
  {
    SmallShare(redy, D, R, a);
    SmallShare(greeny, D, G, b);
  }

  lemma DifferenceIs(a: int, b: int, c: int, d: int)
    requires Difference(a, b, c, d).Good?
    ensures Within(7 * Difference(a, b, c, d).value - (a * b - c * d), 6)
  {
    Seventh(a * b);
    Seventh(c * d);
  }

  /** The inverse of a scale above the white's, with the sign taken out. */
  lemma InverseIs(whitey: int, D: int, R: int)
    requires whitey > 0 && Inverse(whitey, D, R).Good?
    ensures R != 0 && D != 0
    ensures R > 0 ==> D > 0 && Inverse(whitey, D, R).value == RoundDiv(whitey * D, R)
    ensures R < 0 ==> D < 0 && Inverse(whitey, D, R).value == RoundDiv(whitey * -D, -R)
  {
    var r := Inverse(whitey, D, R).value;
    if D == 0 {
      RoundDivIs(0, if R > 0 then R else -R, 0);
    }
    assert whitey * -D == -(whitey * D);
    if R > 0 && D < 0 {
      Bracket(r, R, 1);
    } else if R < 0 && D > 0 {
      Bracket(r, -R, 1);
    }
  }

  /** Blue on the axis: Cramer's rule rules out that red and green are both black. */
  lemma OnAxisNotBlack(p: int, q: int, w: int, redy: int, greeny: int, D: int, R: int, G: int, a: int, b: int)
    requires 0 <= redy <= 5 && 0 <= greeny <= 5 && Difference(p, redy, greeny, q) == Good(D)
    requires Difference(p, 5, greeny, w) == Good(R) && Difference(redy, w, q, 5) == Good(G)
    requires Inverse(5, D, R) == Good(a) && Inverse(5, D, G) == Good(b)
    ensures !(2 * (redy * FP_1) < a && 2 * (greeny * FP_1) < b)
  {
    DifferenceIs(p, redy, greeny, q);
    DifferenceIs(p, 5, greeny, w);
    DifferenceIs(redy, w, q, 5);
    Cramer(p, q, w, redy, greeny, D, R, G);
    InverseIs(5, D, R);
    InverseIs(5, D, G);
    if redy + greeny >= 1 && 2 * (redy * FP_1) < a && 2 * (greeny * FP_1) < b {
      if R > 0 {
        BlueOnAxis(redy, greeny, D, R, G, a, b);
      } else {
        assert redy * -R == -(redy * R) && greeny * -G == -(greeny * G);
        BlueOnAxis(redy, greeny, -D, -R, -G, a, b);
      }
    }
  }

  lemma OnAxis(xy: Xy, s: Scales)
    requires FindScales(xy) == Good(s) && xy.whitey == 5 && xy.bluey == 0
    requires 0 <= xy.redy <= 5 && 0 <= xy.greeny <= 5
    ensures !(2 * (xy.redy * FP_1) < s.redInverse && 2 * (xy.greeny * FP_1) < s.greenInverse)
  {
    ScalesSafe(xy);
    OnAxisNotBlack(xy.greenx - xy.bluex, xy.redx - xy.bluex, xy.whitex - xy.bluex, xy.redy, xy.greeny,
                   Denominator(xy).value, RedPart(xy).value, GreenPart(xy).value, s.redInverse, s.greenInverse);
  }

  lemma OffAxis(xy: Xy, s: Scales)
    requires FindScales(xy) == Good(s) && xy.whitey == 5 && xy.bluey >= 1
    ensures !(2 * (xy.redy * FP_1) < s.redInverse && 2 * (xy.greeny * FP_1) < s.greenInverse
              && 2 * (xy.bluey * s.blueScale) < FP_1)
  {
    ScalesSafe(xy);
    if 2 * (xy.redy * FP_1) < s.redInverse && 2 * (xy.greeny * FP_1) < s.greenInverse {
      BlueOffAxis(xy.redy, xy.greeny, xy.bluey, s.redInverse, s.greenInverse, s.blueScale);
    }
  }

  /** The colorants found for accepted chromaticities are not all black: their Y values,
      which are non-negative, have a positive sum. */
  lemma NotBlack(xy: Xy)
    requires CheckXy(xy).Good?
    ensures !Black(CheckXy(xy).value)
  {
    if Black(CheckXy(xy).value) {
      BlackIsDark(xy);
      BlackScales(xy);
      if xy.bluey >= 1 {
        OffAxis(xy, FindScales(xy).value);
      } else {
        OnAxis(xy, FindScales(xy).value);
      }
    }
  }

  // ----- where the end-point check overflows -----

  const MAX_32: int := 0x7FFF_FFFF

  /** The sum of Y values is guarded by the X values, so it can overflow. */
  lemma NormalizeOverflows()
    ensures Normalize(Xyz(Point(0, 0x7FFF_FFFF, 0), Point(0, 1, 0), Point(0, 0, 0))) == SignedOverflow
  {
  }

  /** The sums of png_xy_from_XYZ have no guard at all: here normalization changes nothing
      and the sum of the red coordinates overflows. */
  lemma RowSumOverflows()
    ensures var v := Xyz(Point(0x7FFF_FFFF, 100000, 1), Point(0, 0, 0), Point(0, 0, 0));
            Normalize(v) == Good(v) && CheckXyz(v) == SignedOverflow
  {
  }

  /** The reverse conversion adds up the red coordinates, and goes on to the grand total
      only past a red and a green colorant that are not black. */
  predicate SumsOverflow(v: Xyz) {
    var r, g, b := RowSum(v.red), RowSum(v.green), RowSum(v.blue);
    r > MAX_32 || (r > 0 && g > 0 && r + g + b > MAX_32)
  }

  /** The sum of Y values overflows behind the guards, which look at X values. */
  predicate SumYOverflows(v: Xyz) {
    && v.red.Y + v.green.X <= MAX_32
    && (v.red.Y + v.green.Y > MAX_32
        || (v.red.Y + v.green.Y + v.blue.X <= MAX_32 && v.red.Y + v.green.Y + v.blue.Y > MAX_32))
  }

  /** The guards let the sum of Y values through. */
  predicate GuardsPass(v: Xyz) {
    v.red.Y + v.green.X <= MAX_32 && v.red.Y + v.green.Y + v.blue.X <= MAX_32
  }

  function ScaledPoint(p: Point, Y: int): Point
    requires Y > 0
  {
    Point(RoundDiv(p.X * FP_1, Y), RoundDiv(p.Y * FP_1, Y), RoundDiv(p.Z * FP_1, Y))
  }

  /** The end points scaled to a white of Y = 1. */
  function Scaled(v: Xyz, Y: int): Xyz
    requires Y > 0
  {
    Xyz(ScaledPoint(v.red, Y), ScaledPoint(v.green, Y), ScaledPoint(v.blue, Y))
  }

  predicate FitsPoint(p: Point) {
    p.X <= MAX_32 && p.Y <= MAX_32 && p.Z <= MAX_32
  }

  predicate Fits(v: Xyz) {
    FitsPoint(v.red) && FitsPoint(v.green) && FitsPoint(v.blue)
  }

  /** When some signed addition of the end-point check overflows, in terms of the end points
      alone: in the sum of Y values, or, that sum being positive and the scaled values
      fitting, in the row sums of the scaled end points. */
  predicate EndpointsOverflow(v: Xyz) {
    var Y := v.red.Y + v.green.Y + v.blue.Y;
    && NonNegativeXyz(v)
    && (SumYOverflows(v)
        || (GuardsPass(v) && 0 < Y <= MAX_32 && (Y == FP_1 || Fits(Scaled(v, Y))) && SumsOverflow(Scaled(v, Y))))
  }

  /** A coordinate of a colorant that is not black has a quotient. */
  lemma Fraction(X: int, d: int)
    requires 0 <= X <= d && d > 0
    ensures MulDiv(X, FP_1, d).Some?
  {
    var q := RoundDiv(X * FP_1, d);
    Bracket(q, d, 0);
    Bracket(q, d, FP_1 + 1);
  }

  lemma PointChromaIs(p: Point)
    requires NonNegative(p)
    ensures RowSum(p) > MAX_32 ==> PointChroma(p).SignedOverflow?
    ensures RowSum(p) == 0 ==> PointChroma(p).Rejected?
    ensures 0 < RowSum(p) <= MAX_32 ==> PointChroma(p).Good? && PointChroma(p).value.d == RowSum(p)
  {
    if 0 < RowSum(p) {
      Fraction(p.X, RowSum(p));
      Fraction(p.Y, RowSum(p));
    }
  }

  /** png_xy_from_XYZ on non-negative end points overflows exactly when these sums do. */
  lemma BackOverflowsIff(v: Xyz)
    requires NonNegativeXyz(v)
    ensures XyFromXyz(v).SignedOverflow? <==> SumsOverflow(v)
  {
    PointChromaIs(v.red);
    PointChromaIs(v.green);
    PointChromaIs(v.blue);
  }

  lemma UnitRound(x: int)
    ensures RoundDiv(x * FP_1, FP_1) == x
  {
    RoundDivIs(x * FP_1, FP_1, x);
  }

  lemma RescaleIs(p: Point, Y: int)
    requires NonNegative(p) && Y > 0
    ensures NonNegative(ScaledPoint(p, Y))
    ensures Rescale(p, Y) == if FitsPoint(ScaledPoint(p, Y)) then Good(ScaledPoint(p, Y)) else Rejected
    ensures Y == FP_1 ==> ScaledPoint(p, Y) == p
  {
    RoundNonNegative(p.X * FP_1, Y);
    RoundNonNegative(p.Y * FP_1, Y);
    RoundNonNegative(p.Z * FP_1, Y);
    UnitRound(p.X);
    UnitRound(p.Y);
    UnitRound(p.Z);
  }

  lemma RoundNonNegative(n: int, d: int)
    requires n >= 0 && d > 0
    ensures RoundDiv(n, d) >= 0
  {
    Bracket(RoundDiv(n, d), d, 0);
  }

  /** png_XYZ_normalize overflows exactly when the sum of Y values does; otherwise it
      scales the end points, if the scaled values fit. */
  lemma NormalizeIs(v: Xyz)
    requires NonNegativeXyz(v)
    ensures var Y := v.red.Y + v.green.Y + v.blue.Y;
            && (Normalize(v).SignedOverflow? <==> SumYOverflows(v))
            && (Normalize(v).Good? <==> GuardsPass(v) && 0 < Y <= MAX_32 && (Y == FP_1 || Fits(Scaled(v, Y))))
            && (Normalize(v).Good? ==> Normalize(v).value == Scaled(v, Y) && NonNegativeXyz(Normalize(v).value))
  {
    var Y := v.red.Y + v.green.Y + v.blue.Y;
    if 0 < Y {
      RescaleIs(v.red, Y);
      RescaleIs(v.green, Y);
      RescaleIs(v.blue, Y);
    }
  }

  /** The exact condition for undefined behaviour in png_colorspace_check_XYZ. */
  lemma CheckXyzOverflowsIff(v: Xyz)
    ensures CheckXyz(v).SignedOverflow? <==> EndpointsOverflow(v)
  {
    if NonNegativeXyz(v) {
      NormalizeIs(v);
      if Normalize(v).Good? {
        var n := Normalize(v).value;
        BackOverflowsIff(n);
        if XyFromXyz(n).Good? {
          CheckXySafe(XyFromXyz(n).value);
        }
      }
    }
  }

  // ----- the colorants of an accepted colour space -----

  /** Colorants whose Y values are non-negative and have a positive 32-bit sum. */
  predicate Sound(v: Xyz) {
    NonNegativeXyz(v) && 0 < v.red.Y + v.green.Y + v.blue.Y <= MAX_32
  }

  lemma CheckedXySound(xy: Xy)
    requires CheckXy(xy).Good?
    ensures Sound(CheckXy(xy).value)
  {
    XyzSafe(xy);
    NotBlack(xy);
  }

  /** Scaling to a white of Y = 1 does not make it black. */
  lemma ScaledNotBlack(v: Xyz, Y: int)
    requires Y == v.red.Y + v.green.Y + v.blue.Y && Y > 0
    ensures !Black(Scaled(v, Y))
  {
    if Black(Scaled(v, Y)) {
      ZeroRound(v.red.Y * FP_1, Y);
      ZeroRound(v.green.Y * FP_1, Y);
      ZeroRound(v.blue.Y * FP_1, Y);
    }
  }

  lemma CheckedXyzSound(v: Xyz)
    requires CheckXyz(v).Good?
    ensures Sound(CheckXyz(v).value.1)
  {
    NormalizeIs(v);
    ScaledNotBlack(v, v.red.Y + v.green.Y + v.blue.Y);
    BackSums(Normalize(v).value);
  }

  lemma BackSums(v: Xyz)
    requires NonNegativeXyz(v) && XyFromXyz(v).Good?
    ensures v.red.Y + v.green.Y + v.blue.Y <= MAX_32
  {
  }
}
