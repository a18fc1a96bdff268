/** The rgb-to-gray coefficients derived from the colorants' Y values
    (png_colorspace_set_rgb_coefficients). */
module RgbCoefficients {
  import opened Arith
  import opened Bytes
  import opened FixedPoint
  import opened Colorspace

  datatype Outcome = Coefficients(r: int, g: int, b: int) | InternalErrorXYZ | InternalErrorSum

  /** The rounded share of one colorant, when it lies in 0..32768. */
  function Share(y: int, total: int): Option<int> {
    if y < 0 then None
    else
      match MulDiv(y, 32768, total)
      case Some(c) => if 0 <= c <= 32768 then Some(c) else None
      case None => None
  }

  /** The unit that is missing from, or too much in, the sum goes to the largest. */
  function Adjust(r: int, g: int, b: int): Outcome {
    var add := if r + g + b > 32768 then -1 else if r + g + b < 32768 then 1 else 0;
    var (r', g', b') := if add == 0 then (r, g, b)
                        else if g >= r && g >= b then (r, g + add, b)
                        else if r >= g && r >= b then (r + add, g, b)
                        else (r, g, b + add);
    if r' + g' + b' != 32768 then InternalErrorSum else Coefficients(r', g', b')
  }

  function SetCoefficients(r: int, g: int, b: int): Outcome {
    var total := r + g + b;
    if total <= 0 then InternalErrorXYZ
    else
      match (Share(r, total), Share(g, total), Share(b, total))
      case (Some(r'), Some(g'), Some(b')) => if r' + g' + b' <= 32769 then Adjust(r', g', b') else InternalErrorXYZ
      case _ => InternalErrorXYZ
  }

  lemma ShareBounds(y: int, total: int)
    requires 0 <= y <= total && 0 < total
    ensures Share(y, total) == Some(RoundDiv(y * 32768, total))
  {
    var c := RoundDiv(y * 32768, total);
    assert c >= 32769 ==> c * total >= 32769 * total;
    assert c <= -1 ==> c * total <= -1 * total;
  }

  /** Three roundings move the sum by at most one. */
  lemma SumOfShares(r: int, g: int, b: int, t: int, y: int, z: int, w: int)
    requires t > 0 && y + z + w == t
    requires 2 * (r * t) <= 65536 * y + t < 2 * (r * t) + 2 * t
    requires 2 * (g * t) <= 65536 * z + t < 2 * (g * t) + 2 * t
    requires 2 * (b * t) <= 65536 * w + t < 2 * (b * t) + 2 * t
    ensures 32767 <= r + g + b <= 32769
  {
    var s := r + g + b;
    MulAdd(r, g, t);
    MulAdd(r + g, b, t);
    MulAdd(s - 32770, 32770, t);
    MulAdd(s, 32766 - s, t);
    assert s >= 32770 ==> (s - 32770) * t >= 0;
    assert s <= 32766 ==> (32766 - s) * t >= 0;
  }

  /** A coefficient that is not the rounded share is that of a largest share, and green before
      red before blue. */
  predicate Adjusted(c: Outcome, r: int, g: int, b: int)
    requires c.Coefficients?
  {
    && (c.g != g ==> g >= r && g >= b)
    && (c.r != r ==> r > g && r >= b)
    && (c.b != b ==> b > g && b > r)
  }

  /** For every set of non-negative Y values with a positive 32-bit sum, the rounded
      shares sum to 32768 give or take one, both error exits are unreachable, and the
      coefficients are non-negative, sum to 32768 and stay within one of the shares. */
  lemma CoefficientsSumToUnity(r: int, g: int, b: int)
    requires r >= 0 && g >= 0 && b >= 0 && 0 < r + g + b && Int32(r + g + b)
    ensures var t, c := r + g + b, SetCoefficients(r, g, b);
            && c.Coefficients? && Adjusted(c, RoundDiv(r * 32768, t), RoundDiv(g * 32768, t), RoundDiv(b * 32768, t))
            && c.r >= 0 && c.g >= 0 && c.b >= 0 && c.r + c.g + c.b == 32768
            && Abs(c.r - RoundDiv(r * 32768, t)) + Abs(c.g - RoundDiv(g * 32768, t))
               + Abs(c.b - RoundDiv(b * 32768, t)) <= 1
  {
    var t := r + g + b;
    ShareBounds(r, t);
    ShareBounds(g, t);
    ShareBounds(b, t);
    SumOfShares(RoundDiv(r * 32768, t), RoundDiv(g * 32768, t), RoundDiv(b * 32768, t), t, r, g, b);
  }

  /** The coefficients of sRGB, whose rounded shares sum to 32769. */
  lemma SrgbCoefficients()
    ensures SetCoefficients(SRGB_XYZ.red.Y, SRGB_XYZ.green.Y, SRGB_XYZ.blue.Y) == Coefficients(6968, 23434, 2366)
  {
    ShareBounds(21264, 100000);
    ShareBounds(71517, 100000);
    ShareBounds(7219, 100000);
  }

  /** From end to end: whatever setters have run, a colour space with end points yields
      coefficients, so neither internal error of png_colorspace_set_rgb_coefficients is
      reachable, and the total it adds up does not overflow. */
  lemma CoefficientsAfterAnyRun(c: Space, h: Host, ops: seq<Op>)
    requires Empty(c) && AfterAll(c, h, ops).haveEndpoints
    ensures var v := AfterAll(c, h, ops).xyz;
            var k := SetCoefficients(v.red.Y, v.green.Y, v.blue.Y);
            && Int32(v.red.Y + v.green.Y) && Int32(v.red.Y + v.green.Y + v.blue.Y)
            && k.Coefficients? && k.r >= 0 && k.g >= 0 && k.b >= 0 && k.r + k.g + k.b == 32768
  {
    RunsStayConsistent(c, h, ops);
    var v := AfterAll(c, h, ops).xyz;
    CoefficientsSumToUnity(v.red.Y, v.green.Y, v.blue.Y);
  }
}
