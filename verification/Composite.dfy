/** Compositing a sample over a background, with and without a division (png.h). */
module Composite {
  import opened Arith
  import opened Bytes

  /** fg * alpha + bg * (top - alpha), where top is full opacity. */
  function Mix(fg: nat, alpha: nat, bg: nat, top: nat): nat
    requires alpha <= top
  {
    fg * alpha + bg * (top - alpha)
  }

  /** png_composite with a division, of the mix x. */
  function Divided8(x: nat): nat {
    (x + 127) / 255 % 256
  }

  /** png_composite without one: the temporary has 16 bits. */
  function Shifted8(x: nat): nat {
    var temp := (x + 128) % 0x1_0000;
    (temp + temp / 256) / 256 % 256
  }

  /** png_composite_16 with a division: 32-bit arithmetic. */
  function Divided16(x: nat): nat {
    (x + 32767) % TWO_TO_THE_32 / 65535 % 0x1_0000
  }

  /** png_composite_16 without one: the temporary and its sum have 32 bits. */
  function Shifted16(x: nat): nat {
    var temp := (x + 32768) % TWO_TO_THE_32;
    (temp + temp / 0x1_0000) % TWO_TO_THE_32 / 0x1_0000 % 0x1_0000
  }

  /** r is x / top rounded to the nearest. */
  predicate Nearest(r: nat, x: nat, top: nat) {
    2 * (r * top) <= 2 * x + top && 2 * x <= 2 * (r * top) + top
  }

  predicate Between(r: nat, a: nat, b: nat) {
    a <= r <= b || b <= r <= a
  }

  lemma MixRange(fg: nat, alpha: nat, bg: nat, top: nat, lo: nat, hi: nat)
    requires alpha <= top && lo <= fg <= hi && lo <= bg <= hi
    ensures lo * top <= Mix(fg, alpha, bg, top) <= hi * top
  {
    MulAdd(alpha, top - alpha, lo);
    MulAdd(alpha, top - alpha, hi);
    MulBound(lo, alpha, fg, alpha);
    MulBound(fg, alpha, hi, alpha);
    MulBound(lo, top - alpha, bg, top - alpha);
    MulBound(bg, top - alpha, hi, top - alpha);
  }

  lemma MixEnds(fg: nat, bg: nat, top: nat)
    ensures Mix(fg, top, bg, top) == fg * top && Mix(fg, 0, bg, top) == bg * top
  {
  }

  /** Two shifts and an addition replace the division, up to the square of the top. */
  lemma ShiftsDivide8(x: nat)
    requires x <= 255 * 255
    ensures x + 128 < 0x1_0000 && Shifted8(x) == Divided8(x) == (x + 127) / 255
  {
    var q, r := (x + 127) / 255, (x + 127) % 255;
    assert x + 128 == 256 * q + (r + 1 - q);
  }

  lemma ShiftsDivide16(x: nat)
    requires x <= 65535 * 65535
    ensures x + 32768 + (x + 32768) / 0x1_0000 < TWO_TO_THE_32
    ensures Shifted16(x) == Divided16(x) == (x + 32767) / 65535
  {
    var q, r := (x + 32767) / 65535, (x + 32767) % 65535;
    assert x + 32768 == 65536 * q + (r + 1 - q);
  }

  lemma Rounded8(x: nat, lo: nat, hi: nat)
    requires lo * 255 <= x <= hi * 255
    ensures lo <= (x + 127) / 255 <= hi && Nearest((x + 127) / 255, x, 255)
  {
  }

  lemma Rounded16(x: nat, lo: nat, hi: nat)
    requires lo * 65535 <= x <= hi * 65535
    ensures lo <= (x + 32767) / 65535 <= hi && Nearest((x + 32767) / 65535, x, 65535)
  {
  }

  /** 8-bit compositing: no overflow, the same result with and without a division, and it
      is the nearest to the exact mix, between the two samples, and one of them at the ends. */
  lemma Composite8(fg: nat, alpha: nat, bg: nat)
    requires fg <= 255 && alpha <= 255 && bg <= 255
    ensures var x := Mix(fg, alpha, bg, 255);
            && x + 128 < 0x1_0000 && Shifted8(x) == Divided8(x)
            && Nearest(Shifted8(x), x, 255) && Between(Shifted8(x), fg, bg)
            && (alpha == 255 ==> Shifted8(x) == fg) && (alpha == 0 ==> Shifted8(x) == bg)
  {
    var x, lo, hi := Mix(fg, alpha, bg, 255), if fg < bg then fg else bg, if fg < bg then bg else fg;
    MixRange(fg, alpha, bg, 255, lo, hi);
    MixRange(fg, alpha, bg, 255, 0, 255);
    ShiftsDivide8(x);
    Rounded8(x, lo, hi);
    MixEnds(fg, bg, 255);
    if alpha == 255 {
      Rounded8(x, fg, fg);
    } else if alpha == 0 {
      Rounded8(x, bg, bg);
    }
  }

  /** 16-bit compositing, in 32-bit arithmetic. */
  lemma Composite16(fg: nat, alpha: nat, bg: nat)
    requires fg <= 65535 && alpha <= 65535 && bg <= 65535
    ensures var x := Mix(fg, alpha, bg, 65535);
            && x + 32768 + (x + 32768) / 0x1_0000 < TWO_TO_THE_32 && Shifted16(x) == Divided16(x)
            && Nearest(Shifted16(x), x, 65535) && Between(Shifted16(x), fg, bg)
            && (alpha == 65535 ==> Shifted16(x) == fg) && (alpha == 0 ==> Shifted16(x) == bg)
  {
    var x, lo, hi := Mix(fg, alpha, bg, 65535), if fg < bg then fg else bg, if fg < bg then bg else fg;
    MixRange(fg, alpha, bg, 65535, lo, hi);
    MixRange(fg, alpha, bg, 65535, 0, 65535);
    ShiftsDivide16(x);
    Rounded16(x, lo, hi);
    MixEnds(fg, bg, 65535);
    if alpha == 65535 {
      Rounded16(x, fg, fg);
    } else if alpha == 0 {
      Rounded16(x, bg, bg);
    }
  }
}
