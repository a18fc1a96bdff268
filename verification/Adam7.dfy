/** The Adam7 geometry macros of png.h and the partition of an image they promise. */
module Adam7 {
  import opened Arith

  type Pass = p: nat | p < 7

  // The macros shift and mask small constants; `Pow2(k)` is 1 << k.
  function StartRow(p: Pass): nat {
    // ((1 & ~p) << (3 - (p >> 1))) & 7
    if p % 2 == 0 then Pow2(3 - p / 2) % 8 else 0
  }

  function StartCol(p: Pass): nat {
    // ((1 & p) << (3 - ((p + 1) >> 1))) & 7
    if p % 2 == 1 then Pow2(3 - (p + 1) / 2) % 8 else 0
  }

  function RowOffset(p: Pass): nat {
    if p > 2 then 8 / Pow2((p - 1) / 2) else 8
  }

  function ColOffset(p: Pass): nat {
    Pow2((7 - p) / 2)
  }

  function RowShift(p: Pass): nat {
    if p > 2 then (8 - p) / 2 else 3
  }

  function ColShift(p: Pass): nat {
    if p > 1 then (7 - p) / 2 else 3
  }

  function PassRows(height: nat, p: Pass): nat
    requires height >= 1
  {
    (height + (Pow2(RowShift(p)) - 1 - StartRow(p))) / Pow2(RowShift(p))
  }

  function PassCols(width: nat, p: Pass): nat
    requires width >= 1
  {
    (width + (Pow2(ColShift(p)) - 1 - StartCol(p))) / Pow2(ColShift(p))
  }

  function RowFromPassRow(y: nat, p: Pass): nat {
    y * Pow2(RowShift(p)) + StartRow(p)
  }

  function ColFromPassCol(x: nat, p: Pass): nat {
    x * Pow2(ColShift(p)) + StartCol(p)
  }

  /** PNG_PASS_MASK: bit k says whether line k of the 8x8 tile is in the pass; off
      selects rows (0) or columns (1). */
  function PassMask(p: Pass, off: nat): nat
    requires off <= 1
  {
    MaskNibbles(Pow2(4 * (7 - off - p)))
  }

  function MaskNibbles(shift: nat): nat
    requires shift >= 1
  {
    0x110145AF / shift % 0x10 + 0x01145AF0 / shift / 0x10 % 0x10 * 0x10
  }

  /** (mask >> k) & 1 */
  predicate Bit(mask: nat, k: nat) {
    if k == 0 then mask % 2 == 1 else Bit(mask / 2, k - 1)
  }

  predicate RowInPass(y: nat, p: Pass) {
    Bit(PassMask(p, 0), y % 8)
  }

  predicate ColInPass(x: nat, p: Pass) {
    Bit(PassMask(p, 1), x % 8)
  }

  // ----- the reference: the 8x8 tile of section 8.2 of the PNG specification -----

  const TILE: seq<seq<nat>> := [
    [1, 6, 4, 6, 2, 6, 4, 6],
    [7, 7, 7, 7, 7, 7, 7, 7],
    [5, 6, 5, 6, 5, 6, 5, 6],
    [7, 7, 7, 7, 7, 7, 7, 7],
    [3, 6, 4, 6, 3, 6, 4, 6],
    [7, 7, 7, 7, 7, 7, 7, 7],
    [5, 6, 5, 6, 5, 6, 5, 6],
    [7, 7, 7, 7, 7, 7, 7, 7]]

  function PassOf(x: nat, y: nat): Pass {
    (TILE[y % 8][x % 8] - 1)
  }

  lemma Pow2Values()
    ensures Pow2(0) == 1 && Pow2(1) == 2 && Pow2(2) == 4 && Pow2(3) == 8
    ensures Pow2(4) == 0x10 && Pow2(5) == 0x20 && Pow2(6) == 0x40 && Pow2(7) == 0x80 && Pow2(8) == 0x100
    ensures Pow2(12) == 0x1000 && Pow2(16) == 0x1_0000 && Pow2(20) == 0x10_0000
    ensures Pow2(24) == 0x100_0000 && Pow2(28) == 0x1000_0000
  {
    assert Pow2(8) == 4 * Pow2(6) && Pow2(12) == 16 * Pow2(8) && Pow2(16) == 16 * Pow2(12);
    assert Pow2(20) == 16 * Pow2(16) && Pow2(24) == 16 * Pow2(20) && Pow2(28) == 16 * Pow2(24);
  }

  /** The first line of each pass and the distance to its next line. */
  function YStart(p: Pass): nat { match p case 2 => 4 case 4 => 2 case 6 => 1 case _ => 0 }
  function YStep(p: Pass): nat { match p case 0 => 8 case 1 => 8 case 2 => 8 case 3 => 4 case 4 => 4 case _ => 2 }
  function XStart(p: Pass): nat { match p case 1 => 4 case 3 => 2 case 5 => 1 case _ => 0 }
  function XStep(p: Pass): nat {
    match p case 0 => 8 case 1 => 8 case 2 => 4 case 3 => 4 case 4 => 2 case 5 => 2 case _ => 1
  }

  /** The shift macros denote these pairs. */
  lemma Geometry(p: Pass)
    ensures StartRow(p) == YStart(p) && Pow2(RowShift(p)) == RowOffset(p) == YStep(p)
    ensures StartCol(p) == XStart(p) && Pow2(ColShift(p)) == ColOffset(p) == XStep(p)
  {
    Pow2Values();
  }

  lemma Masks(p: Pass)
    ensures PassMask(p, 0) == [0x01, 0x01, 0x10, 0x11, 0x44, 0x55, 0xAA][p]
    ensures PassMask(p, 1) == [0x01, 0x10, 0x11, 0x44, 0x55, 0xAA, 0xFF][p]
  {
    Pow2Values();
    assert MaskNibbles(0x1000_0000) == 0x01 && MaskNibbles(0x100_0000) == 0x01;
    assert MaskNibbles(0x10_0000) == 0x10 && MaskNibbles(0x1_0000) == 0x11;
    assert MaskNibbles(0x1000) == 0x44 && MaskNibbles(0x100) == 0x55;
    assert MaskNibbles(0x10) == 0xAA && MaskNibbles(1) == 0xFF;
  }

  lemma HighNibble(mask: nat, k: nat)
    requires 4 <= k
    ensures Bit(mask, k) == Bit(mask / 0x10, k - 4)
  {
    var h := mask / 2;
    assert Bit(mask, k) == Bit(h, k - 1) == Bit(h / 2, k - 2);
    assert Bit(h / 2, k - 2) == Bit(h / 2 / 2, k - 3) == Bit(h / 2 / 2 / 2, k - 4);
    assert h / 2 / 2 / 2 == mask / 0x10;
  }

  /** The bits of the eight masks. */
  lemma MaskBits(k: nat)
    requires k < 8
    ensures Bit(0x01, k) <==> k == 0
    ensures Bit(0x10, k) <==> k == 4
    ensures Bit(0x11, k) <==> k % 4 == 0
    ensures Bit(0x44, k) <==> k % 4 == 2
    ensures Bit(0x55, k) <==> k % 2 == 0
    ensures Bit(0xAA, k) <==> k % 2 == 1
    ensures Bit(0xFF, k)
  {
    if k >= 4 {
      HighNibble(0x01, k);
      HighNibble(0x10, k);
      HighNibble(0x11, k);
      HighNibble(0x44, k);
      HighNibble(0x55, k);
      HighNibble(0xAA, k);
      HighNibble(0xFF, k);
    }
    NibbleBits(k % 4);
    NibbleBits'(k % 4);
  }

  lemma NibbleBits(k: nat)
    requires k < 4
    ensures !Bit(0x0, k) && Bit(0xF, k)
    ensures Bit(0x1, k) <==> k == 0
    ensures Bit(0x4, k) <==> k == 2
    ensures Bit(0x5, k) <==> k % 2 == 0
    ensures Bit(0xA, k) <==> k % 2 == 1
  {
    if k == 0 {
    } else if k == 1 {
    } else if k == 2 {
    } else {
    }
  }

  lemma NibbleBits'(k: nat)
    requires k < 4
    ensures Bit(0xFF, k) && !Bit(0x10, k)
    ensures Bit(0x11, k) <==> k == 0
    ensures Bit(0x44, k) <==> k == 2
    ensures Bit(0x55, k) <==> k % 2 == 0
    ensures Bit(0xAA, k) <==> k % 2 == 1
  {
    if k == 2 {
      assert Bit(0xFF, 2) == Bit(0x7F, 1) && Bit(0x10, 2) == Bit(0x8, 1) && Bit(0x11, 2) == Bit(0x8, 1);
      assert Bit(0x44, 2) == Bit(0x22, 1) && Bit(0x55, 2) == Bit(0x2A, 1) && Bit(0xAA, 2) == Bit(0x55, 1);
    } else if k == 3 {
      assert Bit(0xFF, 3) == Bit(0x7F, 2) == Bit(0x3F, 1) && Bit(0x10, 3) == Bit(0x8, 2) == Bit(0x4, 1);
      assert Bit(0x11, 3) == Bit(0x8, 2) && Bit(0x44, 3) == Bit(0x22, 2) == Bit(0x11, 1);
      assert Bit(0x55, 3) == Bit(0x2A, 2) == Bit(0x15, 1) && Bit(0xAA, 3) == Bit(0x55, 2) == Bit(0x2A, 1);
    }
  }

  lemma ModMod(z: nat)
    ensures z % 8 % 4 == z % 4 && z % 8 % 2 == z % 2
  {
    var q, r := z / 8, z % 8;
    assert z == 4 * (2 * q + r / 4) + r % 4;
    assert z == 2 * (4 * q + r / 2) + r % 2;
  }

  /** The mask macros select exactly the rows start, start + step, ... */
  lemma RowMaskMeansGeometry(y: nat, p: Pass)
    ensures RowInPass(y, p) <==> y % YStep(p) == YStart(p)
  {
    Masks(p);
    MaskBits(y % 8);
    ModMod(y);
  }

  lemma ColMaskMeansGeometry(x: nat, p: Pass)
    ensures ColInPass(x, p) <==> x % XStep(p) == XStart(p)
  {
    Masks(p);
    MaskBits(x % 8);
    ModMod(x);
  }

  /** How many of the lines start, start + step, ... lie below n. */
  function Lines(n: nat, start: nat, step: nat): nat
    requires n >= 1 && start < step && step in {1, 2, 4, 8}
  {
    match step
    case 1 => n
    case 2 => (n + 1 - start) / 2
    case 4 => (n + 3 - start) / 4
    case _ => (n + 7 - start) / 8
  }

  /** The same by counting. */
  function Counted(n: nat, start: nat, step: nat): nat
    requires step > 0
  {
    if n == 0 then 0 else Counted(n - 1, start, step) + if (n - 1) % step == start then 1 else 0
  }

  lemma {:induction false} LinesAreCounted(n: nat, start: nat, step: nat)
    requires n >= 1 && start < step && step in {1, 2, 4, 8}
    ensures Lines(n, start, step) == Counted(n, start, step)
  {
    if n > 1 {
      LinesAreCounted(n - 1, start, step);
      OneMoreLine(n, start, step);
    } else {
      assert Counted(1, start, step) == Counted(0, start, step) + if 0 % step == start then 1 else 0;
    }
  }

  lemma OneMoreOf2(n: nat, start: nat)
    requires n >= 2 && start < 2
    ensures (n + 1 - start) / 2 == (n - start) / 2 + if (n - 1) % 2 == start then 1 else 0
  {
  }

  lemma OneMoreOf4(n: nat, start: nat)
    requires n >= 2 && start < 4
    ensures (n + 3 - start) / 4 == (n + 2 - start) / 4 + if (n - 1) % 4 == start then 1 else 0
  {
  }

  lemma OneMoreOf8(n: nat, start: nat)
    requires n >= 2 && start < 8
    ensures (n + 7 - start) / 8 == (n + 6 - start) / 8 + if (n - 1) % 8 == start then 1 else 0
  {
  }

  lemma OneMoreLine(n: nat, start: nat, step: nat)
    requires n >= 2 && start < step && step in {1, 2, 4, 8}
    ensures Lines(n, start, step) == Lines(n - 1, start, step) + if (n - 1) % step == start then 1 else 0
  {
    match step
    case 1 =>
    case 2 => OneMoreOf2(n, start);
    case 4 => OneMoreOf4(n, start);
    case _ => OneMoreOf8(n, start);
  }

  lemma MacrosAreLines(n: nat, p: Pass)
    requires n >= 1
    ensures PassCols(n, p) == Lines(n, XStart(p), XStep(p))
    ensures PassRows(n, p) == Lines(n, YStart(p), YStep(p))
  {
    Geometry(p);
  }

  /** The count macros count the lines of the pass below n. */
  lemma CountsAreLines(n: nat, p: Pass)
    requires n >= 1
    ensures PassCols(n, p) == Counted(n, XStart(p), XStep(p))
    ensures PassRows(n, p) == Counted(n, YStart(p), YStep(p))
  {
    MacrosAreLines(n, p);
    LinesAreCounted(n, XStart(p), XStep(p));
    LinesAreCounted(n, YStart(p), YStep(p));
  }

  /** k is the index, among the lines start, start + step, ..., of line z. */
  predicate IsLine(k: nat, start: nat, step: nat, z: nat) {
    k * step + start == z
  }

  lemma LineIndex(start: nat, step: nat, z: nat, n: nat)
    requires step in {1, 2, 4, 8} && start < step && n >= 1
    ensures forall k: nat :: IsLine(k, start, step, z) <==> z % step == start && k == z / step
    ensures z % step == start ==> (z < n <==> z / step < Lines(n, start, step))
  {
    if step == 1 {
    } else if step == 2 {
    } else if step == 4 {
    } else {
    }
  }

  /** A pixel is in pass p, at pass coordinates (px, py). */
  ghost predicate Located(x: nat, y: nat, p: Pass, px: nat, py: nat) {
    ColFromPassCol(px, p) == x && RowFromPassRow(py, p) == y
  }

  lemma LocatedIsLines(x: nat, y: nat, p: Pass, px: nat, py: nat)
    ensures Located(x, y, p, px, py) <==> IsLine(px, XStart(p), XStep(p), x) && IsLine(py, YStart(p), YStep(p), y)
  {
    Geometry(p);
  }

  /** Every pixel belongs, by the mask macros, to the pass that the tile names and to
      no other. */
  lemma PassIsUnique(x: nat, y: nat, p: Pass)
    ensures RowInPass(y, p) && ColInPass(x, p) <==> p == PassOf(x, y)
  {
    RowMaskMeansGeometry(y, p);
    ColMaskMeansGeometry(x, p);
    TileGeometry(x, y, p);
  }

  /** By the coordinate macros a pixel has coordinates in that pass alone, they are
      unique, and they are in the range of the count macros exactly when the pixel is
      in the image. */
  lemma Partition(x: nat, y: nat, width: nat, height: nat, p: Pass)
    requires width >= 1 && height >= 1
    ensures forall px: nat, py: nat ::
              Located(x, y, p, px, py) <==> p == PassOf(x, y) && px == x / XStep(p) && py == y / YStep(p)
    ensures p == PassOf(x, y) ==>
              && (x < width <==> x / XStep(p) < PassCols(width, p))
              && (y < height <==> y / YStep(p) < PassRows(height, p))
  {
    TileGeometry(x, y, p);
    LineIndex(XStart(p), XStep(p), x, width);
    LineIndex(YStart(p), YStep(p), y, height);
    MacrosAreLines(width, p);
    MacrosAreLines(height, p);
    forall px: nat, py: nat
      ensures Located(x, y, p, px, py) <==> p == PassOf(x, y) && px == x / XStep(p) && py == y / YStep(p)
    {
      LocatedIsLines(x, y, p, px, py);
    }
  }

  lemma TileEntry(i: nat, j: nat)
    requires i < 8 && j < 8
    ensures TILE[i][j] ==
            if i % 2 == 1 then 7
            else if j % 2 == 1 then 6
            else if i % 4 == 2 then 5
            else if j % 4 == 2 then 4
            else if i == 4 then 3
            else if j == 4 then 2
            else 1
  {
  }

  /** The tile and the (start, step) pairs describe the same assignment. */
  lemma TileGeometry(x: nat, y: nat, p: Pass)
    ensures y % YStep(p) == YStart(p) && x % XStep(p) == XStart(p) <==> p == PassOf(x, y)
  {
    ModMod(y);
    ModMod(x);
    TileEntry(y % 8, x % 8);
  }

  // ----- conservation: the passes hold every pixel once -----

  function PixelsFrom(width: nat, height: nat, p: int): nat
    requires width >= 1 && height >= 1 && 0 <= p <= 7
    decreases 7 - p
  {
    if p == 7 then 0
    else PassCols(width, p) * PassRows(height, p) + PixelsFrom(width, height, p + 1)
  }

  /** Two interleaved sets of lines make the lines of half the step. */
  lemma Interleave(n: nat)
    requires n >= 1
    ensures Lines(n, 0, 8) + Lines(n, 4, 8) == Lines(n, 0, 4)
    ensures Lines(n, 0, 4) + Lines(n, 2, 4) == Lines(n, 0, 2)
    ensures Lines(n, 0, 2) + Lines(n, 1, 2) == Lines(n, 0, 1) == n
  {
  }

  lemma AllCounts(n: nat)
    requires n >= 1
    ensures PassCols(n, 0) == Lines(n, 0, 8) && PassRows(n, 0) == Lines(n, 0, 8)
    ensures PassCols(n, 1) == Lines(n, 4, 8) && PassRows(n, 1) == Lines(n, 0, 8)
    ensures PassCols(n, 2) == Lines(n, 0, 4) && PassRows(n, 2) == Lines(n, 4, 8)
    ensures PassCols(n, 3) == Lines(n, 2, 4) && PassRows(n, 3) == Lines(n, 0, 4)
    ensures PassCols(n, 4) == Lines(n, 0, 2) && PassRows(n, 4) == Lines(n, 2, 4)
    ensures PassCols(n, 5) == Lines(n, 1, 2) && PassRows(n, 5) == Lines(n, 0, 2)
    ensures PassCols(n, 6) == Lines(n, 0, 1) && PassRows(n, 6) == Lines(n, 1, 2)
  {
    MacrosAreLines(n, 0);
    MacrosAreLines(n, 1);
    MacrosAreLines(n, 2);
    MacrosAreLines(n, 3);
    MacrosAreLines(n, 4);
    MacrosAreLines(n, 5);
    MacrosAreLines(n, 6);
  }

  lemma Distribute(a: nat, b: nat, c: nat)
    ensures a * c + b * c == (a + b) * c
    ensures c * a + c * b == c * (a + b)
  {
  }

  lemma SevenProducts(a: nat, b: nat, c: nat, d: nat, e: nat, f: nat, w: nat, h: nat, i: nat, j: nat, k: nat, l: nat,
                      m: nat, n: nat)
    requires a + b == c && c + d == e && e + f == w
    requires h + i == j && j + k == l && l + m == n
    ensures a * h + b * h + c * i + d * j + e * k + f * l + w * m == w * n
  {
    Distribute(a, b, h);
    Distribute(h, i, c);
    Distribute(c, d, j);
    Distribute(j, k, e);
    Distribute(e, f, l);
    Distribute(l, m, w);
  }

  /** The pass sizes of the macros sum to the image. */
  lemma PixelsConserved(width: nat, height: nat)
    requires width >= 1 && height >= 1
    ensures PixelsFrom(width, height, 0) == width * height
  {
    AllCounts(width);
    AllCounts(height);
    Interleave(width);
    Interleave(height);
    SevenProducts(PassCols(width, 0), PassCols(width, 1), PassCols(width, 2), PassCols(width, 3),
                  PassCols(width, 4), PassCols(width, 5), width,
                  PassRows(height, 0), PassRows(height, 2), PassRows(height, 3), PassRows(height, 4),
                  PassRows(height, 5), PassRows(height, 6), height);
    assert PixelsFrom(width, height, 4)
        == PassCols(width, 4) * PassRows(height, 4) + PassCols(width, 5) * PassRows(height, 5)
            + width * PassRows(height, 6);
    assert PixelsFrom(width, height, 2)
        == PassCols(width, 2) * PassRows(height, 2) + PassCols(width, 3) * PassRows(height, 3)
            + PixelsFrom(width, height, 4);
  }
}
