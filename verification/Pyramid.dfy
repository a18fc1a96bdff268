/** Many levels of the forward transform and the pull ladder: an image that was analyzed level by
    level comes out of the ladder again, row by row. */
module Pyramid {
  import opened Arith
  import opened Lifting
  import opened Analysis
  import opened Synthesis
  import opened Ladder

  /** The rows of every level of an image, the top level being the image itself. */
  type Image<!R> = (nat, int) -> R

  function LevelOf<R>(image: Image<R>, l: nat): int -> R {
    y => image(l, y)
  }

  /** Row y as level l finds it: even rows join row y / 2 of the level below. */
  function Found<R>(f: Filter<R>, image: Image<R>, l: nat, y: int): R {
    if l == 0 || y % 2 == 1 then f.leaf(l, y) else f.join(l, y, image(l - 1, y / 2))
  }

  /** The filter's bands hold the image: at every level, what is found is what the forward
      transform of that level's rows leaves. */
  ghost predicate Encodes<R(!new)>(f: Filter<R>, u: Forward<R>, image: Image<R>, height: nat, levels: nat) {
    && height >= 1 && Undoes(Bank(f.steps, y => f.leaf(0, y), f.lift, f.halve), u)
    && forall l: nat, y: int ::
         l < levels && 0 <= y < Node(height, levels, l) ==> LevelHolds(f, u, image, height, levels, l, y)
  }

  ghost predicate LevelHolds<R(!new)>(f: Filter<R>, u: Forward<R>, image: Image<R>, height: nat, levels: nat, l: nat,
                                      y: int)
    requires l < levels && 0 <= y < Node(height, levels, l)
  {
    Found(f, image, l, y) == Coded(u, 0, Node(height, levels, l) - 1, LevelOf(image, l), y)
  }

  /** Every level of the pyramid is restored. */
  lemma {:induction false} LevelRestored<R(!new)>(f: Filter<R>, u: Forward<R>, image: Image<R>, height: nat,
                                                 levels: nat, l: nat, y: int)
    requires Encodes(f, u, image, height, levels) && l < levels && 0 <= y < Node(height, levels, l)
    ensures NodeRow(f, height, levels, l, y) == image(l, y)
    decreases l
  {
    var b, h := BankAt(f, height, levels, l), Node(height, levels, l);
    forall z | 0 <= z <= h - 1 ensures b.input(z) == Coded(u, 0, h - 1, LevelOf(image, l), z) {
      assert LevelHolds(f, u, image, height, levels, l, z);
      ParIs(z);
      if l > 0 && z % 2 == 0 {
        LevelRows(height, levels, l - 1);
        LevelRows(height, levels, l);
        LevelRestored(f, u, image, height, levels, l - 1, z / 2);
      }
    }
    Reconstruction(b, u, Window(h), LevelOf(image, l), y);
  }

  /** The ladder puts out the image. */
  method Restore<R(!new)>(f: Filter<R>, ghost u: Forward<R>, ghost image: Image<R>, height: nat, levels: nat, blank: R)
    returns (rows: seq<R>)
    requires Encodes(f, u, image, height, levels) && levels >= 1 && f.steps != 1
    ensures |rows| == height && forall y :: 0 <= y < height ==> rows[y] == image(levels - 1, y)
  {
    var stalls, sources;
    ghost var drawn;
    rows, stalls, sources, drawn := Weave(f, height, levels, blank);
    LevelRows(height, levels, levels - 1);
    RowsRestored(f, u, image, height, levels, rows);
  }

  lemma RowsRestored<R(!new)>(f: Filter<R>, u: Forward<R>, image: Image<R>, height: nat, levels: nat, rows: seq<R>)
    requires Encodes(f, u, image, height, levels) && levels >= 1 && |rows| == Node(height, levels, levels - 1)
    requires forall y :: 0 <= y < |rows| ==> rows[y] == NodeRow(f, height, levels, levels - 1, y)
    ensures forall y :: 0 <= y < |rows| ==> rows[y] == image(levels - 1, y)
  {
    forall y | 0 <= y < |rows| ensures rows[y] == image(levels - 1, y) {
      LevelRestored(f, u, image, height, levels, levels - 1, y);
    }
  }

  // ----- every image has such a pyramid -----

  /** Level l of the analysis of an image: the even rows that the forward transform of the level
      above leaves. */
  function Lowpass<R>(u: Forward<R>, height: nat, levels: nat, top: int -> R, l: nat): int -> R
    requires l < levels && height >= 1
    decreases levels - l
  {
    if l == levels - 1 then top
    else
      LevelRows(height, levels, l + 1);
      Evens(u, Node(height, levels, l + 1), Lowpass(u, height, levels, top, l + 1))
  }

  /** The even rows of the forward transform of a level of h rows. */
  function Evens<R>(u: Forward<R>, h: nat, x: int -> R): int -> R
    requires h >= 1
  {
    k => Coded(u, 0, h - 1, x, 2 * k)
  }

  /** The filter whose bands are those rows, where horizontal synthesis changes nothing. */
  function AnalysisOf<R>(u: Forward<R>, lift: (nat, R, R, R) -> R, halve: R -> R, height: nat, levels: nat,
                         top: int -> R): Filter<R>
    requires height >= 1
  {
    Filter(u.steps,
           (l: nat, y: int) => if l < levels then LevelRows(height, levels, l);
                                                  Coded(u, 0, Node(height, levels, l) - 1,
                                                        Lowpass(u, height, levels, top, l), y)
                               else top(y),
           (l: nat, y: int, r: R) => r, lift, halve)
  }

  function Levels<R>(u: Forward<R>, height: nat, levels: nat, top: int -> R): Image<R>
    requires height >= 1
  {
    (l: nat, y: int) => if l < levels then Lowpass(u, height, levels, top, l)(y) else top(y)
  }

  lemma AnalysisEncodes<R(!new)>(b: Bank<R>, u: Forward<R>, height: nat, levels: nat, top: int -> R)
    requires height >= 1 && Undoes(b, u)
    ensures var f, image := AnalysisOf(u, b.lift, b.halve, height, levels, top), Levels(u, height, levels, top);
            Encodes(f, u, image, height, levels)
  {
    var f, image := AnalysisOf(u, b.lift, b.halve, height, levels, top), Levels(u, height, levels, top);
    forall l: nat, y: int | l < levels && 0 <= y < Node(height, levels, l)
      ensures LevelHolds(f, u, image, height, levels, l, y)
    {
      LevelRows(height, levels, l);
      SameRows(u, 0, Node(height, levels, l) - 1, LevelOf(image, l), Lowpass(u, height, levels, top, l), y);
      if l > 0 && y % 2 == 0 {
        LowpassStep(u, height, levels, top, l, y / 2);
        assert 2 * (y / 2) == y;
      }
    }
  }

  lemma LowpassStep<R>(u: Forward<R>, height: nat, levels: nat, top: int -> R, l: nat, k: int)
    requires 0 < l < levels && height >= 1
    ensures Node(height, levels, l) >= 1
    ensures Levels(u, height, levels, top)(l - 1, k)
         == Coded(u, 0, Node(height, levels, l) - 1, Lowpass(u, height, levels, top, l), 2 * k)
  {
    LevelRows(height, levels, l);
    var m := l - 1;
    assert Lowpass(u, height, levels, top, m)
        == Evens(u, Node(height, levels, m + 1), Lowpass(u, height, levels, top, m + 1));
    EvenRow(u, Node(height, levels, l), Lowpass(u, height, levels, top, l), k);
  }

  lemma EvenRow<R>(u: Forward<R>, h: nat, x: int -> R, k: int)
    requires h >= 1
    ensures Evens(u, h, x)(k) == Coded(u, 0, h - 1, x, 2 * k)
  {
  }

  ghost predicate Same<R(!new)>(x: int -> R, z: int -> R) {
    forall k {:trigger x(k)} :: x(k) == z(k)
  }

  lemma SameRows<R(!new)>(u: Forward<R>, lo: int, hi: int, x: int -> R, z: int -> R, y: int)
    requires lo <= hi && Same(x, z)
    ensures Coded(u, lo, hi, x, y) == Coded(u, lo, hi, z, y)
  {
    if lo < hi {
      SameSteps(u, lo, hi, x, z, u.steps, y);
    }
  }

  lemma {:induction false} SameSteps<R(!new)>(u: Forward<R>, lo: int, hi: int, x: int -> R, z: int -> R, s: nat, y: int)
    requires lo < hi && Same(x, z)
    ensures Analyzed(u, lo, hi, x, s)(y) == Analyzed(u, lo, hi, z, s)(y)
    decreases s
  {
    if s > 0 {
      SameSteps(u, lo, hi, x, z, s - 1, y);
      SameSteps(u, lo, hi, x, z, s - 1, Extended(lo, hi, y - 1));
      SameSteps(u, lo, hi, x, z, s - 1, Extended(lo, hi, y + 1));
      SameStep(u, lo, hi, Analyzed(u, lo, hi, x, s - 1), Analyzed(u, lo, hi, z, s - 1), s - 1, y);
    }
  }

  lemma SameStep<R>(u: Forward<R>, lo: int, hi: int, x: int -> R, z: int -> R, s: nat, y: int)
    requires lo < hi && x(y) == z(y) && x(Extended(lo, hi, y - 1)) == z(Extended(lo, hi, y - 1))
    requires x(Extended(lo, hi, y + 1)) == z(Extended(lo, hi, y + 1))
    ensures Stepped(u, lo, hi, x, s, y) == Stepped(u, lo, hi, z, s, y)
  {
  }

  /** Any image, analyzed over any number of levels, comes out of the ladder unchanged. */
  method AnalyzeAndRestore<R(!new)>(b: Bank<R>, u: Forward<R>, height: nat, levels: nat, top: int -> R, blank: R)
    returns (rows: seq<R>)
    requires Undoes(b, u) && height >= 1 && levels >= 1 && b.steps != 1
    ensures |rows| == height && forall y :: 0 <= y < height ==> rows[y] == top(y)
  {
    AnalysisEncodes(b, u, height, levels, top);
    var f := AnalysisOf(u, b.lift, b.halve, height, levels, top);
    rows := Restore(f, u, Levels(u, height, levels, top), height, levels, blank);
    assert Lowpass(u, height, levels, top, levels - 1) == top;
  }

  /** One level: the engine puts out the image whose forward transform it takes in. */
  method RestoreLevel<R(!new)>(b: Bank<R>, ghost u: Forward<R>, g: Geometry, ghost image: int -> R, blank: R)
    returns (rows: seq<R>)
    requires b.steps != 1 && g.Spans() && Undoes(b, u)
    requires forall y :: g.lo <= y <= g.hi ==> b.input(y) == Coded(u, g.lo, g.hi, image, y)
    ensures |rows| == g.outHi - g.outLo + 1 && forall i :: 0 <= i < |rows| ==> rows[i] == image(g.outLo + i)
  {
    rows := WeaveAll(b, g, blank);
    forall i | 0 <= i < |rows| ensures rows[i] == image(g.outLo + i) {
      OutputsAt(b, g, |rows|, i);
      Reconstruction(b, u, g, image, g.outLo + i);
    }
  }
}
