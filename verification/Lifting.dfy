/** Inverse vertical lifting of a wavelet level, whole image at once: the plain meaning that
    the streaming engine is measured against.  Rows lo..hi of both parities are interleaved;
    step s rewrites the rows of one parity from their two neighbours. */
module Lifting {

  /** A level: its input rows and the window of rows asked for. */
  datatype Geometry = Geometry(lo: int, hi: int, outLo: int, outHi: int) {
    predicate Spans() {
      lo <= outLo <= outHi <= hi
    }

    predicate Valid() {
      lo < hi && Spans()
    }
  }

  /** The lifting steps: `input(y)` is row y after horizontal synthesis, and lift(s, x, a, b)
      is row x updated by step s from the rows a before and b after it.  `halve` is what a
      reversible filter does to an odd row that is alone (for other filters, nothing). */
  datatype Bank<!R> = Bank(steps: nat, input: int -> R, lift: (nat, R, R, R) -> R, halve: R -> R)

  /** 0 for even rows and 1 for odd ones; defined by counting, so that proofs use just the
      facts about parity that they name. */
  function Par(y: int): (p: int)
    ensures 0 <= p <= 1
    decreases if y < 0 then -y else y
  {
    if y == 0 then 0 else 1 - Par(if y > 0 then y - 1 else y + 1)
  }

  lemma {:induction false} ParIs(y: int)
    ensures Par(y) == y % 2
    decreases if y < 0 then -y else y
  {
    if y > 0 {
      ParIs(y - 1);
    } else if y < 0 {
      ParIs(y + 1);
    }
  }

  lemma ParNext(y: int)
    ensures Par(y + 1) == Par(y - 1) == 1 - Par(y) && Par(y + 2) == Par(y - 2) == Par(y)
  {
    ParIs(y);
    ParIs(y + 1);
    ParIs(y - 1);
    ParIs(y + 2);
    ParIs(y - 2);
  }

  lemma ParGap(a: int, b: int)
    requires Par(a) == Par(b) && a < b
    ensures a + 2 <= b
  {
    ParNext(a);
  }

  lemma ParHalf(a: int, b: int)
    requires Par(a) == Par(b) && a <= b
    ensures a + 2 * ((b - a) / 2) == b
  {
    ParIs(a);
    ParIs(b);
  }

  lemma {:induction false} ParStride(a: int, k: nat)
    ensures Par(a + 2 * k) == Par(a)
  {
    ParIs(a);
    ParIs(a + 2 * k);
  }

  /** The parity of the rows that step s rewrites, and that the queue it feeds holds. */
  function Parity(s: nat): int {
    1 - Par(s)
  }

  function FirstRow(g: Geometry, p: int): int {
    if Par(g.lo) == p then g.lo else g.lo + 1
  }

  function LastRow(g: Geometry, p: int): int {
    if Par(g.hi) == p then g.hi else g.hi - 1
  }

  /** The neighbours of a row, mirrored at the edges. */
  function Up(g: Geometry, y: int): int {
    if y - 1 < g.lo then 2 * g.lo - (y - 1) else y - 1
  }

  function Down(g: Geometry, y: int): int {
    if y + 1 > g.hi then 2 * g.hi - (y + 1) else y + 1
  }

  /** Row y after step s; s == steps stands for the fresh row. */
  function Row<R>(b: Bank<R>, g: Geometry, s: nat, y: int): R
    requires s <= b.steps
    decreases b.steps - s
  {
    if s == b.steps then b.input(y)
    else
      var x := if s + 1 == b.steps then b.input(y) else Row(b, g, s + 2, y);
      b.lift(s, x, Row(b, g, s + 1, Up(g, y)), Row(b, g, s + 1, Down(g, y)))
  }

  /** Row y of the image: step 0 has the last word on odd rows and step 1 on even ones. */
  function Woven<R>(b: Bank<R>, g: Geometry, y: int): R
    requires b.steps >= 1
  {
    Row(b, g, if Par(y) == 0 then 1 else 0, y)
  }

  /** There is nothing to lift: no steps, or a single row. */
  predicate Plain<R>(b: Bank<R>, g: Geometry) {
    b.steps == 0 || g.lo == g.hi
  }

  /** Row y of a level. */
  function Output<R>(b: Bank<R>, g: Geometry, y: int): R {
    if !Plain(b, g) then Woven(b, g, y)
    else if g.lo == g.hi && Par(y) == 1 then b.halve(b.input(y))
    else b.input(y)
  }

  /** The rows of the array when the steps from s on are done. */
  ghost predicate Lifted<R>(b: Bank<R>, g: Geometry, a: array<R>, s: nat)
    requires s <= b.steps
    reads a
  {
    && a.Length == g.hi - g.lo + 1
    && forall i :: 0 <= i < a.Length ==> a[i] == After(b, g, s, g.lo + i)
  }

  /** Row y once the steps from s on are done. */
  function After<R>(b: Bank<R>, g: Geometry, s: nat, y: int): R
    requires s <= b.steps
  {
    if s == b.steps then b.input(y)
    else if Par(y) == Parity(s) then Row(b, g, s, y)
    else Row(b, g, s + 1, y)
  }

  lemma NeighbourParity(g: Geometry, y: int)
    requires g.Valid() && g.lo <= y <= g.hi
    ensures g.lo <= Up(g, y) <= g.hi && g.lo <= Down(g, y) <= g.hi
    ensures Par(Up(g, y)) == Par(Down(g, y)) == 1 - Par(y)
  {
    ParNext(y);
  }

  /** Row y while step s has come down to row `next`. */
  function During<R>(b: Bank<R>, g: Geometry, s: nat, next: int, y: int): R
    requires s < b.steps
  {
    if y < next && Par(y) == Parity(s) then Row(b, g, s, y) else After(b, g, s + 1, y)
  }

  /** Rows of the other parity are not touched by step s. */
  lemma SettledRow<R>(b: Bank<R>, g: Geometry, s: nat, y: int)
    requires s < b.steps && Par(y) != Parity(s)
    ensures After(b, g, s, y) == After(b, g, s + 1, y) == Row(b, g, s + 1, y)
  {
    ParNext(s);
  }

  /** Before step s, its rows are as step s + 2 left them, or fresh. */
  lemma InputRow<R>(b: Bank<R>, g: Geometry, s: nat, y: int)
    requires s < b.steps && Par(y) == Parity(s)
    ensures After(b, g, s + 1, y) == if s + 1 == b.steps then b.input(y) else Row(b, g, s + 2, y)
  {
    ParNext(s);
  }

  lemma LiftRow<R>(b: Bank<R>, g: Geometry, s: nat, y: int)
    requires g.Valid() && s < b.steps && g.lo <= y <= g.hi && Par(y) == Parity(s)
    ensures b.lift(s, After(b, g, s + 1, y), After(b, g, s + 1, Up(g, y)), After(b, g, s + 1, Down(g, y)))
         == Row(b, g, s, y)
  {
    NeighbourParity(g, y);
    InputRow(b, g, s, y);
    SettledRow(b, g, s, Up(g, y));
    SettledRow(b, g, s, Down(g, y));
  }

  lemma StepDone<R>(b: Bank<R>, g: Geometry, s: nat, y: int)
    requires s < b.steps && y <= g.hi
    ensures During(b, g, s, g.hi + 1, y) == During(b, g, s, g.hi + 2, y) == After(b, g, s, y)
  {
    if Par(y) != Parity(s) {
      SettledRow(b, g, s, y);
    }
  }

  lemma DuringStep<R>(b: Bank<R>, g: Geometry, s: nat, y: int, z: int)
    requires s < b.steps && Par(y) == Parity(s) && z != y
    ensures During(b, g, s, y + 2, z) == During(b, g, s, y, z)
  {
    ParNext(y);
  }

  /** Rows of the other parity, and rows not yet reached, are as the steps before left them. */
  lemma DuringAhead<R>(b: Bank<R>, g: Geometry, s: nat, y: int, z: int)
    requires s < b.steps && (Par(z) != Parity(s) || z >= y)
    ensures During(b, g, s, y, z) == After(b, g, s + 1, z)
  {
  }

  method LiftOne<R>(b: Bank<R>, g: Geometry, a: array<R>, s: nat, y: int)
    requires g.Valid() && s < b.steps && g.lo <= y <= g.hi && Par(y) == Parity(s) && a.Length == g.hi - g.lo + 1
    requires forall i :: 0 <= i < a.Length ==> a[i] == During(b, g, s, y, g.lo + i)
    modifies a
    ensures forall i :: 0 <= i < a.Length ==> a[i] == During(b, g, s, y + 2, g.lo + i)
  {
    NeighbourParity(g, y);
    DuringAhead(b, g, s, y, y);
    DuringAhead(b, g, s, y, Up(g, y));
    DuringAhead(b, g, s, y, Down(g, y));
    LiftRow(b, g, s, y);
    var up, at, down := Up(g, y) - g.lo, y - g.lo, Down(g, y) - g.lo;
    assert g.lo + up == Up(g, y) && g.lo + down == Down(g, y) && g.lo + at == y;
    var row := b.lift(s, a[at], a[up], a[down]);
    assert row == Row(b, g, s, y);
    forall z | z != y ensures During(b, g, s, y + 2, z) == During(b, g, s, y, z) {
      DuringStep(b, g, s, y, z);
    }
    a[at] := row;
  }

  /** One lifting step in place: the rows of its parity, top to bottom. */
  method LiftInPlace<R>(b: Bank<R>, g: Geometry, a: array<R>, s: nat)
    requires g.Valid() && s < b.steps && Lifted(b, g, a, s + 1)
    modifies a
    ensures Lifted(b, g, a, s)
  {
    var y := FirstRow(g, Parity(s));
    ParNext(g.lo);
    while y <= g.hi
      invariant g.lo <= y <= g.hi + 2 && Par(y) == Parity(s)
      invariant forall i :: 0 <= i < a.Length ==> a[i] == During(b, g, s, y, g.lo + i)
    {
      LiftOne(b, g, a, s, y);
      ParNext(y);
      y := y + 2;
    }
    forall i | 0 <= i < a.Length ensures a[i] == After(b, g, s, g.lo + i) {
      StepDone(b, g, s, g.lo + i);
    }
  }

  /** The whole-image inverse transform: all the steps, the last one first. */
  method LiftAll<R>(b: Bank<R>, g: Geometry, a: array<R>)
    requires g.Valid() && b.steps >= 1 && a.Length == g.hi - g.lo + 1
    requires forall i :: 0 <= i < a.Length ==> a[i] == b.input(g.lo + i)
    modifies a
    ensures forall i :: 0 <= i < a.Length ==> a[i] == Woven(b, g, g.lo + i)
  {
    var s: nat := b.steps;
    while s > 0
      invariant s <= b.steps && Lifted(b, g, a, s)
    {
      s := s - 1;
      LiftInPlace(b, g, a, s);
    }
    forall i | 0 <= i < a.Length ensures a[i] == Woven(b, g, g.lo + i) {
      assert a[i] == After(b, g, 0, g.lo + i);
    }
  }
}
