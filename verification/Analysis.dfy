/** The forward lifting transform (section F.4 of ISO/IEC 15444-1), written on plain row numbers,
    and the law that ties the inverse to it: what was analysed is reconstructed. */
module Analysis {
  import opened Arith
  import opened Lifting

  /** The undoing of each lifting step and of the halving. */
  datatype Forward<!R> = Forward(steps: nat, unlift: (nat, R, R, R) -> R, double: R -> R)

  /** Lifting undoes unlifting. */
  ghost predicate Undoes<R(!new)>(b: Bank<R>, f: Forward<R>) {
    && b.steps == f.steps
    && (forall s: nat, x, u, d {:trigger f.unlift(s, x, u, d)} :: b.lift(s, f.unlift(s, x, u, d), u, d) == x)
    && (forall x {:trigger f.double(x)} :: b.halve(f.double(x)) == x)
  }

  /** Lifting by adding and subtracting what is predicted from the neighbours, as all the filters
      of the standard do, undoes itself, whatever the prediction. */
  lemma PredictionsUndo(steps: nat, predict: (nat, int, int) -> int, input: int -> int)
    ensures Undoes(Bank(steps, input, (s: nat, x: int, u: int, d: int) => x - predict(s, u, d), x => x / 2),
                   Forward(steps, (s: nat, x: int, u: int, d: int) => x + predict(s, u, d), x => 2 * x))
  {
  }

  /** t mod n, by repeated addition or subtraction. */
  function Residue(t: int, n: nat): (r: int)
    requires n > 0
    ensures 0 <= r < n
    decreases if t < 0 then -t else t
  {
    if t < 0 then (if t + n >= 0 then t + n else Residue(t + n, n))
    else if t < n then t
    else Residue(t - n, n)
  }

  lemma {:induction false} ResidueIs(t: int, n: nat)
    requires n > 0
    ensures Residue(t, n) == t % n
    decreases if t < 0 then -t else t
  {
    if t < 0 {
      ModShift(t, n);
      if t + n >= 0 {
        ModIs(t + n, n, 0, t + n);
      } else {
        ResidueIs(t + n, n);
      }
    } else if t < n {
      ModIs(t, n, 0, t);
    } else {
      ModShift(t - n, n);
      ResidueIs(t - n, n);
    }
  }

  lemma ModShift(t: int, n: nat)
    requires n > 0
    ensures (t + n) % n == t % n
  {
    var q, r := t / n, t % n;
    MulAdd(q, 1, n);
    ModIs(t + n, n, q + 1, r);
  }

  /** Row k of rows lo..hi extended periodically and symmetrically. */
  function Extended(lo: int, hi: int, k: int): (r: int)
    requires lo < hi
    ensures lo <= r <= hi
  {
    var t := Residue(k - lo, 2 * (hi - lo));
    if t <= hi - lo then lo + t else hi - (t - (hi - lo))
  }

  /** The closed formula of the extension (section F.4.7 of ISO/IEC 15444-1). */
  lemma ExtendedFormula(lo: int, hi: int, k: int)
    requires lo < hi
    ensures var t := (k - lo) % (2 * (hi - lo));
            Extended(lo, hi, k) == lo + if t <= hi - lo then t else 2 * (hi - lo) - t
  {
    ResidueIs(k - lo, 2 * (hi - lo));
  }

  /** Row y after step s, from the rows x before it: the rows of one parity are rewritten from
      the rows before and after them. */
  function Stepped<R>(f: Forward<R>, lo: int, hi: int, x: int -> R, s: nat, y: int): R
    requires lo < hi
  {
    if Par(y + s) == 0 then x(y)
    else f.unlift(s, x(y), x(Extended(lo, hi, y - 1)), x(Extended(lo, hi, y + 1)))
  }

  /** The rows when the first s steps have been taken. */
  function Analyzed<R>(f: Forward<R>, lo: int, hi: int, image: int -> R, s: nat): int -> R
    requires lo < hi
  {
    if s == 0 then image else y => Stepped(f, lo, hi, Analyzed(f, lo, hi, image, s - 1), s - 1, y)
  }

  /** The rows of a level in the code stream: a lone row is not lifted, but doubled if odd. */
  function Coded<R>(f: Forward<R>, lo: int, hi: int, image: int -> R, y: int): R
    requires lo <= hi
  {
    if lo < hi then Analyzed(f, lo, hi, image, f.steps)(y)
    else if y % 2 == 1 then f.double(image(y))
    else image(y)
  }

  lemma ExtendedIs(g: Geometry, y: int)
    requires g.Valid() && g.lo <= y <= g.hi
    ensures Extended(g.lo, g.hi, y - 1) == Up(g, y) && Extended(g.lo, g.hi, y + 1) == Down(g, y)
  {
  }

  lemma ModIs(x: int, d: int, q: int, r: int)
    requires d > 0 && x == q * d + r && 0 <= r < d
    ensures x % d == r
  {
    var p, m := x / d, x % d;
    assert x == p * d + m;
    MulAdd(p, -q, d);
    MulApart(p - q, d, r - m);
  }

  // ----- the inverse undoes it -----

  lemma ParityIs(y: int, s: nat)
    ensures Par(y) == Parity(s) <==> Par(y + s) == 1
  {
    ParIs(y);
    ParIs(s);
    ParIs(y + s);
  }

  lemma Cancel<R(!new)>(b: Bank<R>, f: Forward<R>, s: nat, x: R, u: R, d: R)
    requires Undoes(b, f)
    ensures b.lift(s, f.unlift(s, x, u, d), u, d) == x
  {
  }

  /** The neighbours of a row that step s rewrites are not rewritten by it. */
  lemma OtherParity(lo: int, hi: int, y: int, s: nat)
    requires lo < hi && lo <= y <= hi && Par(y + s) == 1
    ensures Par(Extended(lo, hi, y - 1) + s) == Par(Extended(lo, hi, y + 1) + s) == 0
  {
    var g := Geometry(lo, hi, lo, hi);
    ExtendedIs(g, y);
    NeighbourParity(g, y);
    ParityIs(y, s);
    ParityIs(Up(g, y), s);
    ParityIs(Down(g, y), s);
  }

  /** Lifting row y from rows that forward step s has left gives the row before that step. */
  lemma StepCancels<R(!new)>(b: Bank<R>, f: Forward<R>, g: Geometry, x: int -> R, s: nat, y: int)
    requires g.Valid() && Undoes(b, f) && g.lo <= y <= g.hi && Par(y) == Parity(s)
    ensures b.lift(s, Stepped(f, g.lo, g.hi, x, s, y), Stepped(f, g.lo, g.hi, x, s, Up(g, y)),
                   Stepped(f, g.lo, g.hi, x, s, Down(g, y)))
         == x(y)
  {
    ParityIs(y, s);
    ExtendedIs(g, y);
    OtherParity(g.lo, g.hi, y, s);
    Cancel(b, f, s, x(y), x(Up(g, y)), x(Down(g, y)));
  }

  /** The level's input is what the forward transform of the image leaves. */
  ghost predicate Holds<R(!new)>(b: Bank<R>, f: Forward<R>, g: Geometry, image: int -> R)
    requires g.lo < g.hi
  {
    forall z {:trigger b.input(z)} ::
      g.lo <= z <= g.hi ==> b.input(z) == Analyzed(f, g.lo, g.hi, image, b.steps)(z)
  }

  lemma Coding<R(!new)>(b: Bank<R>, f: Forward<R>, g: Geometry, image: int -> R, y: int)
    requires g.lo < g.hi && Holds(b, f, g, image) && g.lo <= y <= g.hi
    ensures Agrees(b, f, g, image, b.steps, y)
  {
    assert b.input(y) == Analyzed(f, g.lo, g.hi, image, b.steps)(y);
  }

  /** Row y agrees before and after step s. */
  ghost predicate Agrees<R>(b: Bank<R>, f: Forward<R>, g: Geometry, image: int -> R, s: nat, y: int)
    requires g.lo < g.hi && s <= b.steps
  {
    After(b, g, s, y) == Analyzed(f, g.lo, g.hi, image, s)(y)
  }

  lemma StepAgrees<R(!new)>(b: Bank<R>, f: Forward<R>, g: Geometry, image: int -> R, s: nat, y: int)
    requires g.Valid() && Undoes(b, f) && s < b.steps && g.lo <= y <= g.hi && Agrees(b, f, g, image, s + 1, y)
    requires Par(y) == Parity(s) ==>
      Agrees(b, f, g, image, s + 1, Up(g, y)) && Agrees(b, f, g, image, s + 1, Down(g, y))
    ensures Agrees(b, f, g, image, s, y)
  {
    ParityIs(y, s);
    if Par(y) == Parity(s) {
      LiftRow(b, g, s, y);
      StepCancels(b, f, g, Analyzed(f, g.lo, g.hi, image, s), s, y);
    } else {
      SettledRow(b, g, s, y);
    }
  }

  /** The rows that the inverse steps from s on leave are those that the forward steps before s
      had left. */
  lemma {:induction false} StepsCancel<R(!new)>(b: Bank<R>, f: Forward<R>, g: Geometry, image: int -> R, s: nat, y: int)
    requires g.Valid() && Undoes(b, f) && s <= b.steps && g.lo <= y <= g.hi && Holds(b, f, g, image)
    ensures Agrees(b, f, g, image, s, y)
    decreases b.steps - s, 0
  {
    if s == b.steps {
      Coding(b, f, g, image, y);
    } else {
      StepsCancel(b, f, g, image, s + 1, y);
      if Par(y) == Parity(s) {
        NeighboursAgree(b, f, g, image, s + 1, y);
      }
      StepAgrees(b, f, g, image, s, y);
    }
  }

  lemma NeighboursAgree<R(!new)>(b: Bank<R>, f: Forward<R>, g: Geometry, image: int -> R, s: nat, y: int)
    requires g.Valid() && Undoes(b, f) && s <= b.steps && g.lo <= y <= g.hi && Holds(b, f, g, image)
    ensures Agrees(b, f, g, image, s, Up(g, y)) && Agrees(b, f, g, image, s, Down(g, y))
    decreases b.steps - s, 1
  {
    NeighbourParity(g, y);
    StepsCancel(b, f, g, image, s, Up(g, y));
    StepsCancel(b, f, g, image, s, Down(g, y));
  }

  /** Perfect reconstruction: a level whose input is the forward transform of an image has the
      image for its output. */
  lemma Reconstruction<R(!new)>(b: Bank<R>, f: Forward<R>, g: Geometry, image: int -> R, y: int)
    requires g.Spans() && Undoes(b, f) && g.lo <= y <= g.hi
    requires forall z :: g.lo <= z <= g.hi ==> b.input(z) == Coded(f, g.lo, g.hi, image, z)
    ensures Output(b, g, y) == image(y)
  {
    ParIs(y);
    if g.lo < g.hi {
      assert Holds(b, f, g, image);
      StepsCancel(b, f, g, image, 0, y);
    }
  }

  // ----- both transforms in place -----

  /** Row z while step s has come down to row y. */
  function Partly<R>(f: Forward<R>, lo: int, hi: int, x: int -> R, s: nat, y: int, z: int): R
    requires lo < hi
  {
    if z < y then Stepped(f, lo, hi, x, s, z) else x(z)
  }

  lemma NotYet<R>(f: Forward<R>, lo: int, hi: int, x: int -> R, s: nat, y: int, z: int)
    requires lo < hi && (z >= y || Par(z + s) == 0)
    ensures Partly(f, lo, hi, x, s, y, z) == x(z)
  {
  }

  method UnliftOne<R>(f: Forward<R>, lo: int, hi: int, ghost x: int -> R, a: array<R>, s: nat, y: int)
    requires lo < hi && a.Length == hi - lo + 1 && lo <= y <= hi && Par(y + s) == 1
    requires forall i :: 0 <= i < a.Length ==> a[i] == Partly(f, lo, hi, x, s, y, lo + i)
    modifies a
    ensures forall i :: 0 <= i < a.Length ==> a[i] == Partly(f, lo, hi, x, s, y + 1, lo + i)
  {
    OtherParity(lo, hi, y, s);
    NotYet(f, lo, hi, x, s, y, y);
    NotYet(f, lo, hi, x, s, y, Extended(lo, hi, y - 1));
    NotYet(f, lo, hi, x, s, y, Extended(lo, hi, y + 1));
    var up, at, down := Extended(lo, hi, y - 1) - lo, y - lo, Extended(lo, hi, y + 1) - lo;
    assert lo + up == Extended(lo, hi, y - 1) && lo + down == Extended(lo, hi, y + 1) && lo + at == y;
    var row := f.unlift(s, a[at], a[up], a[down]);
    assert row == Stepped(f, lo, hi, x, s, y);
    forall z | z != y ensures Partly(f, lo, hi, x, s, y + 1, z) == Partly(f, lo, hi, x, s, y, z) {
    }
    a[at] := row;
  }

  lemma PartlySame<R>(f: Forward<R>, lo: int, hi: int, x: int -> R, s: nat, y: int, z: int)
    requires lo < hi && Par(y + s) == 0
    ensures Partly(f, lo, hi, x, s, y + 1, z) == Partly(f, lo, hi, x, s, y, z)
  {
  }

  /** One forward step, top to bottom. */
  method UnliftInPlace<R>(f: Forward<R>, lo: int, hi: int, ghost x: int -> R, a: array<R>, s: nat)
    requires lo < hi && a.Length == hi - lo + 1 && forall i :: 0 <= i < a.Length ==> a[i] == x(lo + i)
    modifies a
    ensures forall i :: 0 <= i < a.Length ==> a[i] == Stepped(f, lo, hi, x, s, lo + i)
  {
    var y := lo;
    while y <= hi
      invariant lo <= y <= hi + 1
      invariant forall i :: 0 <= i < a.Length ==> a[i] == Partly(f, lo, hi, x, s, y, lo + i)
    {
      if Par(y + s) == 1 {
        UnliftOne(f, lo, hi, x, a, s, y);
      } else {
        forall i | 0 <= i < a.Length ensures a[i] == Partly(f, lo, hi, x, s, y + 1, lo + i) {
          PartlySame(f, lo, hi, x, s, y, lo + i);
        }
      }
      y := y + 1;
    }
  }

  /** The forward transform of a level, in place. */
  method Analyze<R>(f: Forward<R>, lo: int, hi: int, ghost image: int -> R, a: array<R>)
    requires lo < hi && a.Length == hi - lo + 1 && forall i :: 0 <= i < a.Length ==> a[i] == image(lo + i)
    modifies a
    ensures forall i :: 0 <= i < a.Length ==> a[i] == Analyzed(f, lo, hi, image, f.steps)(lo + i)
  {
    var s := 0;
    while s < f.steps
      invariant s <= f.steps
      invariant forall i :: 0 <= i < a.Length ==> a[i] == Analyzed(f, lo, hi, image, s)(lo + i)
    {
      UnliftInPlace(f, lo, hi, Analyzed(f, lo, hi, image, s), a, s);
      s := s + 1;
    }
  }

  /** The rows of s, numbered from lo on. */
  function Rows<R>(s: seq<R>, lo: int): int -> R
    requires |s| > 0
  {
    y => if 0 <= y - lo < |s| then s[y - lo] else s[0]
  }

  /** Analysing an image and then lifting it, both in place, gives it back. */
  method RoundTrip<R(!new)>(b: Bank<R>, f: Forward<R>, lo: int, hi: int, a: array<R>)
    requires lo < hi && a.Length == hi - lo + 1 && b.steps >= 1 && Undoes(b, f)
    modifies a
    ensures a[..] == old(a[..])
  {
    ghost var image := Rows(a[..], lo);
    Analyze(f, lo, hi, image, a);
    var coded := Bank(b.steps, Rows(a[..], lo), b.lift, b.halve);
    var g := Geometry(lo, hi, lo, hi);
    RowsAre(f, lo, hi, image, a[..]);
    LiftAll(coded, g, a);
    forall i | 0 <= i < a.Length ensures a[i] == image(lo + i) {
      Restored(b, coded, f, g, image, lo + i);
    }
  }

  lemma Restored<R(!new)>(b: Bank<R>, coded: Bank<R>, f: Forward<R>, g: Geometry, image: int -> R, y: int)
    requires g.Valid() && b.steps >= 1 && Undoes(b, f) && g.lo <= y <= g.hi && coded == b.(input := coded.input)
    requires Holds(coded, f, g, image)
    ensures Woven(coded, g, y) == image(y)
  {
    StepsCancel(coded, f, g, image, 0, y);
  }

  lemma RowsAre<R>(f: Forward<R>, lo: int, hi: int, image: int -> R, rows: seq<R>)
    requires lo < hi && |rows| == hi - lo + 1
    requires forall i :: 0 <= i < |rows| ==> rows[i] == Analyzed(f, lo, hi, image, f.steps)(lo + i)
    ensures forall z :: lo <= z <= hi ==> Rows(rows, lo)(z) == Analyzed(f, lo, hi, image, f.steps)(z)
  {
    forall z | lo <= z <= hi ensures Rows(rows, lo)(z) == Analyzed(f, lo, hi, image, f.steps)(z) {
      assert rows[z - lo] == Analyzed(f, lo, hi, image, f.steps)(lo + (z - lo));
    }
  }
}
