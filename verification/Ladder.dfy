/** The pull ladder of mercury_bench_dwt: one thread drives a pyramid of synthesis engines,
    each of which stalls when the level below owes it a low-pass row. */
module Ladder {
  import opened Arith
  import opened Bytes
  import opened Lifting
  import opened Synthesis

  // ----- level geometry -----

  /** The extent of `full` samples after `shift` halvings. */
  function Dim(full: nat, shift: nat): nat {
    (full + Pow2(shift) - 1) / Pow2(shift)
  }

  /** Level l of a pyramid, smallest level first: rows of the node it weaves, and rows of
      the four bands it weaves them from. */
  datatype Level = Level(node: nat, ll: nat, lh: int)

  function Spec(height: nat, levels: nat, l: nat): Level
    requires l < levels
  {
    var nh, lh := Dim(height, levels - 1 - l), Dim(height, levels - l);
    Level(nh, lh, nh - lh)
  }

  /** The least multiple of d at or above n, as a bound: what a ceiling division means. */
  predicate IsCeiling(n: nat, d: nat, q: nat) {
    n <= q * d < n + d
  }

  lemma CeilingUnique(n: nat, d: nat, p: nat, q: nat)
    requires d > 0 && IsCeiling(n, d, p) && IsCeiling(n, d, q)
    ensures p == q
  {
    MulAdd(p - q, q, d);
    MulApart(p - q, d, p * d - q * d);
  }

  lemma DimIsCeiling(full: nat, shift: nat)
    ensures IsCeiling(full, Pow2(shift), Dim(full, shift))
  {
    var d, x := Pow2(shift), full + Pow2(shift) - 1;
    assert x == (x / d) * d + x % d;
  }

  /** Halving twice in one go or one at a time is the same: nested ceiling division. */
  lemma DimNests(full: nat, shift: nat)
    ensures Dim(full, shift + 1) == (Dim(full, shift) + 1) / 2
  {
    var d, q := Pow2(shift), Dim(full, shift);
    var p := (q + 1) / 2;
    DimIsCeiling(full, shift);
    DimIsCeiling(full, shift + 1);
    NestedCeiling(full, d, q, p);
    CeilingUnique(full, 2 * d, Dim(full, shift + 1), p);
  }

  lemma NestedCeiling(n: nat, d: nat, q: nat, p: nat)
    requires d > 0 && IsCeiling(n, d, q) && (q == 2 * p || q + 1 == 2 * p)
    ensures IsCeiling(n, 2 * d, p)
  {
    if q == 2 * p {
      assert p * (2 * d) == q * d;
    } else {
      assert p * (2 * d) == (q + 1) * d == q * d + d;
    }
  }

  lemma {:induction false} DimPositive(full: nat, shift: nat)
    requires full >= 1
    ensures Dim(full, shift) >= 1
  {
    DimIsCeiling(full, shift);
    assert Dim(full, shift) == 0 ==> Dim(full, shift) * Pow2(shift) == 0;
  }

  /** Every level weaves twice the rows of the one below, to within the odd row, and the
      low-pass rows of a level are the node rows of the level below. */
  lemma LevelRows(height: nat, levels: nat, l: nat)
    requires height >= 1 && l < levels
    ensures var s := Spec(height, levels, l);
            && s.ll == (s.node + 1) / 2 && s.lh == s.node / 2 && s.node >= 1
            && (l + 1 < levels ==> Spec(height, levels, l + 1).ll == s.node)
            && (l + 1 == levels ==> s.node == height)
  {
    DimNests(height, levels - 1 - l);
    DimPositive(height, levels - 1 - l);
  }

  // ----- the whole pyramid at once -----

  /** The filter of a pyramid, row by row.  leaf(l, y) is fresh row y of level l when its bands
      come from the code stream; join(l, y, r) is fresh row y when its low-pass half is row r
      of the level below. */
  datatype Filter<!R> = Filter(
    steps: nat,
    leaf: (nat, int) -> R,
    join: (nat, int, R) -> R,
    lift: (nat, R, R, R) -> R,
    halve: R -> R)

  function Node(height: nat, levels: nat, l: nat): nat
    requires l < levels
  {
    Spec(height, levels, l).node
  }

  /** The window of a level of h rows. */
  function Window(h: nat): Geometry {
    Geometry(0, h - 1, 0, h - 1)
  }

  /** The lifting of level l: its even rows join rows of the level below. */
  function BankAt<R>(f: Filter<R>, height: nat, levels: nat, l: nat): Bank<R>
    requires l < levels
    decreases l, 0
  {
    Bank(f.steps,
         y => if l == 0 || Par(y) == 1 then f.leaf(l, y) else f.join(l, y, NodeRow(f, height, levels, l - 1, y / 2)),
         f.lift, f.halve)
  }

  /** Row y of level l by the whole-image transforms of the levels up to l. */
  function NodeRow<R>(f: Filter<R>, height: nat, levels: nat, l: nat, y: int): R
    requires l < levels
    decreases l, 1
  {
    Output(BankAt(f, height, levels, l), Window(Node(height, levels, l)), y)
  }

  /** What the ladder has to do: the filter, the rows of every level, its lifting, and the rows
      that are to come out of it. */
  datatype Plan<!R> = Plan(filter: Filter<R>, nodes: seq<nat>, banks: seq<Bank<R>>, row: (nat, int) -> R)

  /** Level j makes the rows it should. */
  ghost predicate Makes<R>(p: Plan<R>, j: nat)
    requires j < |p.nodes| == |p.banks|
  {
    forall y :: Output(p.banks[j], Window(p.nodes[j]), y) == p.row(j, y)
  }

  /** Even row y of level j joins row y / 2 of the level below; the other rows come from the code
      stream alone. */
  ghost predicate Joins<R>(p: Plan<R>, j: nat)
    requires j < |p.banks|
  {
    forall y {:trigger p.banks[j].input(y)} ::
      p.banks[j].input(y) == if j == 0 || Par(y) == 1 then p.filter.leaf(j, y)
                             else p.filter.join(j, y, p.row(j - 1, y / 2))
  }

  /** Level j + 1 has twice the rows of level j, to within the odd row. */
  predicate Halves(nodes: seq<nat>, j: nat)
    requires j + 1 < |nodes|
  {
    nodes[j + 1] <= 2 * nodes[j] <= nodes[j + 1] + 1
  }

  ghost predicate PlanOk<R>(p: Plan<R>) {
    && |p.nodes| == |p.banks| >= 1 && (forall j :: 0 <= j < |p.nodes| ==> p.nodes[j] >= 1)
    && forall j :: 0 <= j < |p.nodes| - 1 ==> Halves(p.nodes, j)
  }

  // ----- engines and sources -----

  /** A level's queue of low-pass rows and its spare row buffers. */
  datatype Source<!R> = Source(ll: seq<R>, free: seq<R>)

  /** Twice the number of low-pass rows that an engine has taken in. */
  ghost function Taken<R>(e: Engine<R>): int
    reads e
  {
    if |e.heads| == 2 then e.heads[0] else 0
  }

  /** subband_ready, as how far the even and the odd fresh rows reach: only the low-pass rows
      of a level above the lowest can be missing. */
  function Supply(head: int, hi: int, n: nat, lowest: bool): seq<int> {
    [if lowest then hi + 1 else head + 2 * n, hi + 1]
  }

  /** pack: fresh row y of level l, from row `head` on, is packed from the front of the queue or
      from the code stream. */
  function Packing<R>(f: Filter<R>, l: nat, head: int, ll: seq<R>): int -> R {
    y => if l == 0 || Par(y) == 1 || !(0 <= (y - head) / 2 < |ll|) then f.leaf(l, y)
         else f.join(l, y, ll[(y - head) / 2])
  }

  /** pack: the rows taken in leave the queue, and their buffers become spare. */
  function Packed<R>(src: Source<R>, n: nat): Source<R>
    requires n <= |src.ll|
  {
    Source(src.ll[n..], src.free + src.ll[..n])
  }

  /** Level j while the ladder stands at level l, where ys are the rows put out by each level
      and ts twice the low-pass rows taken in. */
  ghost predicate LevelOk<R>(p: Plan<R>, ys: seq<int>, ts: seq<int>, sources: seq<Source<R>>, j: nat, l: nat)
    requires j < |p.nodes| == |ys| == |ts| == |sources|
  {
    var src := sources[j];
    && |src.ll| + |src.free| <= 1 && (j == 0 ==> src == Source([], []))
    && (j > 0 ==> 2 * ys[j - 1] == ts[j] + 2 * |src.ll|)
    && (j > 0 && src.ll != [] ==> src.ll[0] == p.row(j - 1, ys[j - 1] - 1))
    && (j > l ==> src.ll == [] && ts[j] < p.nodes[j])
  }

  ghost predicate LevelsOk<R>(p: Plan<R>, ys: seq<int>, ts: seq<int>, sources: seq<Source<R>>, l: nat) {
    && |p.nodes| == |ys| == |ts| == |sources|
    && forall j :: 0 <= j < |sources| ==> LevelOk(p, ys, ts, sources, j, l)
  }

  /** Level j's engine fits its level, has put out y rows, and has taken in t / 2 low-pass rows. */
  ghost predicate EngineOk<R>(p: Plan<R>, e: Engine<R>, j: nat, y: int, t: int)
    requires j < |p.nodes| == |p.banks|
    reads e
  {
    e.Valid() && e.b == p.banks[j] && e.g == Window(p.nodes[j]) && e.nextOut == y && Taken(e) == t
  }

  /** Every level has its own engine, which stands as ys and ts say. */
  ghost predicate EnginesOk<R>(p: Plan<R>, engines: seq<Engine<R>>, ys: seq<int>, ts: seq<int>)
    reads engines
  {
    && |engines| == |p.nodes| == |p.banks| == |ys| == |ts|
    && Distinct(engines)
    && forall j {:trigger EngineOk(p, engines[j], j, ys[j], ts[j])} :: 0 <= j < |engines| ==>
         EngineOk(p, engines[j], j, ys[j], ts[j])
  }

  ghost predicate Distinct<R>(engines: seq<Engine<R>>) {
    forall i, j :: 0 <= i < j < |engines| ==> engines[i] != engines[j]
  }

  ghost predicate LadderOk<R>(p: Plan<R>, engines: seq<Engine<R>>, ys: seq<int>, ts: seq<int>,
                              sources: seq<Source<R>>, l: nat)
    reads engines
  {
    l < |engines| && PlanOk(p) && EnginesOk(p, engines, ys, ts) && LevelsOk(p, ys, ts, sources, l)
  }

  /** A level whose window is all of its rows, from row 0. */
  predicate Whole(g: Geometry) {
    g.lo == g.outLo == 0 && g.hi == g.outHi
  }

  lemma TakenIs<R>(e: Engine<R>)
    requires e.Valid() && e.g.lo == 0
    ensures |e.heads| == 2 && e.Heads() == e.heads && e.heads[0] >= 0 && e.heads[0] % 2 == 0
  {
    HeadsFacts(e);
    ParIs(e.heads[0]);
  }

  /** No row beyond the last is wanted. */
  lemma NotBeyond(g: Geometry)
    ensures LastRow(g, 0) <= g.hi && LastRow(g, 1) <= g.hi
  {
  }

  /** What was taken in was supplied; a stall means that all of it was, and that more is wanted. */
  lemma FedFromQueue(g: Geometry, supplied: seq<int>, before: seq<int>, after: seq<int>, n: nat, lowest: bool,
                     stalled: bool, reach: int)
    requires Fed(supplied, before, after) && before[0] % 2 == after[0] % 2 == 0
    requires supplied == Supply(before[0], g.hi, n, lowest) && (stalled ==> Starved(g, supplied, after, reach))
    ensures after[0] >= before[0] && after[0] == before[0] + 2 * ((after[0] - before[0]) / 2)
    ensures !lowest ==> after[0] <= before[0] + 2 * n
    ensures stalled ==> !lowest && after[0] == before[0] + 2 * n <= g.hi
  {
    NotBeyond(g);
  }

  /** The queue holds the next rows of the level below. */
  ghost predicate Next<R>(p: Plan<R>, l: nat, head: int, ll: seq<R>) {
    l > 0 ==> forall k :: 0 <= k < |ll| ==> ll[k] == p.row(l - 1, head / 2 + k)
  }

  /** What is packed is what the level should take in: row for row, the rows of the queue joined. */
  lemma PackedIsInput<R>(p: Plan<R>, l: nat, head: int, ll: seq<R>, k: nat)
    requires l < |p.banks| && l > 0 && Joins(p, l) && Next(p, l, head, ll) && head >= 0 && head % 2 == 0 && k < |ll|
    ensures Par(head + 2 * k) == 0
    ensures Packing(p.filter, l, head, ll)(head + 2 * k) == p.filter.join(l, head + 2 * k, ll[k])
    ensures p.banks[l].input(head + 2 * k) == p.filter.join(l, head + 2 * k, ll[k])
  {
    var y := head + 2 * k;
    EvenRow(head, k, y);
    assert p.banks[l].input(y) == p.filter.join(l, y, p.row(l - 1, y / 2));
    assert ll[k] == p.row(l - 1, head / 2 + k);
  }

  lemma EvenRow(head: int, k: nat, y: int)
    requires head % 2 == 0 && y == head + 2 * k
    ensures Par(y) == 0 && (y - head) / 2 == k && y / 2 == head / 2 + k
  {
    ParIs(y);
  }

  lemma PackedHonestly<R>(p: Plan<R>, l: nat, heads: seq<int>, hi: int, ll: seq<R>)
    requires l < |p.banks| && Joins(p, l)
    requires |heads| == 2 && Next(p, l, heads[0], ll) && heads[0] >= 0 && heads[0] % 2 == 0
    ensures Honest(p.banks[l], heads, Supply(heads[0], hi, |ll|, l == 0), Packing(p.filter, l, heads[0], ll))
  {
    var fetch, supplied := Packing(p.filter, l, heads[0], ll), Supply(heads[0], hi, |ll|, l == 0);
    forall y | Par(y) == 0 && heads[0] <= y < supplied[0] ensures fetch(y) == p.banks[l].input(y) {
      if l > 0 {
        ParIs(y);
        var k := (y - heads[0]) / 2;
        assert y == heads[0] + 2 * k;
        PackedIsInput(p, l, heads[0], ll, k);
      }
    }
  }

  /** One draw at one level: the row is that of the whole-image transform; what the engine took
      in was packed off the front of the queue; it stalls only above the lowest level, with the
      queue empty and rows still to come. */
  method Draw<R>(p: Plan<R>, l: nat, e: Engine<R>, src: Source<R>)
    returns (r: Option<R>, src': Source<R>, ghost t: nat)
    requires l < |p.banks| && e.b == p.banks[l] && Joins(p, l) && Next(p, l, Taken(e), src.ll)
    requires e.Valid() && Whole(e.g) && e.nextOut <= e.g.hi && (l == 0 ==> src == Source([], []))
    modifies e
    ensures e.Valid() && Taken(e) == old(Taken(e)) + 2 * t && e.nextOut == old(e.nextOut) + Rows(r)
    ensures if l == 0 then src' == src && r.Some? else t <= |src.ll| && src' == Packed(src, t)
    ensures l > 0 ==> forall k :: 0 <= k < t ==> TakesIn(p, l, old(Taken(e)) + 2 * k, src.ll[k])
    ensures r.Some? ==> r.value == Output(e.b, e.g, old(e.nextOut))
    ensures r.None? ==> src'.ll == [] && Taken(e) <= e.g.hi
  {
    TakenIs(e);
    var head := e.Heads()[0];
    ghost var before := e.heads;
    var supplied := Supply(head, e.g.hi, |src.ll|, l == 0);
    PackedHonestly(p, l, before, e.g.hi, src.ll);
    r := e.TryDraw(supplied, Packing(p.filter, l, head, src.ll));
    TakenIs(e);
    FedFromQueue(e.g, supplied, before, e.heads, |src.ll|, l == 0, r.None?, e.nextOut + e.b.steps + 1);
    var taken := (e.Heads()[0] - head) / 2;
    t := taken;
    src' := if l == 0 then src else Packed(src, taken);
    if l > 0 {
      forall k | 0 <= k < t ensures TakesIn(p, l, head + 2 * k, src.ll[k]) {
        PackedIsInput(p, l, head, src.ll, k);
      }
    }
  }

  /** Fresh row y of level l is low-pass row r joined with its other band. */
  ghost predicate TakesIn<R>(p: Plan<R>, l: nat, y: int, r: R)
    requires l < |p.banks|
  {
    p.banks[l].input(y) == p.filter.join(l, y, r)
  }

  // ----- the ladder -----

  /** The engine the ladder stands at has a row left to put out. */
  lemma CanDraw<R>(p: Plan<R>, ys: seq<int>, ts: seq<int>, sources: seq<Source<R>>, l: nat)
    requires PlanOk(p) && LevelsOk(p, ys, ts, sources, l) && l < |ys|
    requires l == |ys| - 1 ==> ys[l] < p.nodes[l]
    ensures ys[l] < p.nodes[l]
  {
    if l + 1 < |ys| {
      assert LevelOk(p, ys, ts, sources, l + 1, l) && Halves(p.nodes, l);
    }
  }

  /** The queue of a level holds the next row of the level below. */
  lemma QueueNext<R>(p: Plan<R>, ys: seq<int>, ts: seq<int>, sources: seq<Source<R>>, l: nat)
    requires LevelsOk(p, ys, ts, sources, l) && l < |ys|
    ensures Next(p, l, ts[l], sources[l].ll) && (l == 0 ==> sources[l] == Source([], []))
  {
    assert LevelOk(p, ys, ts, sources, l, l);
  }

  /** A row handed up to a level whose queue is empty, or the buffer kept for the next try. */
  function HandUp<R>(up: Source<R>, r: Option<R>, blank: R): Source<R> {
    var (row, free) := if up.free != [] then (up.free[|up.free| - 1], up.free[..|up.free| - 1]) else (blank, []);
    match r
    case Some(value) => Source(up.ll + [value], free)
    case None => Source(up.ll, free + [row])
  }

  /** The sources after a turn at level l that left its own source as src. */
  function Handed<R>(sources: seq<Source<R>>, l: nat, src: Source<R>, r: Option<R>, blank: R): seq<Source<R>>
    requires l < |sources|
  {
    if l + 1 < |sources| then sources[l := src][l + 1 := HandUp(sources[l + 1], r, blank)] else sources[l := src]
  }

  function Rows<R>(r: Option<R>): nat {
    if r.Some? then 1 else 0
  }

  /** The level the ladder goes to. */
  function NextLevel(l: nat, row: bool, levels: nat): int {
    if !row then l - 1 else if l + 1 < levels then l + 1 else l
  }

  /** A turn at level l: t rows more taken in, and a row or a stall. */
  lemma TurnKeeps<R>(p: Plan<R>, ys: seq<int>, ts: seq<int>, sources: seq<Source<R>>, l: nat, t: nat, src: Source<R>,
                     r: Option<R>, blank: R)
    requires LevelsOk(p, ys, ts, sources, l) && l < |ys|
    requires if l == 0 then src == sources[0] && r.Some? else t <= |sources[l].ll| && src == Packed(sources[l], t)
    requires r.Some? ==> r.value == p.row(l, ys[l])
    requires r.None? ==> src.ll == [] && ts[l] + 2 * t < p.nodes[l]
    ensures NextLevel(l, r.Some?, |ys|) >= 0
    ensures LevelsOk(p, ys[l := ys[l] + Rows(r)], ts[l := ts[l] + 2 * t],
                     Handed(sources, l, src, r, blank), NextLevel(l, r.Some?, |ys|))
  {
    var ys', ts' := ys[l := ys[l] + Rows(r)], ts[l := ts[l] + 2 * t];
    var sources', l' := Handed(sources, l, src, r, blank), NextLevel(l, r.Some?, |ys|);
    assert LevelOk(p, ys, ts, sources, l, l);
    forall j | 0 <= j < |ys| ensures LevelOk(p, ys', ts', sources', j, l') {
      assert LevelOk(p, ys, ts, sources, j, l);
    }
  }

  lemma RowIs<R>(p: Plan<R>, l: nat, y: int)
    requires l < |p.nodes| == |p.banks| && Makes(p, l)
    ensures Output(p.banks[l], Window(p.nodes[l]), y) == p.row(l, y)
  {
  }

  /** A draw at level l leaves the other levels alone; t rows come off its queue. */
  method DrawAt<R>(p: Plan<R>, engines: seq<Engine<R>>, src0: Source<R>, l: nat, ghost ys: seq<int>, ghost ts: seq<int>)
    returns (r: Option<R>, src: Source<R>, ghost t: nat)
    requires EnginesOk(p, engines, ys, ts) && l < |engines| && ys[l] < p.nodes[l] && Makes(p, l) && Joins(p, l)
    requires (l == 0 ==> src0 == Source([], [])) && Next(p, l, ts[l], src0.ll)
    modifies engines
    ensures EnginesOk(p, engines, ys[l := ys[l] + Rows(r)], ts[l := ts[l] + 2 * t])
    ensures if l == 0 then src == src0 && r.Some? else t <= |src0.ll| && src == Packed(src0, t)
    ensures l > 0 ==> forall k :: 0 <= k < t ==> TakesIn(p, l, ts[l] + 2 * k, src0.ll[k])
    ensures r.Some? ==> r.value == p.row(l, ys[l])
    ensures r.None? ==> src.ll == [] && ts[l] + 2 * t < p.nodes[l]
  {
    RowIs(p, l, ys[l]);
    assert EngineOk(p, engines[l], l, ys[l], ts[l]);
    r, src, t := Draw(p, l, engines[l], src0);
    ghost var ys', ts' := ys[l := ys[l] + Rows(r)], ts[l := ts[l] + 2 * t];
    forall j | 0 <= j < |engines| ensures EngineOk(p, engines[j], j, ys'[j], ts'[j]) {
      assert old(EngineOk(p, engines[j], j, ys[j], ts[j]));
    }
  }

  /** One turn of the inner loop at level l: draw, then hand the row or the spare buffer up.
      After a stall the ladder steps down, after a row below the top it steps up. */
  method Pull<R>(p: Plan<R>, engines: seq<Engine<R>>, sources: seq<Source<R>>, l: nat, blank: R,
                 ghost ys: seq<int>, ghost ts: seq<int>)
    returns (sources': seq<Source<R>>, r: Option<R>, l': nat, ghost ts': seq<int>)
    requires LadderOk(p, engines, ys, ts, sources, l) && Makes(p, l) && Joins(p, l)
    requires l == |engines| - 1 ==> ys[l] < p.nodes[l]
    modifies engines
    ensures LadderOk(p, engines, ys[l := ys[l] + Rows(r)], ts', sources', l')
    ensures l' == NextLevel(l, r.Some?, |engines|)
    ensures r.Some? ==> r.value == p.row(l, ys[l])
  {
    CanDraw(p, ys, ts, sources, l);
    QueueNext(p, ys, ts, sources, l);
    var src: Source<R>;
    ghost var t: nat;
    r, src, t := DrawAt(p, engines, sources[l], l, ys, ts);
    TurnKeeps(p, ys, ts, sources, l, t, src, r, blank);
    sources' := Handed(sources, l, src, r, blank);
    l', ts' := NextLevel(l, r.Some?, |engines|), ts[l := ts[l] + 2 * t];
  }

  ghost predicate AllMake<R>(p: Plan<R>) {
    |p.nodes| == |p.banks| && forall j :: 0 <= j < |p.nodes| ==> Makes(p, j) && Joins(p, j)
  }

  /** The sum of the first n numbers. */
  function Sum(ys: seq<int>, n: nat): int
    requires n <= |ys|
  {
    if n == 0 then 0 else Sum(ys, n - 1) + ys[n - 1]
  }

  lemma {:induction false} SumUpdate(ys: seq<int>, k: nat, y: int, n: nat)
    requires k < |ys| && n <= |ys|
    ensures Sum(ys[k := y], n) == Sum(ys, n) + if k < n then y - ys[k] else 0
  {
    if n > 0 {
      SumUpdate(ys, k, y, n - 1);
    }
  }

  /** No sum of rows put out exceeds the sum of rows there are. */
  lemma {:induction false} SumBound(ys: seq<int>, nodes: seq<nat>, n: nat)
    requires n <= |ys| == |nodes| && forall j :: 0 <= j < n ==> ys[j] <= nodes[j]
    ensures Sum(ys, n) <= Sum(nodes, n)
  {
    if n > 0 {
      SumBound(ys, nodes, n - 1);
    }
  }

  lemma OutsBound<R>(p: Plan<R>, engines: seq<Engine<R>>, ys: seq<int>, ts: seq<int>)
    requires EnginesOk(p, engines, ys, ts)
    ensures Sum(ys, |ys|) <= Sum(p.nodes, |ys|)
  {
    forall j | 0 <= j < |engines| ensures ys[j] <= p.nodes[j] {
      assert EngineOk(p, engines[j], j, ys[j], ts[j]);
      HeadsFacts(engines[j]);
    }
    SumBound(ys, p.nodes, |engines|);
  }

  /** A row at level l counts once in every sum that reaches level l. */
  lemma TurnCounts(ys: seq<int>, l: nat, top: nat, n: nat)
    requires l <= top && |ys| == top + 1
    ensures var ys' := ys[l := ys[l] + n];
            && Sum(ys', top) == Sum(ys, top) + (if l < top then n else 0)
            && Sum(ys', top + 1) == Sum(ys, top + 1) + n
  {
    SumUpdate(ys, l, ys[l] + n, top);
    SumUpdate(ys, l, ys[l] + n, top + 1);
  }

  /** The inner loop: from the top down to a level that can draw and back up, until the top
      engine puts out a row.  It ends because each turn puts out a row somewhere or steps down. */
  method TopRow<R>(p: Plan<R>, engines: seq<Engine<R>>, sources0: seq<Source<R>>, stalls0: nat, blank: R,
                   ghost ys0: seq<int>, ghost ts0: seq<int>)
    returns (sources: seq<Source<R>>, row: R, stalls: nat, ghost ys: seq<int>, ghost ts: seq<int>)
    requires |engines| >= 1 && LadderOk(p, engines, ys0, ts0, sources0, |engines| - 1) && AllMake(p)
    requires ys0[|engines| - 1] < p.nodes[|engines| - 1] && stalls0 == Sum(ys0, |engines| - 1)
    modifies engines
    ensures LadderOk(p, engines, ys, ts, sources, |engines| - 1) && ys[|engines| - 1] == ys0[|engines| - 1] + 1
    ensures row == p.row(|engines| - 1, ys0[|engines| - 1]) && stalls == Sum(ys, |engines| - 1)
  {
    sources, stalls, ys, ts := sources0, stalls0, ys0, ts0;
    var top := |engines| - 1;
    var l: nat := top;
    while true
      invariant l <= top && LadderOk(p, engines, ys, ts, sources, l)
      invariant stalls == Sum(ys, top) + top - l && ys[top] == ys0[top]
      decreases Sum(p.nodes, top + 1) - Sum(ys, top + 1), l
    {
      var at := l;
      var r: Option<R>;
      OutsBound(p, engines, ys, ts);
      assert Makes(p, l) && Joins(p, l);
      sources, r, l, ts := Pull(p, engines, sources, l, blank, ys, ts);
      TurnCounts(ys, at, top, Rows(r));
      ys := ys[at := ys[at] + Rows(r)];
      if r.None? {
        stalls := stalls + 1;
      } else if at == top {
        row := r.value;
        return;
      }
    }
  }

  /** When the top engine is done every level has put out exactly its rows. */
  lemma {:induction false} AllDone<R>(p: Plan<R>, engines: seq<Engine<R>>, ys: seq<int>, ts: seq<int>,
                                      sources: seq<Source<R>>, j: nat)
    requires |engines| >= 1 && LadderOk(p, engines, ys, ts, sources, |engines| - 1) && j < |engines|
    requires ys[|engines| - 1] == p.nodes[|engines| - 1]
    ensures ys[j] == p.nodes[j]
    decreases |engines| - j
  {
    if j + 1 < |engines| {
      AllDone(p, engines, ys, ts, sources, j + 1);
      AllBelow(p, engines, ys, ts, j + 1);
      assert EngineOk(p, engines[j], j, ys[j], ts[j]);
      HeadsFacts(engines[j]);
      assert LevelOk(p, ys, ts, sources, j + 1, |engines| - 1) && Halves(p.nodes, j);
    }
  }

  /** A level that has put out all its rows has taken in at least half as many. */
  lemma AllBelow<R>(p: Plan<R>, engines: seq<Engine<R>>, ys: seq<int>, ts: seq<int>, j: nat)
    requires EnginesOk(p, engines, ys, ts) && j < |engines| && ys[j] == p.nodes[j]
    ensures ts[j] >= p.nodes[j]
  {
    var e := engines[j];
    assert EngineOk(p, e, j, ys[j], ts[j]);
    AllTakenIn(e, 0);
    TakenIs(e);
    PastEven(e.g, Taken(e));
  }

  /** Past the last even row, half the rows have been taken in. */
  lemma PastEven(g: Geometry, t: int)
    requires t % 2 == 0 && t > LastRow(g, 0)
    ensures t >= g.hi + 1
  {
    ParIs(g.hi);
  }

  // ----- whole runs -----

  function PlanOf<R>(f: Filter<R>, height: nat, levels: nat): Plan<R> {
    Plan(f,
         seq(levels, l requires 0 <= l < levels => Node(height, levels, l)),
         seq(levels, l requires 0 <= l < levels => BankAt(f, height, levels, l)),
         (l: nat, y: int) => if l < levels then NodeRow(f, height, levels, l, y) else f.leaf(l, y))
  }

  lemma PlanOfOk<R>(f: Filter<R>, height: nat, levels: nat)
    requires height >= 1 && levels >= 1
    ensures PlanOk(PlanOf(f, height, levels)) && PlanOf(f, height, levels).nodes[levels - 1] == height
  {
    var p := PlanOf(f, height, levels);
    forall j | 0 <= j < levels ensures p.nodes[j] >= 1 && (j + 1 < levels ==> Halves(p.nodes, j)) {
      LevelRows(height, levels, j);
      if j + 1 < levels {
        LevelRows(height, levels, j + 1);
      }
    }
    LevelRows(height, levels, levels - 1);
  }

  lemma PlanOfMakes<R>(f: Filter<R>, height: nat, levels: nat)
    ensures AllMake(PlanOf(f, height, levels))
  {
    var p := PlanOf(f, height, levels);
    forall j | 0 <= j < levels ensures Makes(p, j) && Joins(p, j) {
      forall y ensures Output(p.banks[j], Window(p.nodes[j]), y) == p.row(j, y) {
        PlanRow(f, height, levels, j, y);
      }
      PlanJoins(f, height, levels, j);
    }
  }

  lemma PlanJoins<R>(f: Filter<R>, height: nat, levels: nat, l: nat)
    requires l < levels
    ensures Joins(PlanOf(f, height, levels), l)
  {
    var p := PlanOf(f, height, levels);
    assert p.banks[l] == BankAt(f, height, levels, l);
    forall y
      ensures p.banks[l].input(y) == if l == 0 || Par(y) == 1 then f.leaf(l, y) else f.join(l, y, p.row(l - 1, y / 2))
    {
      if l > 0 {
        PlanRow(f, height, levels, l - 1, y / 2);
      }
    }
  }

  lemma PlanRow<R>(f: Filter<R>, height: nat, levels: nat, l: nat, y: int)
    requires l < levels
    ensures var p := PlanOf(f, height, levels);
            && p.row(l, y) == NodeRow(f, height, levels, l, y) == Output(p.banks[l], Window(p.nodes[l]), y)
            && p.nodes[l] == Node(height, levels, l) && p.banks[l].steps == f.steps
  {
    var p := PlanOf(f, height, levels);
    assert p.banks[l] == BankAt(f, height, levels, l);
    assert p.nodes[l] == Node(height, levels, l);
  }

  function Zeros(n: nat): seq<int> {
    seq(n, _ => 0)
  }

  /** One engine for every level. */
  method Assemble<R>(p: Plan<R>, blank: R) returns (engines: seq<Engine<R>>)
    requires PlanOk(p) && forall j :: 0 <= j < |p.banks| ==> p.banks[j].steps != 1
    ensures |engines| == |p.nodes| && EnginesOk(p, engines, Zeros(|p.nodes|), Zeros(|p.nodes|))
    ensures forall j :: 0 <= j < |engines| ==> fresh(engines[j])
  {
    engines := [];
    while |engines| < |p.nodes|
      invariant |engines| <= |p.nodes|
      invariant forall j :: 0 <= j < |engines| ==> fresh(engines[j]) && EngineOk(p, engines[j], j, 0, 0)
      invariant Distinct(engines)
    {
      var e := new Engine(p.banks[|engines|], Window(p.nodes[|engines|]), blank);
      engines := engines + [e];
    }
  }

  lemma StartOk<R>(p: Plan<R>, sources: seq<Source<R>>)
    requires PlanOk(p) && |sources| == |p.nodes| && forall l :: 0 <= l < |sources| ==> sources[l] == Source([], [])
    ensures LevelsOk(p, Zeros(|p.nodes|), Zeros(|p.nodes|), sources, |p.nodes| - 1)
    ensures Sum(Zeros(|p.nodes|), |p.nodes| - 1) == 0
  {
    NoRows(|p.nodes|, |p.nodes| - 1);
  }

  lemma {:induction false} NoRows(n: nat, k: nat)
    requires k <= n
    ensures Sum(Zeros(n), k) == 0
  {
    if k > 0 {
      NoRows(n, k - 1);
    }
  }

  lemma {:induction false} SumEqual(ys: seq<int>, nodes: seq<nat>, n: nat)
    requires n <= |ys| == |nodes| && forall j :: 0 <= j < n ==> ys[j] == nodes[j]
    ensures Sum(ys, n) == Sum(nodes, n)
  {
    if n > 0 {
      SumEqual(ys, nodes, n - 1);
    }
  }

  /** At the end every level has put out its rows and no queue holds a row. */
  lemma Finished<R>(p: Plan<R>, engines: seq<Engine<R>>, ys: seq<int>, ts: seq<int>, sources: seq<Source<R>>)
    requires |engines| >= 1 && LadderOk(p, engines, ys, ts, sources, |engines| - 1)
    requires ys[|engines| - 1] == p.nodes[|engines| - 1]
    ensures forall l :: 0 <= l < |ys| ==> ys[l] == p.nodes[l]
    ensures forall l :: 0 <= l < |sources| ==> sources[l].ll == [] && |sources[l].free| <= 1
    ensures Sum(ys, |ys| - 1) == Sum(p.nodes, |ys| - 1)
  {
    forall l | 0 <= l < |ys|
      ensures ys[l] == p.nodes[l] && sources[l].ll == [] && |sources[l].free| <= 1
    {
      DoneAt(p, engines, ys, ts, sources, l);
    }
    SumEqual(ys, p.nodes, |ys| - 1);
  }

  lemma DoneAt<R>(p: Plan<R>, engines: seq<Engine<R>>, ys: seq<int>, ts: seq<int>, sources: seq<Source<R>>, l: nat)
    requires l < |engines| && LadderOk(p, engines, ys, ts, sources, |engines| - 1)
    requires ys[|engines| - 1] == p.nodes[|engines| - 1]
    ensures ys[l] == p.nodes[l] && sources[l].ll == [] && |sources[l].free| <= 1
  {
    AllDone(p, engines, ys, ts, sources, l);
    assert LevelOk(p, ys, ts, sources, l, |engines| - 1);
    if l > 0 {
      AllDone(p, engines, ys, ts, sources, l - 1);
      AllBelow(p, engines, ys, ts, l);
      assert Halves(p.nodes, l - 1);
    }
  }

  /** The draw loop over a plan. */
  method DrawRows<R>(p: Plan<R>, engines: seq<Engine<R>>, blank: R)
    returns (rows: seq<R>, stalls: nat, sources: seq<Source<R>>, ghost ys: seq<int>)
    requires PlanOk(p) && AllMake(p) && EnginesOk(p, engines, Zeros(|p.nodes|), Zeros(|p.nodes|))
    modifies engines
    ensures |rows| == p.nodes[|p.nodes| - 1]
    ensures forall y :: 0 <= y < |rows| ==> rows[y] == p.row(|p.nodes| - 1, y)
    ensures |ys| == |sources| == |p.nodes| && forall l :: 0 <= l < |ys| ==> ys[l] == p.nodes[l]
    ensures forall l :: 0 <= l < |sources| ==> sources[l].ll == [] && |sources[l].free| <= 1
    ensures stalls == Sum(p.nodes, |p.nodes| - 1)
  {
    var top := |p.nodes| - 1;
    sources := seq(|p.nodes|, _ => Source([], []));
    rows, stalls := [], 0;
    ghost var ts := Zeros(|p.nodes|);
    ys := Zeros(|p.nodes|);
    StartOk(p, sources);
    while |rows| < p.nodes[top]
      invariant LadderOk(p, engines, ys, ts, sources, top) && stalls == Sum(ys, top)
      invariant ys[top] == |rows| <= p.nodes[top]
      invariant forall y :: 0 <= y < |rows| ==> rows[y] == p.row(top, y)
    {
      var row: R;
      sources, row, stalls, ys, ts := TopRow(p, engines, sources, stalls, blank, ys, ts);
      rows := rows + [row];
    }
    Finished(p, engines, ys, ts, sources);
  }

  /** mercury_bench_dwt's draw loop.  It ends; the rows that come out are those of the
      level-by-level whole-image transforms; every level puts out exactly its rows, so no
      engine is asked for more than it has; there is one stall for every row below the top;
      and no boundary between levels ever owns more than one row buffer. */
  method Weave<R>(f: Filter<R>, height: nat, levels: nat, blank: R)
    returns (rows: seq<R>, stalls: nat, sources: seq<Source<R>>, ghost drawn: seq<int>)
    requires height >= 1 && levels >= 1 && f.steps != 1
    ensures |rows| == height && forall y :: 0 <= y < height ==> rows[y] == NodeRow(f, height, levels, levels - 1, y)
    ensures |drawn| == |sources| == levels && forall l :: 0 <= l < levels ==> drawn[l] == Node(height, levels, l)
    ensures forall l :: 0 <= l < levels ==> sources[l].ll == [] && |sources[l].free| <= 1
    ensures stalls == Sum(drawn, levels - 1)
  {
    PlanOfOk(f, height, levels);
    PlanOfMakes(f, height, levels);
    rows, stalls, sources, drawn := WeavePlan(f, height, levels, PlanOf(f, height, levels), blank);
    PlanRows(f, height, levels, rows, drawn);
  }

  lemma PlanRows<R>(f: Filter<R>, height: nat, levels: nat, rows: seq<R>, drawn: seq<int>)
    requires levels >= 1
    requires forall y :: 0 <= y < |rows| ==> rows[y] == PlanOf(f, height, levels).row(levels - 1, y)
    requires |drawn| == levels && forall l :: 0 <= l < levels ==> drawn[l] == PlanOf(f, height, levels).nodes[l]
    ensures forall y :: 0 <= y < |rows| ==> rows[y] == NodeRow(f, height, levels, levels - 1, y)
    ensures forall l :: 0 <= l < levels ==> drawn[l] == Node(height, levels, l)
  {
    forall y | 0 <= y < |rows| ensures rows[y] == NodeRow(f, height, levels, levels - 1, y) {
      PlanRow(f, height, levels, levels - 1, y);
    }
  }

  method WeavePlan<R>(f: Filter<R>, height: nat, levels: nat, p: Plan<R>, blank: R)
    returns (rows: seq<R>, stalls: nat, sources: seq<Source<R>>, ghost drawn: seq<int>)
    requires levels >= 1 && f.steps != 1 && p == PlanOf(f, height, levels) && PlanOk(p) && AllMake(p)
    ensures |rows| == p.nodes[levels - 1] && forall y :: 0 <= y < |rows| ==> rows[y] == p.row(levels - 1, y)
    ensures |drawn| == |sources| == levels && forall l :: 0 <= l < levels ==> drawn[l] == p.nodes[l]
    ensures forall l :: 0 <= l < levels ==> sources[l].ll == [] && |sources[l].free| <= 1
    ensures stalls == Sum(drawn, levels - 1)
  {
    forall j | 0 <= j < levels ensures p.banks[j].steps != 1 {
      PlanRow(f, height, levels, j, 0);
    }
    var engines := Assemble(p, blank);
    rows, stalls, sources, drawn := DrawRows(p, engines, blank);
    SumEqual(drawn, p.nodes, levels - 1);
  }
}
