/** The streaming synthesis engine: rows are pulled, lifted and put out one at a time,
    on demand, in recycled line buffers, and it may stall at any fresh row. */
module Synthesis {
  import opened Bytes
  import opened Lifting
  import opened LineQueue
  import opened Progress
  import opened Queues
  import opened Spares

  // ----- the engine -----

  /** The next row of every queue: of the steps, and of the fresh rows of the last queue. */
  function Nexts(stepNext: seq<int>, nextIn: seq<int>): seq<int>
    requires |nextIn| == 2
  {
    stepNext + [nextIn[Parity(|stepNext|)]]
  }

  /** The marks of the queues and the engine's own counters agree. */
  ghost predicate Placed(g: Geometry, next: seq<int>, marks: seq<Mark>, stepNext: seq<int>, nextIn: seq<int>,
                         nextOut: int) {
    && |stepNext| >= 2 && |nextIn| == 2 && nextIn[Parity(|stepNext| - 1)] == stepNext[|stepNext| - 1]
    && next == Nexts(stepNext, nextIn) && marks == Marks(g, next, nextOut, |next|)
    && Positions(g, next, nextOut)
  }

  /** A row of some parity, no further than `reach`, is still to come but has not been supplied. */
  ghost predicate Starved(g: Geometry, supplied: seq<int>, nextIn: seq<int>, reach: int) {
    && |supplied| == |nextIn| == 2
    && exists p :: 0 <= p < 2 && supplied[p] <= nextIn[p] <= Min(LastRow(g, p), reach)
  }

  /** Fresh rows are taken in in order, and only as far as they are supplied. */
  ghost predicate Fed(supplied: seq<int>, before: seq<int>, after: seq<int>) {
    && |supplied| == |before| == |after| == 2
    && before[0] <= after[0] <= Max(before[0], supplied[0] + 1)
    && before[1] <= after[1] <= Max(before[1], supplied[1] + 1)
  }

  /** Of the rows that are supplied, those still to come are the rows that the level should have:
      fetch(y) is fresh row y as it is packed from the bands. */
  ghost predicate Honest<R>(b: Bank<R>, heads: seq<int>, supplied: seq<int>, fetch: int -> R) {
    && |heads| == |supplied| == 2
    && (forall y {:trigger fetch(y)} :: Par(y) == 0 && heads[0] <= y < supplied[0] ==> fetch(y) == b.input(y))
    && (forall y {:trigger fetch(y)} :: Par(y) == 1 && heads[1] <= y < supplied[1] ==> fetch(y) == b.input(y))
  }

  /** The rows taken in since the call began, at rows `first`, were supplied, and so are those
      still to come. */
  ghost predicate Served<R>(b: Bank<R>, first: seq<int>, supplied: seq<int>, fetch: int -> R, nextIn: seq<int>) {
    Honest(b, first, supplied, fetch) && Fed(supplied, first, nextIn)
  }

  lemma ServedAt<R>(b: Bank<R>, first: seq<int>, supplied: seq<int>, fetch: int -> R, nextIn: seq<int>, p: nat)
    requires Served(b, first, supplied, fetch, nextIn) && p < 2 && Par(nextIn[p]) == p && nextIn[p] < supplied[p]
    ensures fetch(nextIn[p]) == b.input(nextIn[p])
    ensures Served(b, first, supplied, fetch, nextIn[p := nextIn[p] + 2])
  {
  }

  datatype Attempt = Done | Skipped | Needs(level: nat) | Stall

  /** What becomes of rung s of the ladder: a row more, nothing left to do, a rung further up
      that must go first, or a stall for want of a fresh row. */
  ghost predicate Outcome(g: Geometry, s: nat, r: Attempt, supplied: seq<int>, P: seq<int>, P': seq<int>,
                          nextIn: seq<int>) {
    && s < |P|
    && match r
       case Done => P[s] <= Last(g, s) && P' == P[s := P[s] + 2]
       case Skipped => P' == P && P[s] > Last(g, s)
       case Needs(m) =>
         P' == P && m < |P| && P[m] <= Last(g, m) && ((m == s + 1 && P[m] <= P[s] + 1) || (m == s + 2 && P[m] <= P[s]))
       case Stall =>
         && P' == P && P[s] <= Last(g, s)
         && |supplied| == |nextIn| == 2 && supplied[Parity(s)] <= P[s] == nextIn[Parity(s)]
  }

  /** What a rung that was called leaves: a row more and the rung below called, or another
      rung called, or a stall for want of a row not far ahead. */
  lemma TriedRung(g: Geometry, s: nat, r: Attempt, supplied: seq<int>, P: seq<int>, P': seq<int>, nextIn: seq<int>,
                  nextOut: int)
    requires Positions(g, P, nextOut) && s < |P| && Called(g, P, nextOut, s)
    requires Outcome(g, s, r, supplied, P, P', nextIn)
    ensures |P'| == |P| && !r.Skipped?
    ensures r.Done? ==> RowsLeft(g, P', |P|) < RowsLeft(g, P, |P|) && (s > 0 ==> Called(g, P', nextOut, s - 1))
    ensures r.Needs? ==> s < r.level < |P| && P' == P && Called(g, P, nextOut, r.level)
    ensures r.Stall? ==> P' == P && Starved(g, supplied, nextIn, nextOut + |P|)
  {
    match r {
      case Done =>
        RowsLeftMove(g, P, s, P[s] + 2, |P|);
        if s > 0 {
          CalledBelow(g, P, nextOut, s - 1);
        }
      case Needs(m) =>
        if m == s + 1 {
          CalledNext(g, P, nextOut, s);
        } else {
          CalledFresh(g, P, nextOut, s);
        }
      case Stall =>
        assert supplied[Parity(s)] <= nextIn[Parity(s)];
      case Skipped =>
    }
  }

  /** After a fresh row has gone into the last queue. */
  lemma PullPlaced(g: Geometry, next: seq<int>, marks: seq<Mark>, stepNext: seq<int>, nextIn: seq<int>, nextOut: int,
                   N: nat, y: int)
    requires Placed(g, next, marks, stepNext, nextIn, nextOut) && N == |stepNext|
             && y == nextIn[Parity(N)] <= Last(g, N)
    ensures |next| == |marks| == N + 1 && next[N] == y && marks[N].push == y
    ensures Placed(g, next[N := y + 2], marks[N := marks[N].(push := y + 2)], stepNext,
                   nextIn[Parity(N) := y + 2], nextOut)
  {
    MarksAt(g, next, nextOut, N + 1, N);
    MarksMove(g, next, nextOut, N, y + 2);
    PositionsMove(g, next, nextOut, N);
    ParNext(N);
    assert Nexts(stepNext, nextIn[Parity(N) := y + 2]) == next[N := y + 2];
  }

  /** The first row of parity p from row y on. */
  function RowFrom(y: int, p: int): int {
    if Par(y) == p then y else y + 1
  }

  // ----- what a rung of the ladder finds and leaves -----

  lemma StepRow(g: Geometry, next: seq<int>, marks: seq<Mark>, stepNext: seq<int>, nextIn: seq<int>, nextOut: int,
                s: nat)
    requires Placed(g, next, marks, stepNext, nextIn, nextOut) && s < |stepNext|
    ensures |next| == |marks| == |stepNext| + 1 && next[s] == stepNext[s] && Pos(g, next, nextOut, s)
    ensures marks[s].push == next[s] && marks[s + 1].push == next[s + 1] && marks[s + 1].src == next[s] - 1
    ensures s + 2 < |next| ==> marks[s + 2].upd == next[s] && marks[s + 2].push == next[s + 2]
    ensures next[s] <= Last(g, s) ==> g.lo <= next[s] <= g.hi && Par(next[s]) == 1 - Parity(s + 1)
    ensures Parity(s + 2) == Parity(s)
  {
    PosAt(g, next, nextOut, s);
    MarksAt(g, next, nextOut, |next|, s);
    MarksAt(g, next, nextOut, |next|, s + 1);
    if s + 2 < |next| {
      MarksAt(g, next, nextOut, |next|, s + 2);
    }
    RowFacts(g, s);
    ParNext(s);
  }

  /** The last step reads lines that no one else has given back. */
  lemma LastNotTaken(g: Geometry, next: seq<int>, marks: seq<Mark>, stepNext: seq<int>, nextIn: seq<int>,
                     nextOut: int, s: nat)
    requires Placed(g, next, marks, stepNext, nextIn, nextOut) && s + 1 == |stepNext| && next[s] <= Last(g, s)
    ensures |marks| == s + 2 && Up(g, next[s]) >= marks[s + 1].upd && Down(g, next[s]) >= marks[s + 1].upd
  {
    StepRow(g, next, marks, stepNext, nextIn, nextOut, s - 1);
    NeighboursNotTaken(g, next, nextOut, s - 1);
  }

  lemma InnerPlaced(g: Geometry, next: seq<int>, marks: seq<Mark>, stepNext: seq<int>, nextIn: seq<int>, nextOut: int,
                    s: nat, y: int)
    requires Placed(g, next, marks, stepNext, nextIn, nextOut) && s + 1 < |stepNext| && y == stepNext[s]
    requires |next| == |stepNext| + 1 && MayMove(g, next, s)
    ensures |marks| == |next|
    ensures var ms1 := marks[s + 1 := marks[s + 1].(src := y + 1)];
            var ms2 := ms1[s + 2 := ms1[s + 2].(upd := y + 2)];
            Placed(g, next[s := y + 2], ms2[s := ms2[s].(push := y + 2)], stepNext[s := y + 2], nextIn, nextOut)
  {
    StepRow(g, next, marks, stepNext, nextIn, nextOut, s);
    MarksMove(g, next, nextOut, s, y + 2);
    PositionsMove(g, next, nextOut, s);
    assert Nexts(stepNext[s := y + 2], nextIn) == next[s := y + 2];
  }

  lemma LastPlaced(g: Geometry, next: seq<int>, marks: seq<Mark>, stepNext: seq<int>, nextIn: seq<int>, nextOut: int,
                   s: nat, y: int)
    requires Placed(g, next, marks, stepNext, nextIn, nextOut) && s + 1 == |stepNext| && y == stepNext[s]
    requires |next| == |stepNext| + 1 && MayMove(g, next, s)
    ensures |marks| == |next|
    ensures var ms1 := marks[s + 1 := marks[s + 1].(src := y + 1)];
            Placed(g, next[s := y + 2], ms1[s := ms1[s].(push := y + 2)], stepNext[s := y + 2],
                   nextIn[Parity(s) := y + 2], nextOut)
  {
    StepRow(g, next, marks, stepNext, nextIn, nextOut, s);
    MarksMove(g, next, nextOut, s, y + 2);
    PositionsMove(g, next, nextOut, s);
    ParNext(s);
    assert Nexts(stepNext[s := y + 2], nextIn[Parity(s) := y + 2]) == next[s := y + 2];
  }

  // ----- the start -----

  /** warp_up. */
  function EmptyQueue(g: Geometry, output: bool): Queue {
    Queue(g.lo - 1000, g.lo - 1002, [], if output then g.hi + 2 else g.lo - 1000, g.lo - 1000)
  }

  function EmptyQueues(g: Geometry, n: nat): (qs: seq<Queue>)
    ensures |qs| == n
  {
    if n == 0 then [] else EmptyQueues(g, n - 1) + [EmptyQueue(g, n == 1)]
  }

  function FirstRows(g: Geometry, n: nat): (ys: seq<int>)
    ensures |ys| == n
  {
    if n == 0 then [] else FirstRows(g, n - 1) + [First(g, n - 1)]
  }

  lemma {:induction false} StartAt(g: Geometry, n: nat, q: nat)
    requires q < n
    ensures EmptyQueues(g, n)[q] == EmptyQueue(g, q == 0) && FirstRows(g, n)[q] == First(g, q)
    decreases n
  {
    if q < n - 1 {
      StartAt(g, n - 1, q);
    }
  }

  lemma StartPos(g: Geometry, P: seq<int>, q: nat)
    requires g.Valid() && q < |P| && P == FirstRows(g, |P|)
    ensures Pos(g, P, g.outLo, q)
  {
    StartAt(g, |P|, q);
    RowFacts(g, q);
    if q + 2 < |P| {
      StartAt(g, |P|, q + 2);
      FirstRepeats(g, q);
    }
  }

  lemma StartTaker(g: Geometry, P: seq<int>, q: nat)
    requires g.Valid() && q < |P| && P == FirstRows(g, |P|)
    ensures var u := MarkOf(g, P, g.outLo, q).upd; Par(u) == Parity(q) && u >= g.lo
  {
    if q >= 2 {
      StartAt(g, |P|, q - 2);
      FirstRepeats(g, q - 2);
      RowFacts(g, q);
    } else {
      OutRowFacts(g.outLo, q);
    }
  }

  lemma OutputReader(g: Geometry)
    ensures Par(LastRow(g, 1) + 4) == Parity(0) && LastRow(g, 1) + 4 >= g.hi + 2
  {
    ParNext(g.hi);
    ParNext(LastRow(g, 1));
    ParNext(LastRow(g, 1) + 2);
  }

  lemma BeforeFirst(g: Geometry, k: nat)
    ensures Par(First(g, k) - 1) == Parity(k + 1) && First(g, k) >= g.lo
  {
    RowFacts(g, k);
    ParNext(First(g, k));
    ParNext(k);
  }

  lemma StartReader(g: Geometry, P: seq<int>, q: nat)
    requires g.Valid() && q < |P| && (q > 0 ==> P[q - 1] == First(g, q - 1))
    ensures var r := MarkOf(g, P, g.outLo, q).src; Par(r) == Parity(q) && r >= (if q == 0 then g.hi + 2 else g.lo - 1)
  {
    if q == 0 {
      OutputReader(g);
    } else {
      BeforeFirst(g, q - 1);
    }
  }

  lemma StartQueue<R>(b: Bank<R>, g: Geometry, q: nat, m: Mark)
    requires g.Valid() && q <= b.steps && m.push == First(g, q) && Par(m.upd) == Par(m.src) == Parity(q)
    requires m.upd >= g.lo && m.src >= (if q == 0 then g.hi + 2 else g.lo - 1)
    ensures QueueOk(b, g, q, EmptyQueue(g, q == 0), [], [], m.push, m.upd, m.src)
  {
    RowFacts(g, q);
  }

  lemma StartOk<R>(b: Bank<R>, g: Geometry, P: seq<int>, n: nat, q: nat)
    requires g.Valid() && n == b.steps + 1 && P == FirstRows(g, n) && q < n
    ensures var m := Marks(g, P, g.outLo, n)[q];
            QueueOk(b, g, q, EmptyQueues(g, n)[q], [], [], m.push, m.upd, m.src)
  {
    StartAt(g, n, q);
    MarksAt(g, P, g.outLo, n, q);
    StartTaker(g, P, q);
    if q > 0 {
      StartAt(g, n, q - 1);
    }
    StartReader(g, P, q);
    StartQueue(b, g, q, MarkOf(g, P, g.outLo, q));
  }

  lemma StartGood<R>(b: Bank<R>, g: Geometry, P: seq<int>, marks: seq<Mark>)
    requires g.Valid() && P == FirstRows(g, b.steps + 1) && marks == Marks(g, P, g.outLo, b.steps + 1)
    ensures Good(b, g, EmptyQueues(g, b.steps + 1), Pool([], []), [], marks)
  {
    var queues := EmptyQueues(g, b.steps + 1);
    forall q | 0 <= q < b.steps + 1
      ensures QueueOk(b, g, q, queues[q], [], [], marks[q].push, marks[q].upd, marks[q].src)
    {
      StartOk(b, g, P, b.steps + 1, q);
    }
    AllOkIntro(b, g, queues, [], [], marks, b.steps + 1);
  }

  lemma StartPlaced(g: Geometry, N: nat, P: seq<int>, stepNext: seq<int>, nextIn: seq<int>)
    requires g.Valid() && N >= 2 && P == FirstRows(g, N + 1) && stepNext == FirstRows(g, N)
    requires nextIn == [FirstRow(g, 0), FirstRow(g, 1)]
    ensures Placed(g, P, Marks(g, P, g.outLo, N + 1), stepNext, nextIn, g.outLo)
  {
    forall q | 0 <= q < |P| ensures Pos(g, P, g.outLo, q) {
      StartPos(g, P, q);
    }
    AllPosIntro(g, P, g.outLo, |P|);
    StartAt(g, N, N - 1);
  }

  lemma StartLean(g: Geometry, P: seq<int>, q: nat)
    requires g.Valid() && q < |P| && P == FirstRows(g, |P|)
    ensures Lean(g, q, EmptyQueue(g, q == 0), MarkOf(g, P, g.outLo, q))
  {
    RowFacts(g, q);
    if q >= 1 {
      StartAt(g, |P|, q - 1);
      RowFacts(g, q - 1);
    }
    if q >= 2 {
      StartAt(g, |P|, q - 2);
      FirstRepeats(g, q - 2);
    }
    StartMark(g, P, q);
    EmptyLean(g, q, MarkOf(g, P, g.outLo, q));
  }

  lemma StartMark(g: Geometry, P: seq<int>, q: nat)
    requires q < |P| && (q >= 1 ==> P[q - 1] - 1 <= First(g, q)) && (q >= 2 ==> P[q - 2] <= First(g, q))
    ensures var m := MarkOf(g, P, g.outLo, q); (q >= 1 ==> m.src <= First(g, q)) && (q >= 2 ==> m.upd <= First(g, q))
  {
  }

  lemma EmptyLean(g: Geometry, q: nat, m: Mark)
    requires (q >= 1 ==> m.src <= First(g, q)) && (q >= 2 ==> m.upd <= First(g, q))
    ensures Lean(g, q, EmptyQueue(g, q == 0), m)
  {
  }

  lemma {:induction false} StartAllLean(g: Geometry, P: seq<int>, marks: seq<Mark>, n: nat)
    requires g.Valid() && n <= |P| && P == FirstRows(g, |P|) && marks == Marks(g, P, g.outLo, |P|)
    ensures AllLean(g, EmptyQueues(g, |P|), marks, n) && Held(EmptyQueues(g, |P|), n) == 0
    decreases n
  {
    if n > 0 {
      StartAllLean(g, P, marks, n - 1);
      StartAt(g, |P|, n - 1);
      MarksAt(g, P, g.outLo, |P|, n - 1);
      StartLean(g, P, n - 1);
    }
  }

  lemma StartThrifty<R>(b: Bank<R>, g: Geometry, P: seq<int>, marks: seq<Mark>)
    requires g.Valid() && P == FirstRows(g, b.steps + 1) && marks == Marks(g, P, g.outLo, b.steps + 1)
    ensures Thrifty(g, EmptyQueues(g, b.steps + 1), Pool<R>.Pool([], []), marks)
  {
    StartAllLean(g, P, marks, |P|);
  }

  /** When an even row is put out, its reader is past it. */
  lemma ReaderPast(g: Geometry, P: seq<int>, y: int)
    requires Positions(g, P, y) && OutQueue(y) == 1 && g.outLo == g.lo
    ensures Marks(g, P, y, |P|)[1].src >= y
  {
    MarksAt(g, P, y, |P|, 1);
    PosAt(g, P, y, 0);
    OutRowFacts(y, 0);
    OutRowFacts(g.lo, 0);
    RowFacts(g, 0);
    ParNext(y);
  }

  class Engine<R> {
    const b: Bank<R>
    const g: Geometry
    const blank: R
    var queues: seq<Queue>
    var pool: Pool<R>
    var stepNext: seq<int>  // step_next_row_pos
    var nextIn: seq<int>    // y_next_in, by parity
    var nextOut: int        // y_next_out
    ghost var owner: seq<int>
    ghost var marks: seq<Mark>
    ghost var next: seq<int>
    ghost var heads: seq<int>  // the next fresh rows to be taken in, by parity

    /** The queues and the pool are in order. */
    ghost predicate InOrder()
      reads this
    {
      Good(b, g, queues, pool, owner, marks) && Thrifty(g, queues, pool, marks)
    }

    ghost predicate Laced()
      reads this
    {
      |stepNext| == b.steps && InOrder() && Placed(g, next, marks, stepNext, nextIn, nextOut)
    }

    /** Without lifting, rows pass through a single line. */
    ghost predicate PassingThrough()
      reads this
    {
      && g.Spans() && g.outLo <= nextOut <= g.outHi + 1
      && (pool == Pool([], []) || (|pool.lines| == 1 && pool.free == [0]))
    }

    /** The engine is in order; put so that callers take it as a whole (`Unfold` opens it). */
    ghost predicate Valid()
      reads this
    {
      ValidAfter(b.steps)
    }

    ghost predicate ValidAfter(n: nat)
      reads this
    {
      if n > 0 then ValidAfter(n - 1) else heads == Heads() && if Plain(b, g) then PassingThrough() else Laced()
    }

    lemma {:induction false} Unfold(n: nat)
      ensures ValidAfter(n) <==> heads == Heads() && if Plain(b, g) then PassingThrough() else Laced()
    {
      if n > 0 {
        Unfold(n - 1);
      }
    }

    /** The next fresh rows to be taken in, by parity. */
    function Heads(): seq<int>
      reads this
    {
      if Plain(b, g) then [RowFrom(nextOut, 0), RowFrom(nextOut, 1)] else nextIn
    }

    /** Rows still to be made. */
    ghost function Work(): int
      reads this
    {
      RowsLeft(g, next, |next|)
    }

    /** assemble and warp_output. */
    constructor (b: Bank<R>, g: Geometry, blank: R)
      requires b.steps != 1 && g.Spans()
      ensures Valid() && this.b == b && this.g == g && nextOut == g.outLo
      ensures g.outLo == g.lo ==> heads == [FirstRow(g, 0), FirstRow(g, 1)]
    {
      ghost var P := FirstRows(g, b.steps + 1);
      ghost var ms := Marks(g, P, g.outLo, b.steps + 1);
      if !Plain(b, g) {
        StartGood(b, g, P, ms);
        StartThrifty(b, g, P, ms);
        StartPlaced(g, b.steps, P, FirstRows(g, b.steps), [FirstRow(g, 0), FirstRow(g, 1)]);
      }
      this.b, this.g, this.blank := b, g, blank;
      queues := EmptyQueues(g, b.steps + 1);
      pool := Pool([], []);
      stepNext := FirstRows(g, b.steps);
      nextIn := [FirstRow(g, 0), FirstRow(g, 1)];
      nextOut := g.outLo;
      owner := [];
      marks := ms;
      next := P;
      heads := if Plain(b, g) then [RowFrom(g.outLo, 0), RowFrom(g.outLo, 1)] else [FirstRow(g, 0), FirstRow(g, 1)];
      new;
      Unfold(b.steps);
    }

    /** ensure_slack_line. */
    method Slack(ghost q: nat)
      requires InOrder() && q <= b.steps && Roomy(g, queues, marks, q)
      modifies this`pool, this`owner
      ensures InOrder() && pool.free != [] && |pool.lines| >= |old(pool.lines)|
      ensures pool.lines[..|old(pool.lines)|] == old(pool.lines) && owner[..|old(owner)|] == old(owner)
    {
      if pool.free == [] {
        SlackGood(b, g, queues, pool, owner, marks, blank);
        SlackThrifty(g, queues, pool, marks, q, blank);
        owner := owner + [FREE];
        pool := Pool(pool.lines + [blank], [|pool.lines|]);
      }
    }

    /** tap_update on a row that is there. */
    method Take(q: nat, y: int) returns (line: nat)
      requires InOrder() && q <= b.steps && marks[q].upd == y && Has(queues[q], y)
      requires g.outLo == g.lo ==> (q == 0 ==> y <= g.hi) && (q == 1 ==> marks[q].src >= y)
      modifies this`queues, this`pool, this`owner, this`marks
      ensures InOrder() && marks == old(marks)[q := old(marks)[q].(upd := y + 2)]
      ensures pool.lines == old(pool.lines) && line < |pool.lines| && pool.lines[line] == Row(b, g, q, y)
      ensures queues == old(queues)[q := queues[q]]
    {
      GoodAt(b, g, queues, pool, owner, marks, q);
      AtHolds(b, g, q, queues[q], pool.lines, owner, marks[q].push, marks[q].upd, marks[q].src, y);
      line := At(queues[q], y);
      var T := queues[q].(update := y + 2);
      TakeGood(b, g, queues, pool, owner, marks, q, y, T);
      TakeThrifty(b, g, queues, pool, owner, marks, q, y, T);
      var (Q, ls) := Respool(T, Limit(g, q));
      owner, marks := Freed(owner, ls), marks[q := marks[q].(upd := y + 2)];
      queues, pool := queues[q := Q], Release(pool, ls);
    }

    /** tap_source on the two neighbours of row y, both there. */
    method Read(q: nat, y: int) returns (up: nat, down: nat)
      requires InOrder() && 1 <= q <= b.steps && marks[q].src == y - 1
      requires g.lo <= y <= g.hi && Par(y) == 1 - Parity(q) && Has(queues[q], Up(g, y)) && Has(queues[q], Down(g, y))
      modifies this`queues, this`pool, this`owner, this`marks
      ensures InOrder() && marks == old(marks)[q := old(marks)[q].(src := y + 1)]
      ensures pool.lines == old(pool.lines) && |owner| == |pool.lines| && queues == old(queues)[q := queues[q]]
      ensures up < |pool.lines| && pool.lines[up] == Row(b, g, q, Up(g, y))
      ensures down < |pool.lines| && pool.lines[down] == Row(b, g, q, Down(g, y))
      ensures Up(g, y) >= old(marks)[q].upd ==> owner[up] == q
      ensures Down(g, y) >= old(marks)[q].upd ==> owner[down] == q
    {
      GoodAt(b, g, queues, pool, owner, marks, q);
      NeighbourParity(g, y);
      var T := queues[q].(source := y + 1);
      ReadLine(b, g, q, queues[q], pool.lines, owner, marks[q], y, Limit(g, q), Up(g, y));
      ReadLine(b, g, q, queues[q], pool.lines, owner, marks[q], y, Limit(g, q), Down(g, y));
      up, down := At(queues[q], Up(g, y)), At(queues[q], Down(g, y));
      ReadGood(b, g, queues, pool, owner, marks, q, y, T);
      ReadThrifty(b, g, queues, pool, owner, marks, q, y, T);
      var (Q, ls) := Respool(T, Limit(g, q));
      owner, marks := Freed(owner, ls), marks[q := marks[q].(src := y + 1)];
      queues, pool := queues[q := Q], Release(pool, ls);
    }

    /** The last free line gets the value and is queued as row y. */
    method Store(q: nat, y: int, value: R)
      requires InOrder() && q <= b.steps && marks[q].push == y
      requires value == Row(b, g, q, y) && pool.free != [] && Roomy(g, queues, marks, q)
      modifies this`queues, this`pool, this`owner, this`marks
      ensures InOrder() && marks == old(marks)[q := old(marks)[q].(push := y + 2)]
    {
      var line := pool.free[|pool.free| - 1];
      var pool' := Pool(pool.lines[line := value], pool.free[..|pool.free| - 1]);
      StoreGood(b, g, queues, pool, owner, marks, q, y, value, line, pool');
      StoreThrifty(b, g, queues, pool, owner, marks, q, y, line, pool');
      var (Q, ls) := Push(queues[q], y, line);
      owner, marks := Freed(owner[line := q], ls), marks[q := marks[q].(push := y + 2)];
      queues, pool := queues[q := Q], Release(pool', ls);
    }

    /** s == num_vert_steps: a fresh row goes into the last queue. */
    method Pull(supplied: seq<int>, fetch: int -> R, ghost first: seq<int>) returns (r: Attempt)
      requires Laced() && (g.outLo == g.lo ==> Taut(g, next, nextOut, b.steps))
      requires Served(b, first, supplied, fetch, nextIn)
      modifies this
      ensures Laced() && nextOut == old(nextOut) && Outcome(g, b.steps, r, supplied, old(next), next, nextIn)
      ensures Served(b, first, supplied, fetch, nextIn)
    {
      var N, p := b.steps, Parity(b.steps);
      var y := nextIn[p];
      if y > Last(g, N) {
        return Skipped;
      }
      if y >= supplied[p] {
        return Stall;
      }
      PullPlaced(g, next, marks, stepNext, nextIn, nextOut, N, y);
      FindRoom(N);
      PosAt(g, next, nextOut, N);
      ServedAt(b, first, supplied, fetch, nextIn, p);
      Slack(N);
      Store(N, y, fetch(y));
      nextIn := nextIn[p := y + 2];
      next := next[N := y + 2];
      return Done;
    }

    /** A rung that is tried finds room in its queue. */
    lemma FindRoom(s: nat)
      requires Laced() && s <= b.steps && next[s] <= Last(g, s)
      requires g.outLo == g.lo ==> Taut(g, next, nextOut, s)
      ensures Roomy(g, queues, marks, s)
    {
      if g.outLo == g.lo {
        MarksAt(g, next, nextOut, |next|, s);
        Room(b, g, queues, pool, owner, marks, next, nextOut, s);
      }
    }

    /** probe_update, and the first lines of the taps. */
    method SetPosition(q: nat, Q: Queue)
      requires InOrder() && q <= b.steps && Q == queues[q].(update := Q.update, source := Q.source)
      requires Q.update <= marks[q].upd && Q.source <= marks[q].src
      requires Q.source == queues[q].source || (q >= 1 && Q.source == marks[q].src)
      requires Q.update == queues[q].update || q <= 1 || Q.update == marks[q].upd
      modifies this`queues
      ensures InOrder() && queues == old(queues)[q := Q]
    {
      SetGood(b, g, queues, pool, owner, marks, q, Q);
      SetThrifty(g, queues, pool, marks, q, Q);
      queues := queues[q := Q];
    }

    /** The lift of an inner step: both neighbours are read, the input is taken up, and the
        result goes to the step's own queue. */
    method LiftRow(s: nat, y: int)
      requires InOrder() && s + 2 <= b.steps && g.lo <= y <= g.hi
      requires Par(y) == 1 - Parity(s + 1) && marks[s].push == y && marks[s + 1].src == y - 1 && marks[s + 2].upd == y
      requires Has(queues[s + 1], Up(g, y)) && Has(queues[s + 1], Down(g, y)) && Has(queues[s + 2], y)
      requires Roomy(g, queues, marks, s)
      modifies this`queues, this`pool, this`owner, this`marks
      ensures InOrder()
      ensures var ms1 := old(marks)[s + 1 := old(marks)[s + 1].(src := y + 1)];
              var ms2 := ms1[s + 2 := ms1[s + 2].(upd := y + 2)];
              marks == ms2[s := ms2[s].(push := y + 2)]
    {
      var up, down := Read(s + 1, y);
      var line := Take(s + 2, y);
      Slack(s);
      Store(s, y, b.lift(s, pool.lines[line], pool.lines[up], pool.lines[down]));
    }

    /** The tests of an inner rung: is its input there, and are its neighbours? */
    method InnerReady(s: nat, y: int) returns (r: Attempt)
      requires InOrder() && s + 2 <= b.steps && g.lo <= y <= g.hi
      requires Par(y) == Parity(s + 2) == 1 - Parity(s + 1) && marks[s + 1].src == y - 1 && marks[s + 2].upd == y
      modifies this`queues
      ensures InOrder() && (r.Done? || r.Needs?)
      ensures r.Done? ==> Has(queues[s + 1], Up(g, y)) && Has(queues[s + 1], Down(g, y)) && Has(queues[s + 2], y)
      ensures r.Done? ==> marks[s + 2].push > y && marks[s + 1].push > Up(g, y) && marks[s + 1].push > Down(g, y)
      ensures r.Needs? ==> s < r.level <= s + 2 && marks[r.level].push <= Last(g, r.level)
      ensures r.Needs? ==> marks[r.level].push <= if r.level == s + 2 then y else y + 1
    {
      GoodAt(b, g, queues, pool, owner, marks, s + 2);
      Missing(b, g, s + 2, queues[s + 2], pool.lines, owner, marks[s + 2], y);
      InRows(g, s + 2, y);
      SetPosition(s + 2, queues[s + 2].(update := y));
      if !Has(queues[s + 2], y) {
        return Needs(s + 2);
      }
      r := NeighboursReady(s + 1, y);
    }

    method NeighboursReady(q: nat, y: int) returns (r: Attempt)
      requires InOrder() && 1 <= q <= b.steps && g.lo <= y <= g.hi
      requires Par(y) == 1 - Parity(q) && marks[q].src == y - 1
      modifies this`queues
      ensures InOrder() && queues == old(queues)[q := queues[q]]
      ensures r.Done? || r == Needs(q)
      ensures r.Done? ==> Has(queues[q], Up(g, y)) && Has(queues[q], Down(g, y))
      ensures r.Done? ==> marks[q].push > Up(g, y) && marks[q].push > Down(g, y)
      ensures r.Needs? ==> marks[q].push <= Last(g, q) && marks[q].push <= y + 1
    {
      GoodAt(b, g, queues, pool, owner, marks, q);
      Neighbours(b, g, q, queues[q], pool.lines, owner, marks[q], y);
      SetPosition(q, queues[q].(source := y - 1));
      NeighboursTest(g, queues[q], y);
      return if NeighboursThere(g, queues[q], y) then Done else Needs(q);
    }

    /** Rung s below the last: its input comes from queue s + 2. */
    method LiftInner(s: nat, supplied: seq<int>) returns (r: Attempt)
      requires Laced() && |supplied| == 2 && s + 2 <= b.steps && (g.outLo == g.lo ==> Taut(g, next, nextOut, s))
      modifies this
      ensures Laced() && nextOut == old(nextOut) && Outcome(g, s, r, supplied, old(next), next, nextIn)
      ensures nextIn == old(nextIn)
    {
      var y := stepNext[s];
      StepRow(g, next, marks, stepNext, nextIn, nextOut, s);
      if y > Last(g, s) {
        return Skipped;
      }
      r := InnerReady(s, y);
      if r.Needs? {
        return;
      }
      InnerPlaced(g, next, marks, stepNext, nextIn, nextOut, s, y);
      FindRoom(s);
      LiftRow(s, y);
      stepNext := stepNext[s := y + 2];
      next := next[s := y + 2];
    }

    /** The lift of the last step: its input is a fresh row, written over a free line, and
        the result takes its place. */
    method LiftFresh(s: nat, y: int, packed: R)
      requires InOrder() && s + 1 == b.steps && g.lo <= y <= g.hi
      requires Par(y) == 1 - Parity(s + 1) && marks[s].push == y && marks[s + 1].src == y - 1
      requires Has(queues[s + 1], Up(g, y)) && Has(queues[s + 1], Down(g, y))
      requires Up(g, y) >= marks[s + 1].upd && Down(g, y) >= marks[s + 1].upd && Roomy(g, queues, marks, s)
      requires packed == b.input(y)
      modifies this`queues, this`pool, this`owner, this`marks
      ensures InOrder()
      ensures var ms1 := old(marks)[s + 1 := old(marks)[s + 1].(src := y + 1)];
              marks == ms1[s := ms1[s].(push := y + 2)]
    {
      var up, down := Read(s + 1, y);
      Slack(s);
      var line := pool.free[|pool.free| - 1];
      PopPool(pool, owner, 0, packed);
      FillGood(b, g, queues, pool, owner, marks, pool.(lines := pool.lines[line := packed]), owner, line, packed);
      pool := pool.(lines := pool.lines[line := packed]);
      Store(s, y, b.lift(s, pool.lines[line], pool.lines[up], pool.lines[down]));
    }

    /** The last rung. */
    method LiftLast(s: nat, supplied: seq<int>, fetch: int -> R, ghost first: seq<int>) returns (r: Attempt)
      requires Laced() && s + 1 == b.steps && (g.outLo == g.lo ==> Taut(g, next, nextOut, s))
      requires Served(b, first, supplied, fetch, nextIn)
      modifies this
      ensures Laced() && nextOut == old(nextOut) && Outcome(g, s, r, supplied, old(next), next, nextIn)
      ensures Served(b, first, supplied, fetch, nextIn)
    {
      var y := stepNext[s];
      StepRow(g, next, marks, stepNext, nextIn, nextOut, s);
      if y > Last(g, s) {
        return Skipped;
      }
      assert y == nextIn[Parity(s)];
      if nextIn[Parity(s)] >= supplied[Parity(s)] {
        return Stall;
      }
      CapOutput(y);
      r := NeighboursReady(s + 1, y);
      if r.Done? {
        ServedAt(b, first, supplied, fetch, nextIn, Parity(s));
        FinishLast(s, y, fetch(y));
      }
    }

    method FinishLast(s: nat, y: int, packed: R)
      requires Laced() && s + 1 == b.steps && y == stepNext[s] <= Last(g, s) && packed == b.input(y)
      requires g.outLo == g.lo ==> Taut(g, next, nextOut, s)
      requires Has(queues[s + 1], Up(g, y)) && Has(queues[s + 1], Down(g, y))
      requires marks[s + 1].push > Up(g, y) && marks[s + 1].push > Down(g, y)
      modifies this
      ensures Laced() && nextOut == old(nextOut) && next == old(next)[s := y + 2]
      ensures nextIn == old(nextIn)[Parity(s) := y + 2]
    {
      StepRow(g, next, marks, stepNext, nextIn, nextOut, s);
      LastNotTaken(g, next, marks, stepNext, nextIn, nextOut, s);
      LastPlaced(g, next, marks, stepNext, nextIn, nextOut, s, y);
      FindRoom(s);
      LiftFresh(s, y, packed);
      stepNext := stepNext[s := y + 2];
      nextIn := nextIn[Parity(s) := y + 2];
      next := next[s := y + 2];
    }

    /** set_beat_limit on the queue that feeds step 0. */
    method CapOutput(y: int)
      requires InOrder() && b.steps >= 1
      modifies this`queues
      ensures InOrder()
    {
      GoodAt(b, g, queues, pool, owner, marks, 1);
      SetPosition(1, queues[1].(update := Min(queues[1].update, y - 3)));
    }

    /** Taking the next output row from its queue, if it is there. */
    method TapOutput() returns (r: Option<R>)
      requires Laced() && nextOut <= g.outHi
      modifies this
      ensures Laced() && next == old(next) && nextIn == old(nextIn)
      ensures r.Some? ==> r.value == Woven(b, g, old(nextOut)) && nextOut == old(nextOut) + 1
      ensures r.None? ==> nextOut == old(nextOut) && next[OutQueue(nextOut)] <= nextOut
    {
      var y := nextOut;
      var m := OutQueue(y);
      OutputThere(y, m);
      SetPosition(m, queues[m].(update := y));
      if !Has(queues[m], y) {
        return None;
      }
      var row := GiveOut(y, m);
      return Some(row);
    }

    /** The next output row is in its queue exactly when it has been made. */
    lemma OutputThere(y: int, m: nat)
      requires Laced() && nextOut == y <= g.outHi && m == OutQueue(y)
      ensures |next| == |marks| && marks[m].upd == y && (Has(queues[m], y) <==> next[m] > y)
      ensures queues[m].source <= marks[m].src
    {
      OutQueueParity(y);
      MarksOut(g, next, y);
      GoodAt(b, g, queues, pool, owner, marks, m);
      Missing(b, g, m, queues[m], pool.lines, owner, marks[m], y);
    }

    method GiveOut(y: int, m: nat) returns (row: R)
      requires Laced() && nextOut == y <= g.outHi && m == OutQueue(y) && Has(queues[m], y)
      modifies this
      ensures Laced() && next == old(next) && nextIn == old(nextIn) && nextOut == y + 1 && row == Woven(b, g, y)
    {
      OutputThere(y, m);
      MarksOut(g, next, y);
      PositionsOut(g, next, y);
      if m == 1 && g.outLo == g.lo {
        ReaderPast(g, next, y);
      }
      var line := Take(m, y);
      nextOut := y + 1;
      return pool.lines[line];
    }

    /** Rung s, whichever it is. */
    method Rung(s: nat, supplied: seq<int>, fetch: int -> R, ghost first: seq<int>) returns (r: Attempt)
      requires Laced() && s <= b.steps && (g.outLo == g.lo ==> Taut(g, next, nextOut, s))
      requires Served(b, first, supplied, fetch, nextIn)
      modifies this
      ensures Laced() && nextOut == old(nextOut) && Outcome(g, s, r, supplied, old(next), next, nextIn)
      ensures Served(b, first, supplied, fetch, nextIn)
    {
      if s == b.steps {
        r := Pull(supplied, fetch, first);
      } else if s + 1 == b.steps {
        r := LiftLast(s, supplied, fetch, first);
      } else {
        r := LiftInner(s, supplied);
      }
    }

    /** The inner loop: from rung sMax down to rung 0, unless a rung needs another one first. */
    method Descend(sMax: nat, supplied: seq<int>, fetch: int -> R, ghost first: seq<int>) returns (r: Attempt)
      requires Laced() && sMax <= b.steps && Called(g, next, nextOut, sMax)
      requires Served(b, first, supplied, fetch, nextIn)
      modifies this
      ensures Laced() && nextOut == old(nextOut) && !r.Skipped? && Served(b, first, supplied, fetch, nextIn)
      ensures r.Done? ==> Work() < old(Work())
      ensures r.Needs? ==> r.level <= b.steps && Called(g, next, nextOut, r.level)
                           && Work() <= old(Work()) && (Work() == old(Work()) ==> r.level > sMax)
      ensures r.Stall? ==> Starved(g, supplied, nextIn, nextOut + b.steps + 1)
    {
      var s: int := sMax;
      while s >= 0
        invariant -1 <= s <= sMax && Laced() && nextOut == old(nextOut) && Served(b, first, supplied, fetch, nextIn)
        invariant s >= 0 ==> Called(g, next, nextOut, s)
        invariant s == sMax ==> next == old(next)
        invariant s < sMax ==> Work() < old(Work())
      {
        ghost var P := next;
        r := Rung(s, supplied, fetch, first);
        TriedRung(g, s, r, supplied, P, next, nextIn, nextOut);
        if r.Needs? || r.Stall? {
          return;
        }
        s := s - 1;
      }
      return Done;
    }

    /** vweave: the next output row, or a stall.  The loop ends because every turn makes a
        row somewhere or moves to a higher rung. */
    method Vweave(supplied: seq<int>, fetch: int -> R) returns (r: Option<R>)
      requires Laced() && nextOut <= g.outHi && Honest(b, nextIn, supplied, fetch)
      modifies this
      ensures Laced() && Fed(supplied, old(nextIn), nextIn)
      ensures r.Some? ==> r.value == Woven(b, g, old(nextOut)) && nextOut == old(nextOut) + 1
      ensures r.None? ==> nextOut == old(nextOut) && Starved(g, supplied, nextIn, nextOut + b.steps + 1)
    {
      ghost var first := nextIn;
      var sMax: int := -1;
      while true
        invariant Laced() && nextOut == old(nextOut) && -1 <= sMax <= b.steps
        invariant Served(b, first, supplied, fetch, nextIn)
        invariant sMax >= 0 ==> Called(g, next, nextOut, sMax)
        decreases Work(), b.steps + 1 - sMax
      {
        RowsLeftBound(g, next, nextOut, |next|);
        if sMax >= 0 {
          var a := Descend(sMax, supplied, fetch, first);
          if a.Stall? {
            return None;
          }
          if a.Needs? {
            sMax := a.level;
            continue;
          }
        }
        r := TapOutput();
        if r.Some? {
          return;
        }
        CalledOut(g, next, nextOut);
        sMax := OutQueue(nextOut);
      }
    }

    /** No vertical lifting: the row passes through a line, and a lone odd row is halved. */
    method PassThrough(supplied: seq<int>, fetch: int -> R) returns (r: Option<R>)
      requires Plain(b, g) && PassingThrough() && nextOut <= g.outHi && Honest(b, Heads(), supplied, fetch)
      modifies this`pool, this`nextOut
      ensures PassingThrough() && Fed(supplied, old(Heads()), Heads())
      ensures r.Some? ==> r.value == Output(b, g, old(nextOut)) && nextOut == old(nextOut) + 1
      ensures r.None? ==> nextOut == old(nextOut) && Starved(g, supplied, Heads(), nextOut + b.steps + 1)
    {
      var y := nextOut;
      ParNext(y);
      if supplied[Par(y)] <= y {
        return None;
      }
      ServedAt(b, Heads(), supplied, fetch, Heads(), Par(y));
      if pool.free == [] {
        pool := Pool([blank], [0]);
      }
      var line := pool.free[|pool.free| - 1];
      pool := pool.(lines := pool.lines[line := fetch(y)]);
      if g.lo == g.hi && Par(y) == 1 {
        pool := pool.(lines := pool.lines[line := b.halve(pool.lines[line])]);
      }
      nextOut := y + 1;
      return Some(pool.lines[line]);
    }

    /** try_draw: the next output row, or a stall for want of a fresh row at most
        num_vert_steps + 1 rows ahead; fresh rows are taken in only as far as they are
        supplied, and in a full window there are never more than 2 * num_vert_steps + 1
        lines. */
    method TryDraw(supplied: seq<int>, fetch: int -> R) returns (r: Option<R>)
      requires Valid() && nextOut <= g.outHi && Honest(b, heads, supplied, fetch)
      modifies this
      ensures Valid() && Fed(supplied, old(heads), heads)
      ensures r.Some? ==> r.value == Output(b, g, old(nextOut)) && nextOut == old(nextOut) + 1
      ensures r.None? ==> nextOut == old(nextOut) && Starved(g, supplied, heads, nextOut + b.steps + 1)
      ensures g.outLo == g.lo ==> |pool.lines| <= 2 * b.steps + 1
    {
      Unfold(b.steps);
      if Plain(b, g) {
        r := PassThrough(supplied, fetch);
      } else {
        r := Vweave(supplied, fetch);
        if g.outLo == g.lo {
          LineBound(g, queues, pool, marks, b.steps);
        }
      }
      heads := Heads();
      Unfold(b.steps);
    }
  }

  // ----- whole runs -----

  lemma OutputMade(g: Geometry, P: seq<int>, q: nat)
    requires Positions(g, P, g.hi + 1) && g.outLo == g.lo && q < 2
    ensures P[q] > Last(g, q)
  {
    PosAt(g, P, g.hi + 1, q);
    OutRowFacts(g.hi + 1, q);
    OutRowFacts(g.lo, q);
    RowFacts(g, q);
  }

  lemma {:induction false} AllMade(g: Geometry, P: seq<int>, q: nat)
    requires Positions(g, P, g.hi + 1) && g.outLo == g.lo && q < |P|
    ensures P[q] > Last(g, q)
    decreases q
  {
    if q < 2 {
      OutputMade(g, P, q);
    } else {
      AllMade(g, P, q - 2);
      PosAt(g, P, g.hi + 1, q - 2);
      FirstRepeats(g, q - 2);
    }
  }

  lemma AllLifted(g: Geometry, next: seq<int>, marks: seq<Mark>, stepNext: seq<int>, nextIn: seq<int>, p: nat)
    requires Placed(g, next, marks, stepNext, nextIn, g.hi + 1) && g.outLo == g.lo && p < 2
    ensures nextIn[p] > LastRow(g, p)
  {
    var N := |stepNext|;
    AllMade(g, next, N);
    AllMade(g, next, N - 1);
    ParNext(N);
  }

  /** When the last row of a full window is out, every fresh row of both parities has been
      taken in. */
  lemma AllTakenIn<R>(e: Engine<R>, p: nat)
    requires e.Valid() && e.g.outLo == e.g.lo && e.nextOut == e.g.hi + 1 && p < 2
    ensures |e.heads| == 2 && e.heads[p] > LastRow(e.g, p)
  {
    e.Unfold(e.b.steps);
    if !Plain(e.b, e.g) {
      AllLifted(e.g, e.next, e.marks, e.stepNext, e.nextIn, p);
    }
  }

  /** The fresh rows to come are of the right parity, and the output stays in its window. */
  lemma HeadsFacts<R>(e: Engine<R>)
    requires e.Valid()
    ensures e.heads == e.Heads() && |e.heads| == 2 && Par(e.heads[0]) == 0 && Par(e.heads[1]) == 1
    ensures e.heads[0] >= e.g.lo && e.heads[1] >= e.g.lo
    ensures e.g.Spans() && e.g.outLo <= e.nextOut <= e.g.outHi + 1
  {
    e.Unfold(e.b.steps);
    if Plain(e.b, e.g) {
      ParNext(e.nextOut);
    } else {
      var N := e.b.steps;
      PosAt(e.g, e.next, e.nextOut, N);
      PosAt(e.g, e.next, e.nextOut, N - 1);
      RowFacts(e.g, N);
      RowFacts(e.g, N - 1);
      ParNext(N);
    }
  }

  /** The supply reaches as far as the engine looks ahead of row y, or to the end. */
  predicate Ample(steps: nat, g: Geometry, supply: seq<int>, y: int) {
    |supply| == 2 && supply[0] > Min(g.hi, y + steps + 1) && supply[1] > Min(g.hi, y + steps + 1)
  }

  /** The first n rows of the window, by the whole-image transform. */
  function Outputs<R>(b: Bank<R>, g: Geometry, n: nat): (rows: seq<R>)
    ensures |rows| == n
  {
    if n == 0 then [] else Outputs(b, g, n - 1) + [Output(b, g, g.outLo + (n - 1))]
  }

  lemma {:induction false} OutputsAt<R>(b: Bank<R>, g: Geometry, n: nat, i: nat)
    requires i < n
    ensures Outputs(b, g, n)[i] == Output(b, g, g.outLo + i)
    decreases n
  {
    if i < n - 1 {
      OutputsAt(b, g, n - 1, i);
    }
  }

  lemma OutputsGrow<R>(b: Bank<R>, g: Geometry, rows: seq<R>, r: seq<R>)
    requires rows == Outputs(b, g, |rows|) && (r == [] || r == [Output(b, g, g.outLo + |rows|)])
    ensures rows + r == Outputs(b, g, |rows + r|)
  {
    if r == [] {
      assert rows + r == rows;
    } else {
      assert |rows + r| == |rows| + 1;
    }
  }

  lemma AmpleFeeds(steps: nat, g: Geometry, supply: seq<int>, heads: seq<int>, y: int)
    requires Ample(steps, g, supply, y)
    ensures !Starved(g, supply, heads, y + steps + 1)
  {
  }

  lemma FullIsAmple(steps: nat, g: Geometry, y: int)
    ensures Ample(steps, g, [g.hi + 1, g.hi + 1], y)
  {
  }

  /** One more call: it is for row y and leaves the output at row z. */
  predicate Call(steps: nat, g: Geometry, supply: seq<int>, y: int, z: int) {
    y <= z <= y + 1 && (Ample(steps, g, supply, y) ==> z == y + 1)
  }

  /** The first n calls, where call k is for row at[k]. */
  predicate Calls(steps: nat, g: Geometry, supplies: seq<seq<int>>, at: seq<int>, n: nat)
    requires n <= |supplies| && n < |at|
  {
    n == 0 || (Calls(steps, g, supplies, at, n - 1) && Call(steps, g, supplies[n - 1], at[n - 1], at[n]))
  }

  lemma {:induction false} CallsFrame(steps: nat, g: Geometry, supplies: seq<seq<int>>, at: seq<int>, n: nat, z: int)
    requires n <= |supplies| && n < |at| && Calls(steps, g, supplies, at, n)
    ensures Calls(steps, g, supplies, at + [z], n)
  {
    if n > 0 {
      CallsFrame(steps, g, supplies, at, n - 1, z);
    }
  }

  lemma CallsExtend(steps: nat, g: Geometry, supplies: seq<seq<int>>, at: seq<int>, n: nat, z: int)
    requires n < |supplies| && n + 1 == |at| && Calls(steps, g, supplies, at, n)
             && Call(steps, g, supplies[n], at[n], z)
    ensures Calls(steps, g, supplies, at + [z], n + 1)
  {
    CallsFrame(steps, g, supplies, at, n, z);
  }

  /** Drawing with stalls: `supplies` says how far the two kinds of input rows reach at each
      call, and at[k] is the row that call k is for.  However the rows come in, those that
      come out are those of the whole-image transform, in order; and a call with an ample
      supply never stalls. */
  method WeaveWithStalls<R>(b: Bank<R>, g: Geometry, blank: R, supplies: seq<seq<int>>)
    returns (rows: seq<R>, at: seq<int>)
    requires b.steps != 1 && g.Spans() && forall k :: 0 <= k < |supplies| ==> |supplies[k]| == 2
    ensures rows == Outputs(b, g, |rows|)
    ensures 1 <= |at| <= |supplies| + 1 && at[0] == g.outLo && at[|at| - 1] == g.outLo + |rows| <= g.outHi + 1
    ensures |at| <= |supplies| ==> |rows| == g.outHi - g.outLo + 1
    ensures Calls(b.steps, g, supplies, at, |at| - 1)
  {
    var e := Assemble(b, g, blank);
    rows, at := DrawAll(e, supplies);
  }

  method DrawAll<R>(e: Engine<R>, supplies: seq<seq<int>>) returns (rows: seq<R>, at: seq<int>)
    requires e.Valid() && e.nextOut == e.g.outLo <= e.g.outHi && forall k :: 0 <= k < |supplies| ==> |supplies[k]| == 2
    modifies e
    ensures rows == Outputs(e.b, e.g, |rows|)
    ensures 1 <= |at| <= |supplies| + 1 && at[0] == e.g.outLo && at[|at| - 1] == e.g.outLo + |rows| <= e.g.outHi + 1
    ensures |at| <= |supplies| ==> |rows| == e.g.outHi - e.g.outLo + 1
    ensures Calls(e.b.steps, e.g, supplies, at, |at| - 1)
  {
    rows := [];
    at := [e.nextOut];
    while |at| <= |supplies| && e.nextOut <= e.g.outHi
      invariant e.Valid() && 1 <= |at| <= |supplies| + 1
      invariant at[0] == e.g.outLo && at[|at| - 1] == e.nextOut == e.g.outLo + |rows| <= e.g.outHi + 1
      invariant rows == Outputs(e.b, e.g, |rows|)
      invariant Calls(e.b.steps, e.g, supplies, at, |at| - 1)
      decreases |supplies| - |at|
    {
      rows, at := DrawNext(e, supplies, rows, at);
    }
  }

  method Assemble<R>(b: Bank<R>, g: Geometry, blank: R) returns (e: Engine<R>)
    requires b.steps != 1 && g.Spans()
    ensures fresh(e) && e.Valid() && e.b == b && e.g == g && e.nextOut == g.outLo
  {
    e := new Engine(b, g, blank);
  }

  /** One call of try_draw: no row, or the next one. */
  method DrawOnce<R>(e: Engine<R>, supply: seq<int>) returns (r: seq<R>)
    requires e.Valid() && e.nextOut <= e.g.outHi && |supply| == 2
    modifies e
    ensures e.Valid() && Call(e.b.steps, e.g, supply, old(e.nextOut), e.nextOut)
    ensures e.nextOut == old(e.nextOut) + |r| && (r != [] ==> r == [Output(e.b, e.g, old(e.nextOut))])
  {
    HeadsFacts(e);
    var a := e.TryDraw(supply, e.b.input);
    if a.Some? {
      return [a.value];
    }
    if Ample(e.b.steps, e.g, supply, e.nextOut) {
      AmpleFeeds(e.b.steps, e.g, supply, e.heads, e.nextOut);
    }
    return [];
  }

  /** One turn of the loop above. */
  method DrawNext<R>(e: Engine<R>, supplies: seq<seq<int>>, rows: seq<R>, at: seq<int>)
    returns (rows': seq<R>, at': seq<int>)
    requires e.Valid() && e.nextOut <= e.g.outHi && 0 < |at| <= |supplies| && |supplies[|at| - 1]| == 2
    requires at[|at| - 1] == e.nextOut == e.g.outLo + |rows| && rows == Outputs(e.b, e.g, |rows|)
    requires Calls(e.b.steps, e.g, supplies, at, |at| - 1)
    modifies e
    ensures e.Valid() && |at'| == |at| + 1 && at'[0] == at[0] && at'[|at|] == e.nextOut
            && e.nextOut == e.g.outLo + |rows'| <= e.g.outHi + 1
    ensures rows' == Outputs(e.b, e.g, |rows'|) && Calls(e.b.steps, e.g, supplies, at', |at|)
  {
    var r := DrawOnce(e, supplies[|at| - 1]);
    OutputsGrow(e.b, e.g, rows, r);
    CallsExtend(e.b.steps, e.g, supplies, at, |at| - 1, e.nextOut);
    return rows + r, at + [e.nextOut];
  }

  /** try_draw with all the input at hand. */
  method DrawRow<R>(e: Engine<R>, rows: seq<R>) returns (rows': seq<R>)
    requires e.Valid() && e.nextOut == e.g.outLo + |rows| <= e.g.outHi && rows == Outputs(e.b, e.g, |rows|)
    modifies e
    ensures e.Valid() && e.nextOut == old(e.nextOut) + 1 && |rows'| == |rows| + 1 && rows' == Outputs(e.b, e.g, |rows'|)
  {
    FullIsAmple(e.b.steps, e.g, e.nextOut);
    var r := DrawOnce(e, [e.g.hi + 1, e.g.hi + 1]);
    OutputsGrow(e.b, e.g, rows, r);
    return rows + r;
  }

  /** With all input at hand the engine never stalls and weaves the whole window. */
  method WeaveAll<R>(b: Bank<R>, g: Geometry, blank: R) returns (rows: seq<R>)
    requires b.steps != 1 && g.Spans()
    ensures |rows| == g.outHi - g.outLo + 1
    ensures rows == Outputs(b, g, |rows|)
  {
    var e := Assemble(b, g, blank);
    rows := [];
    while e.nextOut <= g.outHi
      invariant e.Valid() && e.b == b && e.g == g
      invariant e.nextOut == g.outLo + |rows| <= g.outHi + 1
      invariant rows == Outputs(b, g, |rows|)
      decreases g.outHi + 1 - e.nextOut
    {
      rows := DrawRow(e, rows);
    }
  }
}
