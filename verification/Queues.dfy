/** All the queues of the streaming synthesis engine and the pool they share. */
module Queues {
  import opened Lifting
  import opened LineQueue
  import opened Progress

  /** The first n queues are in order. */
  ghost predicate AllOk<R>(b: Bank<R>, g: Geometry, queues: seq<Queue>, lines: seq<R>, owner: seq<int>,
                           marks: seq<Mark>, n: nat)
    requires n <= |queues| && n <= |marks|
  {
    n == 0 ||
    (AllOk(b, g, queues, lines, owner, marks, n - 1)
     && QueueOk(b, g, n - 1, queues[n - 1], lines, owner, marks[n - 1].push, marks[n - 1].upd, marks[n - 1].src))
  }

  ghost predicate Good<R>(b: Bank<R>, g: Geometry, queues: seq<Queue>, pool: Pool<R>, owner: seq<int>,
                          marks: seq<Mark>) {
    && g.Valid() && |queues| == |marks| == b.steps + 1 && PoolOk(pool, owner)
    && AllOk(b, g, queues, pool.lines, owner, marks, b.steps + 1)
  }

  lemma {:induction false} AllOkAt<R>(b: Bank<R>, g: Geometry, queues: seq<Queue>, lines: seq<R>, owner: seq<int>,
                                      marks: seq<Mark>, n: nat, q: nat)
    requires n <= |queues| && n <= |marks| && AllOk(b, g, queues, lines, owner, marks, n) && q < n
    ensures QueueOk(b, g, q, queues[q], lines, owner, marks[q].push, marks[q].upd, marks[q].src)
    decreases n
  {
    if q < n - 1 {
      AllOkAt(b, g, queues, lines, owner, marks, n - 1, q);
    }
  }

  lemma {:induction false} AllOkIntro<R>(b: Bank<R>, g: Geometry, queues: seq<Queue>, lines: seq<R>, owner: seq<int>,
                                         marks: seq<Mark>, n: nat)
    requires n <= |queues| && n <= |marks|
    requires forall q :: 0 <= q < n ==>
               QueueOk(b, g, q, queues[q], lines, owner, marks[q].push, marks[q].upd, marks[q].src)
    ensures AllOk(b, g, queues, lines, owner, marks, n)
    decreases n
  {
    if n > 0 {
      AllOkIntro(b, g, queues, lines, owner, marks, n - 1);
    }
  }

  lemma GoodAt<R>(b: Bank<R>, g: Geometry, queues: seq<Queue>, pool: Pool<R>, owner: seq<int>, marks: seq<Mark>, q: nat)
    requires Good(b, g, queues, pool, owner, marks) && q <= b.steps
    ensures QueueOk(b, g, q, queues[q], pool.lines, owner, marks[q].push, marks[q].upd, marks[q].src)
  {
    AllOkAt(b, g, queues, pool.lines, owner, marks, b.steps + 1, q);
  }

  /** Queue q's lines keep their contents and their owner. */
  ghost predicate Untouched<R>(q: nat, lines: seq<R>, owner: seq<int>, lines': seq<R>, owner': seq<int>) {
    && |lines| == |owner| <= |lines'| == |owner'|
    && forall l :: 0 <= l < |owner| && owner[l] == q ==> owner'[l] == q && lines'[l] == lines[l]
  }

  lemma Frame<R>(b: Bank<R>, g: Geometry, q: nat, Q: Queue, lines: seq<R>, owner: seq<int>,
                 lines': seq<R>, owner': seq<int>, m: Mark)
    requires QueueOk(b, g, q, Q, lines, owner, m.push, m.upd, m.src) && Untouched(q, lines, owner, lines', owner')
    ensures QueueOk(b, g, q, Q, lines', owner', m.push, m.upd, m.src)
  {
  }

  /** The queues stay in order when the pool changes only outside them, save for one queue
      that is replaced. */
  lemma ReplaceGood<R>(b: Bank<R>, g: Geometry, queues: seq<Queue>, pool: Pool<R>, owner: seq<int>, marks: seq<Mark>,
                       pool': Pool<R>, owner': seq<int>, q: nat, Q: Queue, m: Mark)
    requires Good(b, g, queues, pool, owner, marks) && q <= b.steps && PoolOk(pool', owner')
    requires forall k: nat :: k <= b.steps && k != q ==> Untouched(k, pool.lines, owner, pool'.lines, owner')
    requires QueueOk(b, g, q, Q, pool'.lines, owner', m.push, m.upd, m.src)
    ensures Good(b, g, queues[q := Q], pool', owner', marks[q := m])
  {
    var qs, ms := queues[q := Q], marks[q := m];
    forall k | 0 <= k < b.steps + 1
      ensures QueueOk(b, g, k, qs[k], pool'.lines, owner', ms[k].push, ms[k].upd, ms[k].src)
    {
      if k != q {
        GoodAt(b, g, queues, pool, owner, marks, k);
        Frame(b, g, k, queues[k], pool.lines, owner, pool'.lines, owner', marks[k]);
      }
    }
    AllOkIntro(b, g, qs, pool'.lines, owner', ms, b.steps + 1);
  }

  lemma ReleaseUntouched<R>(pool: Pool<R>, owner: seq<int>, ls: seq<nat>, q: nat, k: nat)
    requires PoolOk(pool, owner) && q != k && forall i :: 0 <= i < |ls| ==> ls[i] < |owner| && owner[ls[i]] == q
    ensures Untouched(k, pool.lines, owner, Release(pool, ls).lines, Freed(owner, ls))
  {
  }

  /** One queue replaced and some of its lines given back. */
  lemma ReleaseGood<R>(b: Bank<R>, g: Geometry, queues: seq<Queue>, pool: Pool<R>, owner: seq<int>, marks: seq<Mark>,
                       q: nat, Q: Queue, ls: seq<nat>, m: Mark)
    requires Good(b, g, queues, pool, owner, marks) && q <= b.steps
    requires NoDup(ls) && forall i :: 0 <= i < |ls| ==> ls[i] < |owner| && owner[ls[i]] == q
    requires QueueOk(b, g, q, Q, pool.lines, Freed(owner, ls), m.push, m.upd, m.src)
    ensures Good(b, g, queues[q := Q], Release(pool, ls), Freed(owner, ls), marks[q := m])
  {
    ReleaseOk(pool, owner, ls);
    forall k: nat | k <= b.steps && k != q ensures Untouched(k, pool.lines, owner, pool.lines, Freed(owner, ls)) {
      ReleaseUntouched(pool, owner, ls, q, k);
    }
    ReplaceGood(b, g, queues, pool, owner, marks, Release(pool, ls), Freed(owner, ls), q, Q, m);
  }

  /** recycling_lim of queue q. */
  function Limit(g: Geometry, q: nat): int {
    if q == 0 then g.hi + 2
    else
      var request := LastRow(g, Parity(q)) + if Par(q) == 1 then 2 else 0;
      if request < g.hi then g.hi - 1 else 2 * g.hi - request
  }

  /** respool_old: the queue that stays and the lines that go. */
  function Respool(Q: Queue, limit: int): (r: (Queue, seq<nat>)) {
    var n := Spent(Q, limit);
    (Drop(Q, n), Q.entries[..n])
  }

  lemma PrefixOwned<R>(b: Bank<R>, g: Geometry, q: nat, Q: Queue, lines: seq<R>, owner: seq<int>, n: nat)
    requires q <= b.steps && |lines| == |owner| && Holds(b, g, q, Q, lines, owner) && n <= |Q.entries|
    ensures NoDup(Q.entries[..n])
    ensures forall i :: 0 <= i < n ==> Q.entries[..n][i] < |owner| && owner[Q.entries[..n][i]] == q
  {
  }

  /** tap_update: the takers of queue q move on past row y. */
  lemma TakeGood<R>(b: Bank<R>, g: Geometry, queues: seq<Queue>, pool: Pool<R>, owner: seq<int>, marks: seq<Mark>,
                    q: nat, y: int, T: Queue)
    requires Good(b, g, queues, pool, owner, marks) && q <= b.steps && marks[q].upd == y
             && T == queues[q].(update := y + 2)
    ensures var (Q, ls) := Respool(T, Limit(g, q));
            Good(b, g, queues[q := Q], Release(pool, ls), Freed(owner, ls), marks[q := marks[q].(upd := y + 2)])
  {
    var n := Spent(T, Limit(g, q));
    GoodAt(b, g, queues, pool, owner, marks, q);
    TakeOk(b, g, q, queues[q], pool.lines, owner, marks[q].push, y, marks[q].src, Limit(g, q));
    PrefixOwned(b, g, q, queues[q], pool.lines, owner, n);
    ReleaseGood(b, g, queues, pool, owner, marks, q, Drop(T, n), T.entries[..n], marks[q].(upd := y + 2));
  }

  /** tap_source: the readers of queue q move on past row y. */
  lemma ReadGood<R>(b: Bank<R>, g: Geometry, queues: seq<Queue>, pool: Pool<R>, owner: seq<int>, marks: seq<Mark>,
                    q: nat, y: int, T: Queue)
    requires Good(b, g, queues, pool, owner, marks) && q <= b.steps && marks[q].src == y - 1
             && T == queues[q].(source := y + 1)
    ensures var (Q, ls) := Respool(T, Limit(g, q));
            Good(b, g, queues[q := Q], Release(pool, ls), Freed(owner, ls), marks[q := marks[q].(src := y + 1)])
  {
    var n := Spent(T, Limit(g, q));
    GoodAt(b, g, queues, pool, owner, marks, q);
    ReadOk(b, g, q, queues[q], pool.lines, owner, marks[q].push, marks[q].upd, y, Limit(g, q));
    PrefixOwned(b, g, q, queues[q], pool.lines, owner, n);
    ReleaseGood(b, g, queues, pool, owner, marks, q, Drop(T, n), T.entries[..n], marks[q].(src := y + 1));
  }

  /** A line that is free gets contents, and an owner. */
  lemma FillGood<R>(b: Bank<R>, g: Geometry, queues: seq<Queue>, pool: Pool<R>, owner: seq<int>, marks: seq<Mark>,
                    pool': Pool<R>, owner': seq<int>, line: nat, value: R)
    requires Good(b, g, queues, pool, owner, marks) && line < |owner| && owner[line] == FREE && PoolOk(pool', owner')
    requires pool'.lines == pool.lines[line := value] && owner' == owner[line := owner'[line]]
    ensures Good(b, g, queues, pool', owner', marks)
  {
    forall k: nat ensures Untouched(k, pool.lines, owner, pool'.lines, owner') {
    }
    GoodAt(b, g, queues, pool, owner, marks, 0);
    Frame(b, g, 0, queues[0], pool.lines, owner, pool'.lines, owner', marks[0]);
    ReplaceGood(b, g, queues, pool, owner, marks, pool', owner', 0, queues[0], marks[0]);
    assert queues == queues[0 := queues[0]] && marks == marks[0 := marks[0]];
  }

  /** Queueing a line that was just taken from the free list as row y. */
  lemma PushGood<R>(b: Bank<R>, g: Geometry, queues: seq<Queue>, pool: Pool<R>, owner: seq<int>, marks: seq<Mark>,
                    q: nat, y: int, line: nat)
    requires Good(b, g, queues, pool, owner, marks) && q <= b.steps && marks[q].push == y
    requires line < |owner| && owner[line] == q && line !in queues[q].entries && pool.lines[line] == Row(b, g, q, y)
    ensures var (Q, ls) := Push(queues[q], y, line);
            Good(b, g, queues[q := Q], Release(pool, ls), Freed(owner, ls), marks[q := marks[q].(push := y + 2)])
  {
    var (Q, ls) := Push(queues[q], y, line);
    GoodAt(b, g, queues, pool, owner, marks, q);
    PushOk(b, g, q, queues[q], pool.lines, owner, y, line, marks[q].upd, marks[q].src);
    ReleaseGood(b, g, queues, pool, owner, marks, q, Q, ls, marks[q].(push := y + 2));
  }

  /** The last free line leaves the free list. */
  lemma PopPool<R>(pool: Pool<R>, owner: seq<int>, q: nat, value: R)
    requires PoolOk(pool, owner) && pool.free != []
    ensures var line := pool.free[|pool.free| - 1];
            && line < |owner| == |pool.lines| && owner[line] == FREE
            && PoolOk(Pool(pool.lines[line := value], pool.free[..|pool.free| - 1]), owner[line := q])
  {
  }

  lemma NotQueued<R>(b: Bank<R>, g: Geometry, q: nat, Q: Queue, lines: seq<R>, owner: seq<int>, m: Mark, line: nat)
    requires QueueOk(b, g, q, Q, lines, owner, m.push, m.upd, m.src) && line < |owner| && owner[line] == FREE
    ensures line !in Q.entries
  {
  }

  lemma StoreGood<R>(b: Bank<R>, g: Geometry, queues: seq<Queue>, pool: Pool<R>, owner: seq<int>, marks: seq<Mark>,
                     q: nat, y: int, value: R, line: nat, pool': Pool<R>)
    requires Good(b, g, queues, pool, owner, marks) && q <= b.steps && marks[q].push == y && value == Row(b, g, q, y)
    requires pool.free != [] && line == pool.free[|pool.free| - 1] && line < |pool.lines|
    requires pool' == Pool(pool.lines[line := value], pool.free[..|pool.free| - 1])
    ensures line < |owner|
    ensures var (Q, ls) := Push(queues[q], y, line);
            Good(b, g, queues[q := Q], Release(pool', ls), Freed(owner[line := q], ls),
                 marks[q := marks[q].(push := y + 2)])
  {
    PopPool(pool, owner, q, value);
    GoodAt(b, g, queues, pool, owner, marks, q);
    NotQueued(b, g, q, queues[q], pool.lines, owner, marks[q], line);
    FillGood(b, g, queues, pool, owner, marks, pool', owner[line := q], line, value);
    PushGood(b, g, queues, pool', owner[line := q], marks, q, y, line);
  }

  /** A consumer's position may be moved up to where it stands, or back. */
  lemma SetGood<R>(b: Bank<R>, g: Geometry, queues: seq<Queue>, pool: Pool<R>, owner: seq<int>, marks: seq<Mark>,
                   q: nat, Q: Queue)
    requires Good(b, g, queues, pool, owner, marks) && q <= b.steps
             && Q == queues[q].(update := Q.update, source := Q.source)
    requires Q.update <= marks[q].upd && Q.source <= marks[q].src
    ensures Good(b, g, queues[q := Q], pool, owner, marks)
  {
    GoodAt(b, g, queues, pool, owner, marks, q);
    ReplaceGood(b, g, queues, pool, owner, marks, pool, owner, q, Q, marks[q]);
    assert marks == marks[q := marks[q]];
  }

  /** A row that is wanted next but not there has not been made. */
  lemma Missing<R>(b: Bank<R>, g: Geometry, q: nat, Q: Queue, lines: seq<R>, owner: seq<int>, m: Mark, idx: int)
    requires QueueOk(b, g, q, Q, lines, owner, m.push, m.upd, m.src)
    requires Par(idx) == Parity(q) && g.lo <= idx <= g.hi && Min(m.upd, m.src) <= idx
    ensures Has(Q, idx) <==> m.push > idx
  {
    InRows(g, q, idx);
    if m.push > idx {
      WantedIsThere(g, q, Q, m.push, m.upd, m.src, idx);
    }
  }

  /** Both neighbours of row y are in the queue exactly when they have been made. */
  lemma Neighbours<R>(b: Bank<R>, g: Geometry, q: nat, Q: Queue, lines: seq<R>, owner: seq<int>, m: Mark, y: int)
    requires QueueOk(b, g, q, Q, lines, owner, m.push, m.upd, m.src)
    requires g.Valid() && g.lo <= y <= g.hi && Par(y) == 1 - Parity(q) && m.src == y - 1
    ensures Has(Q, Up(g, y)) <==> m.push > Up(g, y)
    ensures Has(Q, Down(g, y)) <==> m.push > Down(g, y)
    ensures Up(g, y) <= Last(g, q) && Down(g, y) <= Last(g, q)
  {
    NeighbourParity(g, y);
    InRows(g, q, Up(g, y));
    InRows(g, q, Down(g, y));
    Missing(b, g, q, Q, lines, owner, m, Up(g, y));
    Missing(b, g, q, Q, lines, owner, m, Down(g, y));
  }

  /** tap_source's own test. */
  predicate NeighboursThere(g: Geometry, Q: Queue, y: int) {
    !(y + 1 > Q.tail && y + 1 <= g.hi) && Has(Q, Up(g, y)) && Has(Q, Down(g, y))
  }

  lemma NeighboursTest(g: Geometry, Q: Queue, y: int)
    requires y <= g.hi
    ensures NeighboursThere(g, Q, y) <==> Has(Q, Up(g, y)) && Has(Q, Down(g, y))
  {
  }

  lemma SlackGood<R>(b: Bank<R>, g: Geometry, queues: seq<Queue>, pool: Pool<R>, owner: seq<int>, marks: seq<Mark>,
                     blank: R)
    requires Good(b, g, queues, pool, owner, marks) && pool.free == []
    ensures Good(b, g, queues, Pool(pool.lines + [blank], [|pool.lines|]), owner + [FREE], marks)
  {
    var pool', owner' := Pool(pool.lines + [blank], [|pool.lines|]), owner + [FREE];
    forall k: nat ensures Untouched(k, pool.lines, owner, pool'.lines, owner') {
    }
    GoodAt(b, g, queues, pool, owner, marks, 0);
    Frame(b, g, 0, queues[0], pool.lines, owner, pool'.lines, owner', marks[0]);
    ReplaceGood(b, g, queues, pool, owner, marks, pool', owner', 0, queues[0], marks[0]);
    assert queues == queues[0 := queues[0]] && marks == marks[0 := marks[0]];
  }

  /** The line of a row that is read; if the takers have not passed the row the line stays. */
  lemma ReadLine<R>(b: Bank<R>, g: Geometry, q: nat, Q: Queue, lines: seq<R>, owner: seq<int>,
                    m: Mark, y: int, limit: int, idx: int)
    requires QueueOk(b, g, q, Q, lines, owner, m.push, m.upd, m.src) && Has(Q, idx) && Par(idx) == Parity(q)
    ensures (idx - Q.head) / 2 < |Q.entries|
    ensures At(Q, idx) < |lines| && lines[At(Q, idx)] == Row(b, g, q, idx)
    ensures idx >= m.upd ==> Freed(owner, Respool(Q.(source := y + 1), limit).1)[At(Q, idx)] == q
  {
    AtHolds(b, g, q, Q, lines, owner, m.push, m.upd, m.src, idx);
    var T := Q.(source := y + 1);
    if idx >= m.upd {
      PastDropped(Q.head, Spent(T, limit), Q.update, idx);
      assert At(Q, idx) !in T.entries[..Spent(T, limit)];
    }
  }

  lemma PastDropped(head: int, n: nat, update: int, idx: int)
    requires Par(head) == Par(idx) && head <= idx && update <= idx && (n > 0 ==> head + 2 * (n - 1) < update)
    ensures (idx - head) / 2 >= n
  {
    if n > 0 {
      ParStride(head, n - 1);
      ParGap(head + 2 * (n - 1), idx);
    }
  }
}
