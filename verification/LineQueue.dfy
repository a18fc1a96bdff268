/** The rolling row queues of the streaming synthesis engine.  Queue q holds rows produced
    by lifting step q (or fresh rows, for the last q) as indices into a pool of line
    buffers; step q - 1 reads them as neighbours and step q - 2, or the output, takes them
    up one by one.  Rows that neither side wants any more go back to the free list. */
module LineQueue {
  import opened Lifting

  datatype Queue = Queue(head: int, tail: int, entries: seq<nat>, source: int, update: int)

  datatype Pool<R> = Pool(lines: seq<R>, free: seq<nat>)

  /** Where a queue stands: its next row, and the rows its takers and its readers are at. */
  datatype Mark = Mark(push: int, upd: int, src: int)

  const FREE: int := -1

  ghost predicate NoDup(s: seq<nat>) {
    forall i, j :: 0 <= i < j < |s| ==> s[i] != s[j]
  }

  /** `owner` says for every line where it is: in the free list or in a queue. */
  ghost predicate PoolOk<R>(pool: Pool<R>, owner: seq<int>) {
    && |owner| == |pool.lines| && NoDup(pool.free)
    && forall i :: 0 <= i < |pool.free| ==> pool.free[i] < |owner| && owner[pool.free[i]] == FREE
  }

  function Min(a: int, b: int): int { if a < b then a else b }

  function Max(a: int, b: int): int { if a < b then b else a }

  function First(g: Geometry, q: nat): int { FirstRow(g, Parity(q)) }

  /** The first row that the two consumers of a queue may still ask for. */
  function Wanted(g: Geometry, q: nat, upd: int, src: int): int {
    Max(Min(upd, src), First(g, q))
  }

  /** The rows of a queue are consecutive and end just before the next one to come. */
  ghost predicate Shape(g: Geometry, q: nat, Q: Queue, push: int) {
    if Q.entries == [] then Q.tail < Q.head
    else
      && Q.tail == Q.head + 2 * (|Q.entries| - 1) && Q.tail + 2 == push
      && Par(Q.head) == Parity(q) && Q.head >= First(g, q)
  }

  /** The lines of a queue are its own and hold the rows they should. */
  ghost predicate Holds<R>(b: Bank<R>, g: Geometry, q: nat, Q: Queue, lines: seq<R>, owner: seq<int>)
    requires q <= b.steps && |lines| == |owner|
  {
    && NoDup(Q.entries)
    && forall j :: 0 <= j < |Q.entries| ==>
         Q.entries[j] < |owner| && owner[Q.entries[j]] == q && lines[Q.entries[j]] == Row(b, g, q, Q.head + 2 * j)
  }

  /** Everything still wanted and already pushed is there. */
  ghost predicate Keeps(g: Geometry, q: nat, Q: Queue, push: int, upd: int, src: int) {
    && Q.update <= upd && Q.source <= src
    && (Wanted(g, q, upd, src) < push ==> Q.entries != [] && Q.head <= Wanted(g, q, upd, src))
  }

  /** A queue whose next row is `push`, whose takers stand at row `upd` and whose readers
      stand at row `src`. */
  ghost predicate QueueOk<R>(b: Bank<R>, g: Geometry, q: nat, Q: Queue, lines: seq<R>, owner: seq<int>,
                             push: int, upd: int, src: int) {
    && q <= b.steps && |lines| == |owner| && Par(push) == Par(upd) == Par(src) == Parity(q) && push >= First(g, q)
    && Shape(g, q, Q, push) && Holds(b, g, q, Q, lines, owner) && Keeps(g, q, Q, push, upd, src)
  }

  // ----- recycling -----

  /** How many rows respool_old drops. */
  function Spent(Q: Queue, limit: int): (n: nat)
    ensures n <= |Q.entries|
    ensures n > 0 ==> Q.head + 2 * (n - 1) < Q.update && Q.head + 2 * (n - 1) < Q.source && Q.head + 2 * (n - 1) < limit
    decreases |Q.entries|
  {
    if Q.head < Q.update && Q.head < Q.source && Q.entries != [] && Q.head < limit
    then 1 + Spent(Q.(head := Q.head + 2, entries := Q.entries[1..]), limit)
    else 0
  }

  function Drop(Q: Queue, n: nat): Queue
    requires n <= |Q.entries|
  {
    Q.(head := Q.head + 2 * n, entries := Q.entries[n..])
  }

  function Freed(owner: seq<int>, ls: seq<nat>): (o: seq<int>)
    ensures |o| == |owner| && forall i :: 0 <= i < |owner| ==> o[i] == if i in ls then FREE else owner[i]
  {
    seq(|owner|, i requires 0 <= i < |owner| => if i in ls then FREE else owner[i])
  }

  function Release<R>(pool: Pool<R>, ls: seq<nat>): Pool<R> {
    pool.(free := pool.free + ls)
  }

  /** Lines given back join the free list once. */
  lemma ReleaseOk<R>(pool: Pool<R>, owner: seq<int>, ls: seq<nat>)
    requires PoolOk(pool, owner) && NoDup(ls)
    requires forall i :: 0 <= i < |ls| ==> ls[i] < |owner| && owner[ls[i]] != FREE
    ensures PoolOk(Release(pool, ls), Freed(owner, ls))
  {
    var f := pool.free + ls;
    forall i, j | 0 <= i < j < |f| ensures f[i] != f[j] {
      if i < |pool.free| <= j {
        assert owner[f[i]] == FREE && owner[ls[j - |pool.free|]] != FREE;
      }
    }
    forall i | 0 <= i < |f| ensures f[i] < |owner| && Freed(owner, ls)[f[i]] == FREE {
      if i >= |pool.free| {
        assert f[i] == ls[i - |pool.free|];
      }
    }
  }

  lemma DropHolds<R>(b: Bank<R>, g: Geometry, q: nat, Q: Queue, lines: seq<R>, owner: seq<int>, n: nat)
    requires q <= b.steps && |lines| == |owner| && Holds(b, g, q, Q, lines, owner) && n <= |Q.entries|
    ensures Holds(b, g, q, Drop(Q, n), lines, Freed(owner, Q.entries[..n]))
  {
    var D := Drop(Q, n);
    forall j | 0 <= j < |D.entries|
      ensures D.entries[j] < |owner| && Freed(owner, Q.entries[..n])[D.entries[j]] == q
           && lines[D.entries[j]] == Row(b, g, q, D.head + 2 * j)
    {
      assert D.entries[j] == Q.entries[n + j];
      assert D.entries[j] !in Q.entries[..n];
      assert Q.head + 2 * (n + j) == D.head + 2 * j;
    }
  }

  /** The last row dropped lies two rows before all that is still wanted. */
  lemma DropBefore(g: Geometry, q: nat, Q: Queue, push: int, upd: int, src: int, limit: int)
    requires Shape(g, q, Q, push) && Keeps(g, q, Q, push, upd, src) && Par(upd) == Par(src) == Parity(q)
    ensures var n := Spent(Q, limit);
            n > 0 ==> Par(Q.head + 2 * n) == Parity(q) && Q.head + 2 * n <= upd && Q.head + 2 * n <= src
  {
    var n := Spent(Q, limit);
    if n > 0 {
      var last := Q.head + 2 * (n - 1);
      ParStride(Q.head, n - 1);
      ParStride(Q.head, n);
      ParGap(last, upd);
      ParGap(last, src);
    }
  }

  lemma DropKeeps(g: Geometry, q: nat, Q: Queue, push: int, upd: int, src: int, limit: int)
    requires Shape(g, q, Q, push) && Keeps(g, q, Q, push, upd, src)
    requires Par(upd) == Par(src) == Parity(q)
    ensures var D := Drop(Q, Spent(Q, limit)); Shape(g, q, D, push) && Keeps(g, q, D, push, upd, src)
  {
    DropBefore(g, q, Q, push, upd, src, limit);
  }

  /** Recycling drops nothing that is still wanted. */
  lemma RespoolOk<R>(b: Bank<R>, g: Geometry, q: nat, Q: Queue, lines: seq<R>, owner: seq<int>,
                     push: int, upd: int, src: int, limit: int)
    requires QueueOk(b, g, q, Q, lines, owner, push, upd, src)
    ensures var n := Spent(Q, limit);
            QueueOk(b, g, q, Drop(Q, n), lines, Freed(owner, Q.entries[..n]), push, upd, src)
  {
    DropHolds(b, g, q, Q, lines, owner, Spent(Q, limit));
    DropKeeps(g, q, Q, push, upd, src, limit);
  }

  // ----- the operations -----

  /** push_pick: the row is queued, or, when both consumers are past it, everything goes. */
  function Push(Q: Queue, idx: int, line: nat): (Queue, seq<nat>) {
    if idx < Q.source && idx < Q.update then (Q.(head := Q.tail + 2, entries := []), [line] + Q.entries)
    else if Q.entries == [] || Q.tail < Q.head then (Q.(head := idx, tail := idx, entries := [line]), [])
    else (Q.(tail := idx, entries := Q.entries + [line]), [])
  }

  lemma PushOk<R>(b: Bank<R>, g: Geometry, q: nat, Q: Queue, lines: seq<R>, owner: seq<int>,
                  idx: int, line: nat, upd: int, src: int)
    requires QueueOk(b, g, q, Q, lines, owner, idx, upd, src)
    requires line < |owner| && owner[line] == q && line !in Q.entries && lines[line] == Row(b, g, q, idx)
    ensures var (P, ls) := Push(Q, idx, line);
            && QueueOk(b, g, q, P, lines, Freed(owner, ls), idx + 2, upd, src)
            && NoDup(ls) && forall i :: 0 <= i < |ls| ==> ls[i] < |owner| && owner[ls[i]] == q
  {
    var (P, ls) := Push(Q, idx, line);
    ParNext(idx);
    if ls != [] {
      ParGap(idx, upd);
      ParGap(idx, src);
      assert NoDup(ls);
    } else {
      assert Freed(owner, []) == owner;
      assert P.entries == Q.entries + [line];
      PushHolds(b, g, q, Q, lines, owner, idx, line, P);
    }
  }

  lemma NoDupAppend(s: seq<nat>, x: nat)
    requires NoDup(s) && x !in s
    ensures NoDup(s + [x])
  {
  }

  lemma PushHolds<R>(b: Bank<R>, g: Geometry, q: nat, Q: Queue, lines: seq<R>, owner: seq<int>, idx: int, line: nat,
                     P: Queue)
    requires q <= b.steps && |lines| == |owner| && Holds(b, g, q, Q, lines, owner)
    requires line < |owner| && owner[line] == q && line !in Q.entries && lines[line] == Row(b, g, q, idx)
    requires P.entries == Q.entries + [line] && (Q.entries != [] ==> P.head == Q.head)
    requires P.head + 2 * |Q.entries| == idx
    ensures Holds(b, g, q, P, lines, owner)
  {
    NoDupAppend(Q.entries, line);
  }

  /** The line of row idx. */
  function At(Q: Queue, idx: int): nat
    requires Q.head <= idx && (idx - Q.head) / 2 < |Q.entries|
  {
    Q.entries[(idx - Q.head) / 2]
  }

  predicate Has(Q: Queue, idx: int) {
    Q.head <= idx <= Q.tail
  }

  lemma AtHolds<R>(b: Bank<R>, g: Geometry, q: nat, Q: Queue, lines: seq<R>, owner: seq<int>,
                   push: int, upd: int, src: int, idx: int)
    requires QueueOk(b, g, q, Q, lines, owner, push, upd, src) && Has(Q, idx) && Par(idx) == Parity(q)
    ensures (idx - Q.head) / 2 < |Q.entries|
    ensures At(Q, idx) < |owner| && owner[At(Q, idx)] == q && lines[At(Q, idx)] == Row(b, g, q, idx)
  {
    ParHalf(Q.head, idx);
  }

  /** A wanted row that has been pushed is there. */
  lemma WantedIsThere(g: Geometry, q: nat, Q: Queue, push: int, upd: int, src: int, idx: int)
    requires Shape(g, q, Q, push) && Keeps(g, q, Q, push, upd, src)
    requires Par(push) == Par(idx) && Wanted(g, q, upd, src) <= idx < push
    ensures Has(Q, idx)
  {
    ParGap(idx, push);
  }

  /** Taking row idx up: the takers move on by one row. */
  lemma TakeOk<R>(b: Bank<R>, g: Geometry, q: nat, Q: Queue, lines: seq<R>, owner: seq<int>,
                  push: int, idx: int, src: int, limit: int)
    requires QueueOk(b, g, q, Q, lines, owner, push, idx, src)
    ensures var T := Q.(update := idx + 2); var n := Spent(T, limit);
            QueueOk(b, g, q, Drop(T, n), lines, Freed(owner, T.entries[..n]), push, idx + 2, src)
  {
    ParNext(idx);
    RespoolOk(b, g, q, Q.(update := idx + 2), lines, owner, push, idx + 2, src, limit);
  }

  /** Reading the neighbours of row y: the readers move on to y + 2. */
  lemma ReadOk<R>(b: Bank<R>, g: Geometry, q: nat, Q: Queue, lines: seq<R>, owner: seq<int>,
                  push: int, upd: int, y: int, limit: int)
    requires QueueOk(b, g, q, Q, lines, owner, push, upd, y - 1)
    ensures var T := Q.(source := y + 1); var n := Spent(T, limit);
            QueueOk(b, g, q, Drop(T, n), lines, Freed(owner, T.entries[..n]), push, upd, y + 1)
  {
    ParNext(y);
    RespoolOk(b, g, q, Q.(source := y + 1), lines, owner, push, upd, y + 1, limit);
  }
}
