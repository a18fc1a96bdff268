/** How many line buffers the streaming synthesis engine ever has.  In a window that starts at
    the first row a queue keeps no row longer than its consumers and the mirror at the last
    row ask for, so no queue ever holds more than two rows, and the pool no more lines than
    the queues together. */
module Spares {
  import opened Lifting
  import opened LineQueue
  import opened Progress
  import opened Queues

  /** Rows queue q can hold. */
  function Cap(q: nat): nat {
    if q == 0 then 1 else 2
  }

  /** All that the first n queues can hold. */
  function Capacity(n: nat): nat {
    if n == 0 then 0 else Capacity(n - 1) + Cap(n - 1)
  }

  lemma {:induction false} CapacityIs(n: nat)
    ensures Capacity(n + 1) == 2 * n + 1
  {
    if n > 0 {
      CapacityIs(n - 1);
    }
  }

  /** Rows held by the first n queues. */
  function Held(queues: seq<Queue>, n: nat): nat
    requires n <= |queues|
  {
    if n == 0 then 0 else Held(queues, n - 1) + |queues[n - 1].entries|
  }

  lemma {:induction false} HeldUpdate(queues: seq<Queue>, q: nat, Q: Queue, n: nat)
    requires q < |queues| && n <= |queues|
    ensures Held(queues[q := Q], n) == Held(queues, n) + if q < n then |Q.entries| - |queues[q].entries| else 0
    decreases n
  {
    if n > 0 {
      HeldUpdate(queues, q, Q, n - 1);
    }
  }

  /** The oldest row that queue q has a reason to keep. */
  function Oldest(g: Geometry, q: nat, m: Mark): int {
    if q == 0 then m.upd
    else if q == 1 then Min(m.upd - 2, Limit(g, q))
    else Min(Min(m.upd, m.src), Limit(g, q))
  }

  /** Queue q is not over its capacity, keeps nothing older than it has a reason to, and its
      own record of its consumers is up to date once they have started. */
  ghost predicate Lean(g: Geometry, q: nat, Q: Queue, m: Mark) {
    && |Q.entries| <= Cap(q)
    && (Q.entries != [] ==> Q.head >= Oldest(g, q, m))
    && (if q == 0 then Q.source == g.hi + 2 else Q.source == m.src || m.src <= First(g, q))
    && (q >= 2 ==> Q.update == m.upd || m.upd <= First(g, q))
  }

  ghost predicate AllLean(g: Geometry, queues: seq<Queue>, marks: seq<Mark>, n: nat)
    requires n <= |queues| && n <= |marks|
  {
    n == 0 || (AllLean(g, queues, marks, n - 1) && Lean(g, n - 1, queues[n - 1], marks[n - 1]))
  }

  lemma {:induction false} AllLeanAt(g: Geometry, queues: seq<Queue>, marks: seq<Mark>, n: nat, q: nat)
    requires q < n <= |queues| && n <= |marks| && AllLean(g, queues, marks, n)
    ensures Lean(g, q, queues[q], marks[q])
    decreases n
  {
    if q < n - 1 {
      AllLeanAt(g, queues, marks, n - 1, q);
    }
  }

  lemma {:induction false} AllLeanUpdate(g: Geometry, queues: seq<Queue>, marks: seq<Mark>, n: nat, q: nat, Q: Queue,
                                         m: Mark)
    requires q < |queues| == |marks| && n <= |queues| && AllLean(g, queues, marks, n) && Lean(g, q, Q, m)
    ensures AllLean(g, queues[q := Q], marks[q := m], n)
    decreases n
  {
    if n > 0 {
      AllLeanUpdate(g, queues, marks, n - 1, q, Q, m);
    }
  }

  /** A queue below its capacity leaves room for one more line. */
  lemma {:induction false} HeldBound(g: Geometry, queues: seq<Queue>, marks: seq<Mark>, n: nat, q: nat)
    requires n <= |queues| && n <= |marks| && AllLean(g, queues, marks, n) && q < |queues|
    ensures Held(queues, n) <= Capacity(n)
    ensures q < n && |queues[q].entries| < Cap(q) ==> Held(queues, n) < Capacity(n)
    decreases n
  {
    if n > 0 {
      HeldBound(g, queues, marks, n - 1, q);
    }
  }

  /** In a full window: every line is free or in a queue, and there are no more than the queues
      can hold. */
  ghost predicate Thrifty<R>(g: Geometry, queues: seq<Queue>, pool: Pool<R>, marks: seq<Mark>) {
    g.outLo == g.lo ==>
      && |queues| == |marks| && AllLean(g, queues, marks, |queues|)
      && |pool.lines| == |pool.free| + Held(queues, |queues|)
      && |pool.lines| <= Capacity(|queues|)
  }

  /** One queue changes, and the lines it loses go free. */
  lemma ReplaceThrifty<R>(g: Geometry, queues: seq<Queue>, pool: Pool<R>, marks: seq<Mark>, q: nat, Q: Queue, m: Mark,
                          pool': Pool<R>)
    requires Thrifty(g, queues, pool, marks) && q < |queues| == |marks| && |pool'.lines| == |pool.lines|
    requires g.outLo == g.lo ==> Lean(g, q, Q, m)
    requires |pool'.free| + |Q.entries| == |pool.free| + |queues[q].entries|
    ensures Thrifty(g, queues[q := Q], pool', marks[q := m])
  {
    if g.outLo == g.lo {
      AllLeanUpdate(g, queues, marks, |queues|, q, Q, m);
      HeldUpdate(queues, q, Q, |queues|);
    }
  }

  /** What recycling leaves is still wanted by someone. */
  lemma {:induction false} SpentAll(Q: Queue, limit: int)
    ensures var D := Drop(Q, Spent(Q, limit)); D.entries != [] ==> D.head >= Min(Min(Q.update, Q.source), limit)
    decreases |Q.entries|
  {
    if Q.head < Q.update && Q.head < Q.source && Q.entries != [] && Q.head < limit {
      var T := Q.(head := Q.head + 2, entries := Q.entries[1..]);
      SpentAll(T, limit);
      assert Drop(Q, Spent(Q, limit)).entries == Drop(T, Spent(T, limit)).entries;
    }
  }

  /** Taking a row up and recycling keeps a queue lean. */
  lemma TakeLean<R>(b: Bank<R>, g: Geometry, q: nat, Q: Queue, lines: seq<R>, owner: seq<int>, m: Mark, y: int)
    requires QueueOk(b, g, q, Q, lines, owner, m.push, m.upd, m.src) && Lean(g, q, Q, m) && m.upd == y
    requires (q == 0 ==> y <= g.hi) && (q == 1 ==> m.src >= y)
    ensures Lean(g, q, Respool(Q.(update := y + 2), Limit(g, q)).0, m.(upd := y + 2))
  {
    SpentAll(Q.(update := y + 2), Limit(g, q));
  }

  /** So does reading its rows and recycling. */
  lemma ReadLean<R>(b: Bank<R>, g: Geometry, q: nat, Q: Queue, lines: seq<R>, owner: seq<int>, m: Mark, y: int)
    requires QueueOk(b, g, q, Q, lines, owner, m.push, m.upd, m.src) && Lean(g, q, Q, m) && q >= 1
    ensures Lean(g, q, Respool(Q.(source := y + 1), Limit(g, q)).0, m.(src := y + 1))
  {
    SpentAll(Q.(source := y + 1), Limit(g, q));
  }

  /** And so does a row more, where there is room for it. */
  lemma PushLean<R>(b: Bank<R>, g: Geometry, q: nat, Q: Queue, lines: seq<R>, owner: seq<int>, m: Mark, y: int,
                    line: nat)
    requires QueueOk(b, g, q, Q, lines, owner, m.push, m.upd, m.src) && Lean(g, q, Q, m)
    requires m.push == y && m.upd <= y && |Q.entries| < Cap(q)
    ensures Lean(g, q, Push(Q, y, line).0, m.(push := y + 2))
  {
  }

  lemma LimitFacts(g: Geometry, q: nat)
    requires q >= 1
    ensures Limit(g, q) >= Last(g, q) - 2
  {
    RowFacts(g, q);
    ParNext(g.hi);
    ParNext(q);
  }

  /** A queue whose oldest row is at most one row back has room. */
  lemma FewRows(g: Geometry, q: nat, Q: Queue, push: int, oldest: int)
    requires Shape(g, q, Q, push) && (Q.entries != [] ==> Q.head >= oldest)
    ensures oldest >= push - 2 ==> |Q.entries| <= 1
    ensures oldest >= push ==> Q.entries == []
  {
  }

  lemma RoomAbove(g: Geometry, P: seq<int>, nextOut: int, s: nat)
    requires 2 <= s < |P| && Taut(g, P, nextOut, s) && P[s] <= Last(g, s)
    ensures Oldest(g, s, MarkOf(g, P, nextOut, s)) >= P[s] - 2
  {
    LimitFacts(g, s);
    assert Taut(g, P, nextOut, s - 1);
  }

  lemma RoomAt1(g: Geometry, P: seq<int>, nextOut: int, Q: Queue)
    requires |P| > 1 && Taut(g, P, nextOut, 1) && P[1] <= Last(g, 1)
    requires Q.entries != [] ==> Q.head >= Oldest(g, 1, MarkOf(g, P, nextOut, 1)) && Q.head >= First(g, 1)
    ensures Q.entries != [] ==> Q.head >= P[1] - 2
  {
    LimitFacts(g, 1);
    OutRowFacts(nextOut, 1);
    RowFacts(g, 0);
    RowFacts(g, 1);
    ParNext(g.lo);
    ParNext(nextOut);
    assert Taut(g, P, nextOut, 0);
  }

  lemma RoomAt0(g: Geometry, P: seq<int>, nextOut: int, Q: Queue)
    requires |P| > 0 && Taut(g, P, nextOut, 0)
    requires Q.entries != [] ==> Q.head >= Oldest(g, 0, MarkOf(g, P, nextOut, 0)) && Q.head >= First(g, 0)
    ensures Q.entries != [] ==> Q.head >= P[0]
  {
    OutRowFacts(nextOut, 0);
  }

  lemma TakersBehind(g: Geometry, P: seq<int>, nextOut: int, s: nat)
    requires Positions(g, P, nextOut) && g.outLo == g.lo && s < |P|
    ensures MarkOf(g, P, nextOut, s).upd <= P[s]
  {
    PosAt(g, P, nextOut, s);
    if s >= 2 {
      PosAt(g, P, nextOut, s - 2);
    } else {
      OutRowFacts(g.lo, s);
      RowFacts(g, s);
      ParNext(g.lo);
    }
  }

  /** A rung that is tried finds room in its queue. */
  lemma Room<R>(b: Bank<R>, g: Geometry, queues: seq<Queue>, pool: Pool<R>, owner: seq<int>, marks: seq<Mark>,
                P: seq<int>, nextOut: int, s: nat)
    requires Good(b, g, queues, pool, owner, marks) && s < |P| == |marks| && marks == Marks(g, P, nextOut, |P|)
    requires Positions(g, P, nextOut) && g.outLo == g.lo && Thrifty(g, queues, pool, marks)
    requires Taut(g, P, nextOut, s) && P[s] <= Last(g, s)
    ensures |queues[s].entries| < Cap(s) && marks[s].upd <= P[s]
  {
    GoodAt(b, g, queues, pool, owner, marks, s);
    AllLeanAt(g, queues, marks, |queues|, s);
    MarksAt(g, P, nextOut, |P|, s);
    TakersBehind(g, P, nextOut, s);
    if s >= 2 {
      RoomAbove(g, P, nextOut, s);
      FewRows(g, s, queues[s], P[s], P[s] - 2);
    } else if s == 1 {
      RoomAt1(g, P, nextOut, queues[s]);
      FewRows(g, s, queues[s], P[s], P[s] - 2);
    } else {
      RoomAt0(g, P, nextOut, queues[s]);
      FewRows(g, s, queues[s], P[s], P[s]);
    }
  }

  // ----- the operations -----

  lemma TakeThrifty<R>(b: Bank<R>, g: Geometry, queues: seq<Queue>, pool: Pool<R>, owner: seq<int>, marks: seq<Mark>,
                       q: nat, y: int, T: Queue)
    requires Good(b, g, queues, pool, owner, marks) && Thrifty(g, queues, pool, marks) && q <= b.steps
    requires marks[q].upd == y && T == queues[q].(update := y + 2)
    requires g.outLo == g.lo ==> (q == 0 ==> y <= g.hi) && (q == 1 ==> marks[q].src >= y)
    ensures var (Q, ls) := Respool(T, Limit(g, q));
            Thrifty(g, queues[q := Q], Release(pool, ls), marks[q := marks[q].(upd := y + 2)])
  {
    var (Q, ls) := Respool(T, Limit(g, q));
    if g.outLo == g.lo {
      GoodAt(b, g, queues, pool, owner, marks, q);
      AllLeanAt(g, queues, marks, |queues|, q);
      TakeLean(b, g, q, queues[q], pool.lines, owner, marks[q], y);
    }
    ReplaceThrifty(g, queues, pool, marks, q, Q, marks[q].(upd := y + 2), Release(pool, ls));
  }

  lemma ReadThrifty<R>(b: Bank<R>, g: Geometry, queues: seq<Queue>, pool: Pool<R>, owner: seq<int>, marks: seq<Mark>,
                       q: nat, y: int, T: Queue)
    requires Good(b, g, queues, pool, owner, marks) && Thrifty(g, queues, pool, marks) && 1 <= q <= b.steps
    requires T == queues[q].(source := y + 1)
    ensures var (Q, ls) := Respool(T, Limit(g, q));
            Thrifty(g, queues[q := Q], Release(pool, ls), marks[q := marks[q].(src := y + 1)])
  {
    var (Q, ls) := Respool(T, Limit(g, q));
    if g.outLo == g.lo {
      GoodAt(b, g, queues, pool, owner, marks, q);
      AllLeanAt(g, queues, marks, |queues|, q);
      ReadLean(b, g, q, queues[q], pool.lines, owner, marks[q], y);
    }
    ReplaceThrifty(g, queues, pool, marks, q, Q, marks[q].(src := y + 1), Release(pool, ls));
  }

  /** Queue q has room for row y. */
  predicate Roomy(g: Geometry, queues: seq<Queue>, marks: seq<Mark>, q: nat)
    requires q < |queues| && q < |marks|
  {
    g.outLo == g.lo ==> |queues[q].entries| < Cap(q) && marks[q].upd <= marks[q].push
  }

  lemma StoreThrifty<R>(b: Bank<R>, g: Geometry, queues: seq<Queue>, pool: Pool<R>, owner: seq<int>, marks: seq<Mark>,
                        q: nat, y: int, line: nat, pool': Pool<R>)
    requires Good(b, g, queues, pool, owner, marks) && Thrifty(g, queues, pool, marks) && q <= b.steps
    requires marks[q].push == y && Roomy(g, queues, marks, q)
    requires pool.free != [] && |pool'.lines| == |pool.lines| && |pool'.free| == |pool.free| - 1
    ensures var (Q, ls) := Push(queues[q], y, line);
            Thrifty(g, queues[q := Q], Release(pool', ls), marks[q := marks[q].(push := y + 2)])
  {
    var (Q, ls) := Push(queues[q], y, line);
    GoodAt(b, g, queues, pool, owner, marks, q);
    if g.outLo == g.lo {
      AllLeanAt(g, queues, marks, |queues|, q);
      PushLean(b, g, q, queues[q], pool.lines, owner, marks[q], y, line);
    }
    ReplaceThrifty(g, queues, pool, marks, q, Q, marks[q].(push := y + 2), Release(pool', ls));
  }

  /** A new line is made only when all lines are in queues that have room for one more. */
  lemma SlackThrifty<R>(g: Geometry, queues: seq<Queue>, pool: Pool<R>, marks: seq<Mark>, q: nat, blank: R)
    requires Thrifty(g, queues, pool, marks) && q < |queues| == |marks| && Roomy(g, queues, marks, q) && pool.free == []
    ensures Thrifty(g, queues, Pool(pool.lines + [blank], [|pool.lines|]), marks)
  {
    if g.outLo == g.lo {
      HeldBound(g, queues, marks, |queues|, q);
    }
  }

  /** A consumer's position set to where it stands, or, for the output, anywhere. */
  lemma SetThrifty<R>(g: Geometry, queues: seq<Queue>, pool: Pool<R>, marks: seq<Mark>, q: nat, Q: Queue)
    requires Thrifty(g, queues, pool, marks) && q < |queues| == |marks|
    requires Q == queues[q].(update := Q.update, source := Q.source)
    requires Q.source == queues[q].source || (q >= 1 && Q.source == marks[q].src)
    requires Q.update == queues[q].update || q <= 1 || Q.update == marks[q].upd
    ensures Thrifty(g, queues[q := Q], pool, marks)
  {
    if g.outLo == g.lo {
      AllLeanAt(g, queues, marks, |queues|, q);
    }
    ReplaceThrifty(g, queues, pool, marks, q, Q, marks[q], pool);
    assert marks == marks[q := marks[q]];
  }

  lemma LineBound<R>(g: Geometry, queues: seq<Queue>, pool: Pool<R>, marks: seq<Mark>, steps: nat)
    requires Thrifty(g, queues, pool, marks) && |queues| == steps + 1 && g.outLo == g.lo
    ensures |pool.lines| <= 2 * steps + 1
  {
    CapacityIs(steps);
  }
}
