/** Where the steps of the streaming synthesis engine stand: how far each queue has been
    filled, and how far its consumers have come, over every order in which rows are made. */
module Progress {
  import opened Lifting
  import opened LineQueue

  function Last(g: Geometry, q: nat): int { LastRow(g, Parity(q)) }

  /** The first row of queue q's parity that has not been put out. */
  function OutRow(nextOut: int, q: nat): int {
    if Par(nextOut) == Parity(q) then nextOut else nextOut + 1
  }

  /** The mark of queue q when the queues' next rows are P. */
  function MarkOf(g: Geometry, P: seq<int>, nextOut: int, q: nat): Mark
    requires q < |P|
  {
    Mark(P[q], if q >= 2 then P[q - 2] else OutRow(nextOut, q), if q == 0 then LastRow(g, 1) + 4 else P[q - 1] - 1)
  }

  function Marks(g: Geometry, P: seq<int>, nextOut: int, n: nat): (ms: seq<Mark>)
    requires n <= |P|
    ensures |ms| == n
  {
    if n == 0 then [] else Marks(g, P, nextOut, n - 1) + [MarkOf(g, P, nextOut, n - 1)]
  }

  lemma {:induction false} MarksAt(g: Geometry, P: seq<int>, nextOut: int, n: nat, q: nat)
    requires q < n <= |P|
    ensures Marks(g, P, nextOut, n)[q] == MarkOf(g, P, nextOut, q)
    decreases n
  {
    if q < n - 1 {
      MarksAt(g, P, nextOut, n - 1, q);
    }
  }

  /** The neighbours of every finished row of step q had been made. */
  predicate Behind(g: Geometry, P: seq<int>, q: nat)
    requires q + 1 < |P|
  {
    P[q] > First(g, q) ==> P[q + 1] > Up(g, P[q] - 2) && P[q + 1] > Down(g, P[q] - 2)
  }

  /** Step q stays inside its rows, behind the steps it draws on, and ahead of the output. */
  predicate Pos(g: Geometry, P: seq<int>, nextOut: int, q: nat)
    requires q < |P|
  {
    && Par(P[q]) == Parity(q) && First(g, q) <= P[q] <= Last(g, q) + 2
    && (q + 1 < |P| ==> Behind(g, P, q))
    && (q + 2 < |P| ==> P[q] <= P[q + 2])
    && (q < 2 ==> OutRow(nextOut, q) <= Max(P[q], OutRow(g.outLo, q)))
  }

  predicate AllPos(g: Geometry, P: seq<int>, nextOut: int, n: nat)
    requires n <= |P|
  {
    n == 0 || (AllPos(g, P, nextOut, n - 1) && Pos(g, P, nextOut, n - 1))
  }

  predicate Positions(g: Geometry, P: seq<int>, nextOut: int) {
    g.Valid() && |P| >= 3 && g.outLo <= nextOut <= g.outHi + 1 && AllPos(g, P, nextOut, |P|)
  }

  lemma {:induction false} AllPosAt(g: Geometry, P: seq<int>, nextOut: int, n: nat, q: nat)
    requires q < n <= |P| && AllPos(g, P, nextOut, n)
    ensures Pos(g, P, nextOut, q)
    decreases n
  {
    if q < n - 1 {
      AllPosAt(g, P, nextOut, n - 1, q);
    }
  }

  lemma {:induction false} AllPosIntro(g: Geometry, P: seq<int>, nextOut: int, n: nat)
    requires n <= |P| && forall q :: 0 <= q < n ==> Pos(g, P, nextOut, q)
    ensures AllPos(g, P, nextOut, n)
    decreases n
  {
    if n > 0 {
      AllPosIntro(g, P, nextOut, n - 1);
    }
  }

  lemma PosAt(g: Geometry, P: seq<int>, nextOut: int, q: nat)
    requires Positions(g, P, nextOut) && q < |P|
    ensures Pos(g, P, nextOut, q)
  {
    AllPosAt(g, P, nextOut, |P|, q);
  }

  lemma RowFacts(g: Geometry, q: nat)
    ensures Par(First(g, q)) == Par(Last(g, q)) == Parity(q)
    ensures g.lo <= First(g, q) <= g.lo + 1 && g.hi - 1 <= Last(g, q) <= g.hi
  {
    ParNext(g.lo);
    ParNext(g.hi);
  }

  lemma FirstRepeats(g: Geometry, q: nat)
    ensures First(g, q + 2) == First(g, q) && Last(g, q + 2) == Last(g, q)
  {
    ParNext(q);
  }

  lemma OutRowFacts(y: int, q: nat)
    ensures Par(OutRow(y, q)) == Parity(q) && y <= OutRow(y, q) <= y + 1
  {
    ParNext(y);
  }

  /** A row of the right parity is among the rows of its queue. */
  lemma InRows(g: Geometry, q: nat, idx: int)
    requires g.lo <= idx <= g.hi && Par(idx) == Parity(q)
    ensures First(g, q) <= idx <= Last(g, q)
  {
  }

  /** A step may move on once its input and its neighbours have been made. */
  predicate MayMove(g: Geometry, P: seq<int>, s: nat)
    requires s < |P|
  {
    && P[s] <= Last(g, s)
    && (s + 1 < |P| ==> P[s + 1] > Up(g, P[s]) && P[s + 1] > Down(g, P[s]))
    && (s + 2 < |P| ==> P[s + 2] > P[s])
  }

  lemma MovedPos(g: Geometry, P: seq<int>, nextOut: int, s: nat)
    requires s < |P| && Pos(g, P, nextOut, s) && MayMove(g, P, s)
    requires s + 2 < |P| ==> Par(P[s + 2]) == Parity(s)
    ensures Pos(g, P[s := P[s] + 2], nextOut, s)
  {
    ParNext(P[s]);
    RowFacts(g, s);
    if s + 2 < |P| {
      ParGap(P[s], P[s + 2]);
    }
  }

  lemma OtherPos(g: Geometry, P: seq<int>, nextOut: int, s: nat, q: nat)
    requires s < |P| && q < |P| && q != s && Pos(g, P, nextOut, q)
    ensures Pos(g, P[s := P[s] + 2], nextOut, q)
  {
  }

  lemma PositionsMove(g: Geometry, P: seq<int>, nextOut: int, s: nat)
    requires Positions(g, P, nextOut) && s < |P| && MayMove(g, P, s)
    ensures Positions(g, P[s := P[s] + 2], nextOut)
  {
    var N := P[s := P[s] + 2];
    forall q | 0 <= q < |P| ensures Pos(g, N, nextOut, q) {
      PosAt(g, P, nextOut, q);
      if q == s {
        if s + 2 < |P| {
          PosAt(g, P, nextOut, s + 2);
          ParNext(s);
        }
        MovedPos(g, P, nextOut, s);
      } else {
        OtherPos(g, P, nextOut, s, q);
      }
    }
    AllPosIntro(g, N, nextOut, |N|);
  }

  lemma OutPos(g: Geometry, P: seq<int>, y: int, q: nat)
    requires q < |P| && Pos(g, P, y, q) && (Par(y) == Parity(q) && q < 2 ==> P[q] > y)
    ensures Pos(g, P, y + 1, q)
  {
    OutRowFacts(y, q);
    OutRowFacts(y + 1, q);
    ParNext(y);
    if Par(y) == Parity(q) && q < 2 {
      ParGap(y, P[q]);
    }
  }

  /** The queue that the output takes row y from. */
  function OutQueue(y: int): nat {
    if Par(y) == 0 then 1 else 0
  }

  lemma OutQueueParity(y: int)
    ensures Parity(OutQueue(y)) == Par(y) && Parity(1 - OutQueue(y)) != Par(y)
  {
    ParNext(0);
  }

  lemma PositionsOut(g: Geometry, P: seq<int>, y: int)
    requires Positions(g, P, y) && y <= g.outHi && P[OutQueue(y)] > y
    ensures Positions(g, P, y + 1)
  {
    OutQueueParity(y);
    var z := y + 1;
    forall q | 0 <= q < |P| ensures Pos(g, P, z, q) {
      PosAt(g, P, y, q);
      assert q < 2 && q != OutQueue(y) ==> q == 1 - OutQueue(y);
      OutPos(g, P, y, q);
    }
    AllPosIntro(g, P, y + 1, |P|);
  }

  /** The neighbours of the row that step s + 1 is at have not been taken up by step s. */
  lemma NeighboursNotTaken(g: Geometry, P: seq<int>, nextOut: int, s: nat)
    requires Positions(g, P, nextOut) && s + 2 < |P| && P[s + 1] <= Last(g, s + 1)
    ensures Up(g, P[s + 1]) >= P[s] && Down(g, P[s + 1]) >= P[s]
  {
    var y := P[s + 1];
    PosAt(g, P, nextOut, s);
    PosAt(g, P, nextOut, s + 1);
    RowFacts(g, s + 1);
    NeighbourParity(g, y);
    ParNext(s);
    InRows(g, s, Up(g, y));
    InRows(g, s, Down(g, y));
    if P[s] > First(g, s) {
      RowFacts(g, s);
      ParGap(First(g, s), P[s]);
      ParNext(P[s]);
      NotTakenLater(g, P[s] - 2, y);
    }
  }

  lemma NotTakenLater(g: Geometry, r: int, y: int)
    requires g.Valid() && g.lo <= r <= g.hi && g.lo <= y <= g.hi && Par(r) == 1 - Par(y) && y > Up(g, r)
             && y > Down(g, r)
    ensures Up(g, y) >= r + 2 && Down(g, y) >= r + 2
  {
    ParNext(r);
    ParGap(r + 1, y);
  }

  // ----- marks and positions move together -----

  lemma MarksMove(g: Geometry, P: seq<int>, nextOut: int, s: nat, y: int)
    requires s < |P|
    ensures var ms := Marks(g, P, nextOut, |P|);
            var ms1 := ms[s := ms[s].(push := y)];
            var ms2 := if s + 1 < |P| then ms1[s + 1 := ms1[s + 1].(src := y - 1)] else ms1;
            var ms3 := if s + 2 < |P| then ms2[s + 2 := ms2[s + 2].(upd := y)] else ms2;
            Marks(g, P[s := y], nextOut, |P|) == ms3
  {
    var N := P[s := y];
    var ms := Marks(g, P, nextOut, |P|);
    forall q | 0 <= q < |P| ensures Marks(g, N, nextOut, |P|)[q] == MarkOf(g, N, nextOut, q)
        && ms[q] == MarkOf(g, P, nextOut, q) {
      MarksAt(g, N, nextOut, |P|, q);
      MarksAt(g, P, nextOut, |P|, q);
    }
  }

  lemma MarksOut(g: Geometry, P: seq<int>, y: int)
    requires |P| >= 2
    ensures var ms := Marks(g, P, y, |P|);
            Marks(g, P, y + 1, |P|) == ms[OutQueue(y) := ms[OutQueue(y)].(upd := y + 2)]
    ensures Marks(g, P, y, |P|)[OutQueue(y)].upd == y && Marks(g, P, y, |P|)[OutQueue(y)].push == P[OutQueue(y)]
  {
    var ms := Marks(g, P, y, |P|);
    OutQueueParity(y);
    ParNext(y);
    forall q | 0 <= q < |P| ensures Marks(g, P, y + 1, |P|)[q] == MarkOf(g, P, y + 1, q)
        && ms[q] == MarkOf(g, P, y, q) {
      MarksAt(g, P, y + 1, |P|, q);
      MarksAt(g, P, y, |P|, q);
    }
  }

  /** Rows still to be made for the first n queues. */
  function RowsLeft(g: Geometry, P: seq<int>, n: nat): int
    requires n <= |P|
  {
    if n == 0 then 0 else RowsLeft(g, P, n - 1) + (g.hi + 2 - P[n - 1])
  }

  lemma {:induction false} RowsLeftMove(g: Geometry, P: seq<int>, s: nat, y: int, n: nat)
    requires s < |P| && n <= |P|
    ensures RowsLeft(g, P[s := y], n) == RowsLeft(g, P, n) - if s < n then y - P[s] else 0
    decreases n
  {
    if n > 0 {
      RowsLeftMove(g, P, s, y, n - 1);
    }
  }

  lemma {:induction false} RowsLeftBound(g: Geometry, P: seq<int>, nextOut: int, n: nat)
    requires Positions(g, P, nextOut) && n <= |P|
    ensures RowsLeft(g, P, n) >= 0
    decreases n
  {
    if n > 0 {
      RowsLeftBound(g, P, nextOut, n - 1);
      PosAt(g, P, nextOut, n - 1);
      RowFacts(g, n - 1);
    }
  }

  // ----- how far ahead the steps may run -----

  /** Rung s and the rungs below it are as close together as they can be, and step 0 is at the
      next row to be put out or has not started. */
  predicate Taut(g: Geometry, P: seq<int>, nextOut: int, s: nat)
    requires s < |P|
  {
    if s == 0 then (if Par(nextOut) == 1 then P[0] <= nextOut else P[0] == First(g, 0))
    else P[s] <= P[s - 1] + 1 && Taut(g, P, nextOut, s - 1)
  }

  /** Rung s may be tried: it has rows left, it is at most s + 1 rows ahead of the output, and,
      in a window that starts at the first row, everything below it is taut. */
  predicate Called(g: Geometry, P: seq<int>, nextOut: int, s: nat)
    requires s < |P|
  {
    P[s] <= Last(g, s) && P[s] <= nextOut + s + 1 && (g.outLo == g.lo ==> Taut(g, P, nextOut, s))
  }

  lemma {:induction false} TautFrame(g: Geometry, P: seq<int>, nextOut: int, s: nat, k: nat, y: int)
    requires s < k < |P|
    ensures Taut(g, P[k := y], nextOut, s) == Taut(g, P, nextOut, s)
  {
    if s > 0 {
      TautFrame(g, P, nextOut, s - 1, k, y);
    }
  }

  /** A step that has started is at least a row behind the step it reads from, until it comes
      to its last row. */
  lemma StepsApart(g: Geometry, P: seq<int>, nextOut: int, s: nat)
    requires Positions(g, P, nextOut) && s + 1 < |P|
    ensures P[s] <= Last(g, s) ==> P[s] == First(g, s) || P[s + 1] >= P[s] + 1
    ensures P[s] > Last(g, s) ==> P[s + 1] > Last(g, s + 1)
    ensures g.lo <= First(g, s) <= P[s] && First(g, s) <= g.lo + 1
  {
    PosAt(g, P, nextOut, s);
    PosAt(g, P, nextOut, s + 1);
    RowFacts(g, s);
    RowFacts(g, s + 1);
    ParNext(s);
    if P[s] > First(g, s) {
      ParGap(First(g, s), P[s]);
      var r := P[s] - 2;
      ParNext(P[s]);
      NeighbourParity(g, r);
      if P[s] <= Last(g, s) {
        NeighbourMade(g, r, P[s + 1]);
      } else {
        ParGap(Last(g, s), P[s]);
        LastNeighbour(g, s, P[s + 1]);
      }
    }
  }

  lemma NeighbourMade(g: Geometry, r: int, z: int)
    requires g.Valid() && g.lo <= r <= g.hi - 1 && z > Down(g, r) && Par(z) == 1 - Par(r)
    ensures z >= r + 3
  {
    ParNext(r);
    ParGap(r + 1, z);
  }

  lemma LastNeighbour(g: Geometry, s: nat, z: int)
    requires g.Valid() && z > Up(g, Last(g, s)) && z > Down(g, Last(g, s)) && Par(z) == Parity(s + 1)
    ensures z > Last(g, s + 1)
  {
    RowFacts(g, s);
    RowFacts(g, s + 1);
    ParNext(s);
    ParNext(g.hi);
  }

  /** A rung that needs the one above it calls it. */
  lemma CalledNext(g: Geometry, P: seq<int>, nextOut: int, s: nat)
    requires Positions(g, P, nextOut) && s + 1 < |P| && Called(g, P, nextOut, s)
    requires P[s + 1] <= Last(g, s + 1) && P[s + 1] <= P[s] + 1
    ensures Called(g, P, nextOut, s + 1)
  {
  }

  /** A rung that needs the row two rungs up calls that rung: the one between is no further. */
  lemma CalledFresh(g: Geometry, P: seq<int>, nextOut: int, s: nat)
    requires Positions(g, P, nextOut) && s + 2 < |P| && Called(g, P, nextOut, s)
    requires P[s + 2] <= Last(g, s + 2) && P[s + 2] <= P[s]
    ensures Called(g, P, nextOut, s + 2)
  {
    StepsApart(g, P, nextOut, s);
    StepsApart(g, P, nextOut, s + 1);
    PosAt(g, P, nextOut, s + 2);
    RowFacts(g, s + 2);
    FirstRepeats(g, s);
  }

  /** A rung that may be tried lets the rung below be tried after it. */
  lemma CalledBelow(g: Geometry, P: seq<int>, nextOut: int, s: nat)
    requires Positions(g, P, nextOut) && s + 1 < |P| && Called(g, P, nextOut, s + 1)
    ensures Called(g, P[s + 1 := P[s + 1] + 2], nextOut, s)
  {
    StepsApart(g, P, nextOut, s);
    TautFrame(g, P, nextOut, s, s + 1, P[s + 1] + 2);
  }

  /** The output calls the rung that makes its next row. */
  lemma CalledOut(g: Geometry, P: seq<int>, y: int)
    requires Positions(g, P, y) && y <= g.outHi && P[OutQueue(y)] <= y
    ensures Called(g, P, y, OutQueue(y))
  {
    OutQueueParity(y);
    InRows(g, OutQueue(y), y);
    if OutQueue(y) == 1 && g.outLo == g.lo {
      PosAt(g, P, y, 0);
      OutRowFacts(y, 0);
      OutRowFacts(g.lo, 0);
      ParNext(y);
      StepsApart(g, P, y, 0);
      RowFacts(g, 0);
      RowFacts(g, 1);
    }
  }
}
