/** Every step of the weft machine keeps its invariant. */
module WeftInv {
  import opened Bytes
  import opened Weft

  // ----- sums over workers and stacks -----

  predicate NonNegative(t: Tally) {
    0 <= t.unread <= t.tokens && 0 <= t.tugs && 0 <= t.counted
  }

  lemma {:induction false} SumUpdate(ts: seq<Tally>, i: nat, t: Tally)
    requires i < |ts|
    ensures Sum(ts[i := t]) == Plus(Minus(Sum(ts), ts[i]), t)
    decreases |ts|
  {
    var us, k := ts[i := t], |ts| - 1;
    if i == k {
      assert us[..k] == ts[..k];
    } else {
      assert us[..k] == ts[..k][i := t];
      SumUpdate(ts[..k], i, t);
    }
  }

  lemma SumSnoc(ts: seq<Tally>, t: Tally)
    ensures Sum(ts + [t]) == Plus(Sum(ts), t)
  {
    assert (ts + [t])[..|ts|] == ts;
  }

  lemma {:induction false} FrameTalliesNonNegative(st: seq<Frame>, n: nat)
    ensures NonNegative(Sum(FrameTallies(st, n)))
    decreases |st|
  {
    if st != [] {
      FrameTalliesNonNegative(st[..|st| - 1], n);
      SumSnoc(FrameTallies(st[..|st| - 1], n), FrameTally(st[|st| - 1], n));
    }
  }

  lemma WorkerNonNegative(w: Worker, n: nat)
    ensures NonNegative(WorkerTally(w, n))
  {
    if w.Plying? {
      FrameTalliesNonNegative(w.stack, n);
    }
  }

  lemma {:induction false} WorkersNonNegative(ws: seq<Worker>, n: nat)
    ensures NonNegative(WorkersTally(ws, n))
    decreases |ws|
  {
    if ws != [] {
      WorkersNonNegative(ws[..|ws| - 1], n);
      WorkerNonNegative(ws[|ws| - 1], n);
      SumSnoc(WorkerTallies(ws[..|ws| - 1], n), WorkerTally(ws[|ws| - 1], n));
    }
  }

  lemma {:induction false} WorkerTalliesAt(ws: seq<Worker>, i: nat, n: nat)
    requires i < |ws|
    ensures WorkerTallies(ws, n)[i] == WorkerTally(ws[i], n)
    decreases |ws|
  {
    if i < |ws| - 1 {
      WorkerTalliesAt(ws[..|ws| - 1], i, n);
    }
  }

  lemma {:induction false} WorkerTalliesUpdate(ws: seq<Worker>, i: nat, w: Worker, n: nat)
    requires i < |ws|
    ensures WorkerTallies(ws[i := w], n) == WorkerTallies(ws, n)[i := WorkerTally(w, n)]
    decreases |ws|
  {
    var k := |ws| - 1;
    if i == k {
      assert ws[i := w][..k] == ws[..k];
    } else {
      assert ws[i := w][..k] == ws[..k][i := w];
      WorkerTalliesUpdate(ws[..k], i, w, n);
    }
  }

  lemma WorkersUpdate(ws: seq<Worker>, i: nat, w: Worker, n: nat)
    requires i < |ws|
    ensures WorkersTally(ws[i := w], n) == Plus(Minus(WorkersTally(ws, n), WorkerTally(ws[i], n)), WorkerTally(w, n))
  {
    WorkerTalliesUpdate(ws, i, w, n);
    WorkerTalliesAt(ws, i, n);
    SumUpdate(WorkerTallies(ws, n), i, WorkerTally(w, n));
  }

  /** The tally of a worker is that of the frames below plus that of its top frame. */
  lemma TopTally(w: Worker, below: seq<Frame>, f: Frame, n: nat)
    requires w.Plying? && w.stack == below + [f]
    ensures WorkerTally(w, n) == Plus(Sum(FrameTallies(below, n)), FrameTally(f, n))
  {
    assert w.stack[..|w.stack| - 1] == below && w.stack[|w.stack| - 1] == f;
    SumSnoc(FrameTallies(below, n), FrameTally(f, n));
  }

  lemma Exchange(x: Tally, a: Tally, b: Tally)
    ensures Plus(Minus(Plus(x, a), a), b) == Plus(x, b)
    ensures Minus(Plus(x, a), a) == x
  {
  }

  lemma SetTopTally(w: Worker, f: Frame, n: nat)
    requires w.Plying? && w.stack != []
    ensures WorkerTally(SetTop(w, f), n) == Plus(Minus(WorkerTally(w, n), FrameTally(Top(w), n)), FrameTally(f, n))
  {
    var below := w.stack[..|w.stack| - 1];
    TopTally(w, below, Top(w), n);
    TopTally(SetTop(w, f), below, f, n);
    Exchange(Sum(FrameTallies(below, n)), FrameTally(Top(w), n), FrameTally(f, n));
  }

  lemma PushTally(w: Worker, f: Frame, n: nat)
    requires w.Plying?
    ensures WorkerTally(Push(w, f), n) == Plus(WorkerTally(w, n), FrameTally(f, n))
  {
    TopTally(Push(w, f), w.stack, f, n);
  }

  lemma OneFrame(f: Frame, n: nat)
    ensures WorkerTally(Plying([f]), n) == Plus(NIL, FrameTally(f, n))
  {
    TopTally(Plying([f]), [], f, n);
  }

  lemma PopTally(w: Worker, n: nat)
    requires w.Plying? && w.stack != []
    ensures WorkerTally(Pop(w), n) == Minus(WorkerTally(w, n), FrameTally(Top(w), n))
  {
    var below := w.stack[..|w.stack| - 1];
    TopTally(w, below, Top(w), n);
    Exchange(Sum(FrameTallies(below, n)), FrameTally(Top(w), n), NIL);
    if |w.stack| == 1 {
      assert below == [];
    }
  }

  lemma {:induction false} SleeperFound(ws: seq<Worker>)
    ensures match FirstSleeper(ws)
            case Some(i) => i < |ws| && ws[i].Sleeping?
            case None => forall k :: 0 <= k < |ws| ==> Awake(ws[k])
    decreases |ws|
  {
    if ws != [] {
      SleeperFound(ws[1..]);
      assert forall k :: 1 <= k < |ws| ==> ws[k] == ws[1..][k - 1];
    }
  }

  /** Waking a worker changes no tally. */
  lemma WakeOneTally(ws: seq<Worker>, n: nat)
    ensures WorkersTally(WakeOne(ws), n) == WorkersTally(ws, n)
  {
    SleeperFound(ws);
    if FirstSleeper(ws).Some? {
      WorkersUpdate(ws, FirstSleeper(ws).value, Looking, n);
    }
  }

  // ----- shapes -----

  lemma SetTopShaped(s: State, w: Worker, f: Frame)
    requires ShapedWorker(w) && WorkerInRange(s, w) && w.Plying?
    requires ShapedFrame(f, |w.stack| - 1, true) && FrameInRange(s, f)
    ensures ShapedWorker(SetTop(w, f)) && WorkerInRange(s, SetTop(w, f))
  {
    var v := SetTop(w, f);
    assert |v.stack| == |w.stack| && forall k :: 0 <= k < |w.stack| - 1 ==> v.stack[k] == w.stack[k];
  }

  lemma PushShaped(s: State, w: Worker, f: Frame)
    requires ShapedWorker(w) && WorkerInRange(s, w) && w.Plying? && |w.stack| <= CHAIN_DEPTH_CAP
    requires Top(w).phase == Tying
    requires ShapedFrame(f, |w.stack|, true) && FrameInRange(s, f)
    ensures ShapedWorker(Push(w, f)) && WorkerInRange(s, Push(w, f))
  {
    var v := Push(w, f);
    assert forall k :: 0 <= k < |w.stack| ==> v.stack[k] == w.stack[k];
  }

  lemma PopShaped(s: State, w: Worker)
    requires ShapedWorker(w) && WorkerInRange(s, w) && w.Plying?
    ensures ShapedWorker(Pop(w)) && WorkerInRange(s, Pop(w))
  {
    if |w.stack| > 1 {
      var v := Pop(w);
      assert forall k :: 0 <= k < |v.stack| ==> v.stack[k] == w.stack[k];
    }
  }

  /** t is s with worker i replaced, and the other parts still in range. */
  predicate Replaces(s: State, t: State, i: nat, w: Worker) {
    && i < |s.workers| && t.workers == s.workers[i := w]
    && |t.events| == |s.events| && |t.seen| == |s.seen|
  }

  lemma ReplaceShaped(s: State, t: State, i: nat, w: Worker)
    requires Shaped(s) && Replaces(s, t, i, w) && ShapedWorker(w) && WorkerInRange(s, w)
    requires forall k :: 0 <= k < |t.queue| ==> InRange(s, t.queue[k])
    requires forall n :: n in t.scheduled ==> InRange(s, n)
    requires t.host == s.host || t.host.Woken?
    ensures Shaped(t)
  {
    forall j | 0 <= j < |t.workers| ensures ShapedWorker(t.workers[j]) && WorkerInRange(t, t.workers[j]) {
      if j == i {
        SameRange(s, t, w);
      } else {
        SameRange(s, t, s.workers[j]);
      }
    }
  }

  lemma SameRange(s: State, t: State, w: Worker)
    requires |t.events| == |s.events| && WorkerInRange(s, w)
    ensures WorkerInRange(t, w)
  {
    if w.Plying? {
      forall k | 0 <= k < |w.stack| ensures FrameInRange(t, w.stack[k]) {
        assert FrameInRange(s, w.stack[k]);
      }
    }
  }

  lemma TotalNonNegative(s: State, n: nat)
    ensures NonNegative(Total(s, n))
  {
    WorkersNonNegative(s.workers, n);
  }

  /** How the total for a node changes when worker i is replaced. */
  lemma ReplaceTotal(s: State, t: State, i: nat, w: Worker, n: nat)
    requires Replaces(s, t, i, w)
    ensures Total(t, n) == Plus(Plus(Plus(Minus(WorkersTally(s.workers, n), WorkerTally(s.workers[i], n)),
            WorkerTally(w, n)),
                                     QueueTally(t.queue, n)), HostTally(t.host, n))
  {
    WorkersUpdate(s.workers, i, w, n);
  }

  lemma Reorder(ws: Tally, w: Tally, f: Tally, g: Tally, q: Tally, h: Tally)
    ensures Plus(Plus(Plus(Minus(ws, w), Plus(Minus(w, f), g)), q), h) == Plus(Minus(Plus(Plus(ws, q), h), f), g)
  {
  }

  /** A step that only changes the top frame of worker i. */
  lemma TopStepTotal(s: State, t: State, i: nat, g: Frame, n: nat)
    requires i < |s.workers| && s.workers[i].Plying? && s.workers[i].stack != []
    requires Replaces(s, t, i, SetTop(s.workers[i], g)) && t.queue == s.queue && t.host == s.host
    ensures Total(t, n) == Plus(Minus(Total(s, n), FrameTally(Top(s.workers[i]), n)), FrameTally(g, n))
  {
    var w := s.workers[i];
    ReplaceTotal(s, t, i, SetTop(w, g), n);
    SetTopTally(w, g, n);
    Reorder(WorkersTally(s.workers, n), WorkerTally(w, n), FrameTally(Top(w), n), FrameTally(g, n),
            QueueTally(s.queue, n), HostTally(s.host, n));
  }

  /** The top frame of a worker is part of the total. */
  lemma TopBelowTotal(s: State, i: nat, n: nat)
    requires i < |s.workers| && s.workers[i].Plying? && s.workers[i].stack != []
    ensures NonNegative(Minus(Total(s, n), FrameTally(Top(s.workers[i]), n)))
  {
    var w := s.workers[i];
    var below := w.stack[..|w.stack| - 1];
    TopTally(w, below, Top(w), n);
    FrameTalliesNonNegative(below, n);
    WorkersUpdate(s.workers, i, Looking, n);
    WorkersNonNegative(s.workers[i := Looking], n);
    Remainder(WorkersTally(s.workers, n), WorkerTally(w, n), Sum(FrameTallies(below, n)), FrameTally(Top(w), n),
              QueueTally(s.queue, n), HostTally(s.host, n));
  }

  lemma Remainder(ws: Tally, w: Tally, b: Tally, f: Tally, q: Tally, h: Tally)
    requires w == Plus(b, f) && NonNegative(b) && NonNegative(Plus(Minus(ws, w), NIL)) && NonNegative(q)
             && NonNegative(h)
    ensures NonNegative(Minus(Plus(Plus(ws, q), h), f))
  {
  }

  /** A replaced worker that is awake and does not swallow an announcement. */
  lemma ReplaceWakeups(s: State, t: State, i: nat, w: Worker)
    requires WakeupsOk(s) && Replaces(s, t, i, w) && Awake(w) && t.host == s.host
    requires s.outstanding > 0 ==> t.outstanding > 0 || LastOut(w)
    requires LastOut(s.workers[i]) ==> LastOut(w) || t.outstanding > 0
    ensures WakeupsOk(t)
  {
    assert Awake(t.workers[i]);
    if (s.host.Parking? || s.host.Parked?) && t.outstanding <= 0 && !LastOut(w) {
      var k :| 0 <= k < |s.workers| && LastOut(s.workers[k]);
      assert t.workers[k] == s.workers[k];
    }
  }

  /** Worker i is inside ply_node with top frame f, and t is s with that frame replaced. */
  ghost predicate TopStep(s: State, t: State, i: nat, f: Frame, g: Frame) {
    && i < |s.workers| && s.workers[i].Plying? && s.workers[i].stack != [] && f == Top(s.workers[i])
    && Replaces(s, t, i, SetTop(s.workers[i], g)) && t.queue == s.queue && t.host == s.host
  }

  lemma TopShape(s: State, i: nat)
    requires Shaped(s) && i < |s.workers| && s.workers[i].Plying? && s.workers[i].stack != []
    ensures ShapedFrame(Top(s.workers[i]), |s.workers[i].stack| - 1, true) && FrameInRange(s, Top(s.workers[i]))
  {
  }

  /** Assembling the invariant after a step on a top frame. */
  lemma TopStepKeeps(s: State, t: State, i: nat, f: Frame, g: Frame)
    requires Inv(s) && TopStep(s, t, i, f, g)
    requires ShapedFrame(g, |s.workers[i].stack| - 1, true) && FrameInRange(s, g)
    requires forall n :: n in t.scheduled ==> InRange(s, n)
    requires forall n :: InRange(t, n) ==> NodeOk(t, n)
    requires t.outstanding - s.outstanding == FrameTally(g, 0).counted - FrameTally(f, 0).counted
    requires t.outstanding > 0 || g.phase.Announcing?
             || (s.outstanding <= 0 && (f.phase.Announcing? ==> g.phase.Announcing?))
    ensures Inv(t)
  {
    var w := s.workers[i];
    SetTopShaped(s, w, g);
    ReplaceShaped(s, t, i, SetTop(w, g));
    assert Top(SetTop(w, g)) == g;
    ReplaceWakeups(s, t, i, SetTop(w, g));
    TopStepTotal(s, t, i, g, 0);
  }

  /** The totals before and after, and the part of the total outside the frame. */
  lemma TopTotals(s: State, t: State, i: nat, f: Frame, g: Frame, n: nat)
    requires Inv(s) && TopStep(s, t, i, f, g) && InRange(s, n)
    ensures NodeOk(s, n)
    ensures Total(t, n) == Plus(Minus(Total(s, n), FrameTally(f, n)), FrameTally(g, n))
    ensures NonNegative(Minus(Total(s, n), FrameTally(f, n)))
  {
    TopStepTotal(s, t, i, g, n);
    TopBelowTotal(s, i, n);
  }

  // ----- the steps of a worker -----

  lemma OpenNode(s: State, t: State, i: nat, f: Frame, n: nat)
    requires Inv(s) && TopStep(s, t, i, f, f.(phase := Weaving)) && InRange(s, n)
    requires f.phase.Opening? && !f.observed && t == s.(dirty := s.dirty - {f.node}, workers := t.workers)
    ensures NodeOk(t, n)
  {
    TopTotals(s, t, i, f, f.(phase := Weaving), n);
  }

  /** open_shed: DIRTY may be cleared because the pass has yet to look. */
  lemma OpenKeeps(s: State, i: nat)
    requires Inv(s) && Step(s, i, Open).Some?
    ensures Inv(Step(s, i, Open).value)
  {
    var t, f := Step(s, i, Open).value, Top(s.workers[i]);
    TopShape(s, i);
    forall n | InRange(t, n) ensures NodeOk(t, n) {
      OpenNode(s, t, i, f, n);
    }
    TopStepKeeps(s, t, i, f, f.(phase := Weaving));
  }

  lemma ObserveNode(s: State, t: State, i: nat, f: Frame, n: nat)
    requires Inv(s) && TopStep(s, t, i, f, f.(observed := true)) && InRange(s, n) && InRange(s, f.node)
    requires f.phase.Weaving? && t == s.(seen := s.seen[f.node := s.events[f.node]], workers := t.workers)
    ensures NodeOk(t, n)
  {
    TopTotals(s, t, i, f, f.(observed := true), n);
  }

  /** A pass reads its rings: all that was published to the node so far is seen. */
  lemma ObserveKeeps(s: State, i: nat)
    requires Inv(s) && Step(s, i, Observe).Some?
    ensures Inv(Step(s, i, Observe).value)
  {
    var t, f := Step(s, i, Observe).value, Top(s.workers[i]);
    TopShape(s, i);
    forall n | InRange(t, n) ensures NodeOk(t, n) {
      ObserveNode(s, t, i, f, n);
    }
    TopStepKeeps(s, t, i, f, f.(observed := true));
  }

  lemma PublishNode(s: State, t: State, i: nat, f: Frame, m: nat, n: nat)
    requires Inv(s) && InRange(s, m) && TopStep(s, t, i, f, f.(phase := Published(m))) && InRange(s, n)
    requires f.phase.Weaving? && t == s.(events := s.events[m := s.events[m] + 1], workers := t.workers)
    ensures NodeOk(t, n)
  {
    TopTotals(s, t, i, f, f.(phase := Published(m)), n);
  }

  /** Rows published to a node are covered by the tug that follows. */
  lemma PublishKeeps(s: State, i: nat, m: nat)
    requires Inv(s) && Step(s, i, Publish(m)).Some?
    ensures Inv(Step(s, i, Publish(m)).value)
  {
    var t, f := Step(s, i, Publish(m)).value, Top(s.workers[i]);
    TopShape(s, i);
    forall n | InRange(t, n) ensures NodeOk(t, n) {
      PublishNode(s, t, i, f, m, n);
    }
    TopStepKeeps(s, t, i, f, f.(phase := Published(m)));
  }

  lemma TugLostNode(s: State, t: State, i: nat, f: Frame, m: nat, n: nat)
    requires Inv(s) && InRange(s, n) && f.phase == Published(m) && m in s.scheduled
    requires TopStep(s, t, i, f, f.(phase := Weaving)) && t == s.(dirty := s.dirty + {m}, workers := t.workers)
    ensures NodeOk(t, n)
  {
    TopTotals(s, t, i, f, f.(phase := Weaving), n);
  }

  lemma WonTally(f: Frame, m: nat, n: nat)
    requires f.phase == Published(m)
    ensures FrameTally(f.(phase := Won(m)), n) == Plus(FrameTally(f, n), Tally(B(m == n), B(m == n), Neg(m == n), 0))
  {
  }

  lemma Grow(a: Tally, f: Tally, g: Tally, d: Tally)
    requires g == Plus(f, d)
    ensures Plus(Minus(a, f), g) == Plus(a, d)
  {
  }

  /** Winning SCHEDULED turns the tug into a holder that has yet to look. */
  lemma WonCovered(won: bool, scheduled: bool, dirty: bool, seen: nat, events: nat, a: Tally)
    requires Covered(scheduled, dirty, seen, events, a) && NonNegative(a) && (won ==> !scheduled)
    ensures Covered(scheduled || won, dirty, seen, events, Plus(a, Tally(B(won), B(won), Neg(won), 0)))
  {
  }

  lemma TugWonTotal(s: State, t: State, i: nat, f: Frame, m: nat, n: nat)
    requires f.phase == Published(m) && TopStep(s, t, i, f, f.(phase := Won(m)))
    ensures Total(t, n) == Plus(Total(s, n), Tally(B(m == n), B(m == n), Neg(m == n), 0))
  {
    TopStepTotal(s, t, i, f.(phase := Won(m)), n);
    WonTally(f, m, n);
    Grow(Total(s, n), FrameTally(f, n), FrameTally(f.(phase := Won(m)), n),
         Tally(B(m == n), B(m == n), Neg(m == n), 0));
  }

  lemma TugWonNode(s: State, t: State, i: nat, f: Frame, m: nat, n: nat)
    requires |s.seen| == |s.events| && InRange(s, n) && NodeOk(s, n) && f.phase == Published(m) && m !in s.scheduled
    requires TopStep(s, t, i, f, f.(phase := Won(m))) && t == s.(scheduled := s.scheduled + {m}, workers := t.workers)
    ensures NodeOk(t, n)
  {
    TugWonTotal(s, t, i, f, m, n);
    TotalNonNegative(s, n);
    WonCovered(m == n, n in s.scheduled, n in s.dirty, s.seen[n], s.events[n], Total(s, n));
  }

  lemma TugLostKeeps(s: State, t: State, i: nat, f: Frame, m: nat)
    requires Inv(s) && f.phase == Published(m) && m in s.scheduled
    requires TopStep(s, t, i, f, f.(phase := Weaving)) && t == s.(dirty := s.dirty + {m}, workers := t.workers)
    ensures Inv(t)
  {
    TopShape(s, i);
    forall n | InRange(t, n) ensures NodeOk(t, n) {
      TugLostNode(s, t, i, f, m, n);
    }
    TopStepKeeps(s, t, i, f, f.(phase := Weaving));
  }

  lemma TugWonKeeps(s: State, t: State, i: nat, f: Frame, m: nat)
    requires Inv(s) && f.phase == Published(m) && m !in s.scheduled
    requires TopStep(s, t, i, f, f.(phase := Won(m))) && t == s.(scheduled := s.scheduled + {m}, workers := t.workers)
    ensures Inv(t)
  {
    TopShape(s, i);
    forall n | InRange(t, n) ensures NodeOk(t, n) {
      TugWonNode(s, t, i, f, m, n);
    }
    TopStepKeeps(s, t, i, f, f.(phase := Won(m)));
  }

  /** tug: exactly one notifier wins SCHEDULED; the others leave DIRTY. */
  lemma TugKeeps(s: State, i: nat)
    requires Inv(s) && Step(s, i, Tug).Some?
    ensures Inv(Step(s, i, Tug).value)
  {
    var t, f := Step(s, i, Tug).value, Top(s.workers[i]);
    if f.phase.target in s.scheduled {
      TugLostKeeps(s, t, i, f, f.phase.target);
    } else {
      TugWonKeeps(s, t, i, f, f.phase.target);
    }
  }

  lemma CountNode(s: State, t: State, i: nat, f: Frame, m: nat, n: nat)
    requires Inv(s) && TopStep(s, t, i, f, f.(phase := Counted(m))) && InRange(s, n)
    requires f.phase == Won(m) && t == s.(outstanding := s.outstanding + 1, workers := t.workers)
    ensures NodeOk(t, n)
  {
    TopTotals(s, t, i, f, f.(phase := Counted(m)), n);
  }

  lemma CountKeeps(s: State, i: nat)
    requires Inv(s) && Step(s, i, Count).Some?
    ensures Inv(Step(s, i, Count).value)
  {
    var t, f := Step(s, i, Count).value, Top(s.workers[i]);
    var m := f.phase.target;
    TopShape(s, i);
    forall n | InRange(t, n) ensures NodeOk(t, n) {
      CountNode(s, t, i, f, m, n);
    }
    OutstandingNonNegative(s);
    TopStepKeeps(s, t, i, f, f.(phase := Counted(m)));
  }

  /** The counter never goes below zero. */
  lemma OutstandingNonNegative(s: State)
    requires Inv(s)
    ensures s.outstanding >= 0
  {
    WorkersNonNegative(s.workers, 0);
  }

  // ----- routing a counted target: chained or queued -----

  lemma ChainNode(s: State, t: State, i: nat, f: Frame, m: nat, n: nat)
    requires Inv(s) && InRange(s, n) && f.phase == Counted(m) && f.chain.None?
    requires TopStep(s, t, i, f, f.(phase := Weaving, chain := Some(m))) && t == s.(workers := t.workers)
    ensures NodeOk(t, n)
  {
    TopTotals(s, t, i, f, f.(phase := Weaving, chain := Some(m)), n);
  }

  lemma ChainKeeps(s: State, t: State, i: nat, f: Frame, m: nat)
    requires Inv(s) && f.phase == Counted(m) && f.chain.None?
    requires TopStep(s, t, i, f, f.(phase := Weaving, chain := Some(m))) && t == s.(workers := t.workers)
    requires |s.workers[i].stack| <= CHAIN_DEPTH_CAP
    ensures Inv(t)
  {
    TopShape(s, i);
    forall n | InRange(t, n) ensures NodeOk(t, n) {
      ChainNode(s, t, i, f, m, n);
    }
    TopStepKeeps(s, t, i, f, f.(phase := Weaving, chain := Some(m)));
  }

  lemma QueueSnoc(q: seq<nat>, m: nat, n: nat)
    ensures QueueTally(q + [m], n) == Plus(QueueTally(q, n), Tally(B(m == n), B(m == n), 0, 1))
  {
    assert multiset(q + [m]) == multiset(q) + multiset{m};
  }

  /** What a frame on its way to the queue carries besides its own share. */
  lemma CarriedTally(f: Frame, m: nat, n: nat)
    requires f.phase == Counted(m)
    ensures FrameTally(f, n) == Plus(FrameTally(f.(phase := Spooled), n), Tally(B(m == n), B(m == n), 0, 1))
  {
  }

  lemma HandOver(w: Tally, f: Tally, g: Tally, d: Tally, q: Tally, h: Tally)
    requires f == Plus(g, d)
    ensures Plus(Plus(Plus(Minus(w, f), g), Plus(q, d)), h) == Plus(Plus(w, q), h)
  {
  }

  lemma WorkerStepTally(s: State, i: nat, g: Frame, n: nat)
    requires i < |s.workers| && s.workers[i].Plying? && s.workers[i].stack != []
    ensures WorkersTally(s.workers[i := SetTop(s.workers[i], g)], n)
         == Plus(Minus(WorkersTally(s.workers, n), FrameTally(Top(s.workers[i]), n)), FrameTally(g, n))
  {
    var w := s.workers[i];
    WorkersUpdate(s.workers, i, SetTop(w, g), n);
    SetTopTally(w, g, n);
    Reorder(WorkersTally(s.workers, n), WorkerTally(w, n), FrameTally(Top(w), n), FrameTally(g, n), NIL, NIL);
  }

  /** A queued target is counted where the frame carried it before. */
  lemma SpoolTotal(s: State, t: State, i: nat, f: Frame, m: nat, n: nat)
    requires i < |s.workers| && s.workers[i].Plying? && s.workers[i].stack != []
    requires f == Top(s.workers[i]) && f.phase == Counted(m)
    requires t == s.(queue := s.queue + [m], workers := s.workers[i := SetTop(s.workers[i], f.(phase := Spooled))])
    ensures Total(t, n) == Total(s, n)
  {
    var g := f.(phase := Spooled);
    WorkerStepTally(s, i, g, n);
    QueueSnoc(s.queue, m, n);
    CarriedTally(f, m, n);
    HandOver(WorkersTally(s.workers, n), FrameTally(f, n), FrameTally(g, n), Tally(B(m == n), B(m == n), 0, 1),
             QueueTally(s.queue, n), HostTally(s.host, n));
  }

  lemma SpoolKeeps(s: State, t: State, i: nat, f: Frame, m: nat)
    requires Inv(s) && i < |s.workers| && s.workers[i].Plying? && s.workers[i].stack != []
    requires f == Top(s.workers[i]) && f.phase == Counted(m)
    requires t == s.(queue := s.queue + [m], workers := s.workers[i := SetTop(s.workers[i], f.(phase := Spooled))])
    ensures Inv(t)
  {
    var g := f.(phase := Spooled);
    TopShape(s, i);
    SetTopShaped(s, s.workers[i], g);
    ReplaceShaped(s, t, i, SetTop(s.workers[i], g));
    ReplaceWakeups(s, t, i, SetTop(s.workers[i], g));
    forall n | InRange(t, n) ensures NodeOk(t, n) {
      assert NodeOk(s, n);
      SpoolTotal(s, t, i, f, m, n);
    }
    SpoolTotal(s, t, i, f, m, 0);
  }

  /** shuttle's notify: the first target becomes the tail chain, the others are spooled. */
  lemma RouteKeeps(s: State, i: nat)
    requires Inv(s) && Step(s, i, Route).Some?
    ensures Inv(Step(s, i, Route).value)
  {
    var t, f := Step(s, i, Route).value, Top(s.workers[i]);
    if |s.workers[i].stack| <= CHAIN_DEPTH_CAP && f.chain.None? {
      ChainKeeps(s, t, i, f, f.phase.target);
    } else {
      SpoolKeeps(s, t, i, f, f.phase.target);
    }
  }

  // ----- waking a worker -----

  lemma WokenWorkers(ws: seq<Worker>)
    ensures |WakeOne(ws)| == |ws|
    ensures ws != [] ==> exists k :: 0 <= k < |ws| && Awake(WakeOne(ws)[k])
    ensures forall k :: 0 <= k < |ws| ==> WakeOne(ws)[k] == ws[k] || (ws[k].Sleeping? && WakeOne(ws)[k] == Looking)
  {
    SleeperFound(ws);
    match FirstSleeper(ws) {
      case Some(i) => assert Awake(WakeOne(ws)[i]);
      case None => assert ws != [] ==> Awake(ws[0]);
    }
  }

  lemma WakeShaped(s: State, t: State)
    requires Shaped(s) && t == s.(workers := WakeOne(s.workers), host := t.host)
    requires t.host == s.host || t.host.Free?
    ensures Shaped(t)
  {
    WokenWorkers(s.workers);
    forall j | 0 <= j < |t.workers| ensures ShapedWorker(t.workers[j]) && WorkerInRange(t, t.workers[j]) {
      SameRange(s, t, s.workers[j]);
    }
  }

  lemma WakeWakeups(s: State, t: State)
    requires WakeupsOk(s) && s.workers != [] && t == s.(workers := WakeOne(s.workers), host := t.host)
    requires t.host == s.host || t.host.Free?
    ensures WakeupsOk(t)
  {
    WokenWorkers(s.workers);
    if (t.host.Parking? || t.host.Parked?) && t.outstanding <= 0 {
      var k :| 0 <= k < |s.workers| && LastOut(s.workers[k]);
      assert LastOut(t.workers[k]);
    }
  }

  /** notify_one only turns a sleeper into a worker that looks at the queue. */
  lemma WakeKeeps(s: State, t: State)
    requires Inv(s) && t == s.(workers := WakeOne(s.workers), host := t.host)
    requires t.host == s.host || (s.host.HostSpooled? && t.host.Free?)
    ensures Inv(t)
  {
    WakeShaped(s, t);
    WakeWakeups(s, t);
    forall n | InRange(t, n) ensures NodeOk(t, n) {
      assert NodeOk(s, n);
      WakeOneTally(s.workers, n);
    }
    WakeOneTally(s.workers, 0);
  }

  lemma SameTallyKeeps(s: State, t: State, i: nat, f: Frame, g: Frame)
    requires Inv(s) && TopStep(s, t, i, f, g) && t == s.(workers := t.workers)
    requires ShapedFrame(g, |s.workers[i].stack| - 1, true) && FrameInRange(s, g)
    requires forall n :: FrameTally(g, n) == FrameTally(f, n)
    requires !f.phase.Announcing?
    ensures Inv(t)
  {
    forall n | InRange(t, n) ensures NodeOk(t, n) {
      TopTotals(s, t, i, f, g, n);
    }
    OutstandingNonNegative(s);
    TopStepKeeps(s, t, i, f, g);
  }

  lemma SpooledTally(f: Frame)
    requires f.phase.Spooled?
    ensures forall n :: FrameTally(f.(phase := Weaving), n) == FrameTally(f, n)
  {
  }

  lemma SpooledKeeps(s: State, t: State, i: nat, f: Frame)
    requires Inv(s) && f.phase.Spooled? && TopStep(s, t, i, f, f.(phase := Weaving)) && t == s.(workers := t.workers)
    ensures Inv(t)
  {
    TopShape(s, i);
    SpooledTally(f);
    SameTallyKeeps(s, t, i, f, f.(phase := Weaving));
  }

  lemma SpooledWakeKeeps(s: State, t: State, i: nat, f: Frame)
    requires Inv(s) && i < |s.workers| && s.workers[i].Plying? && s.workers[i].stack != []
    requires f == Top(s.workers[i]) && f.phase.Spooled?
    requires t == s.(workers := WakeOne(s.workers[i := SetTop(s.workers[i], f.(phase := Weaving))]))
    ensures Inv(t)
  {
    var mid := SetWorker(s, i, SetTop(s.workers[i], f.(phase := Weaving)));
    SpooledKeeps(s, mid, i, f);
    WakeKeeps(mid, t);
  }

  lemma NotifyKeeps(s: State, i: nat)
    requires Inv(s) && Step(s, i, Notify).Some?
    ensures Inv(Step(s, i, Notify).value)
  {
    SpooledWakeKeeps(s, Step(s, i, Notify).value, i, Top(s.workers[i]));
  }

  // ----- the end of a pass -----

  lemma TieLaterKeeps(s: State, t: State, i: nat, f: Frame)
    requires Inv(s) && f.phase.Weaving? && f.observed && f.chain.None?
    requires TopStep(s, t, i, f, f.(phase := Tying)) && t == s.(workers := t.workers)
    ensures Inv(t)
  {
    TopShape(s, i);
    SameTallyKeeps(s, t, i, f, f.(phase := Tying));
  }

  /** What the chained pass takes over from the parent's frame. */
  lemma ChainedTally(f: Frame, m: nat, n: nat)
    requires f.phase.Weaving? && f.chain == Some(m)
    ensures Plus(FrameTally(f.(phase := Tying, chain := None), n), FrameTally(Frame(m, Opening, false, None), n))
            == FrameTally(f, n)
  {
  }

  lemma Regroup(w: Tally, f: Tally, g: Tally, c: Tally)
    requires Plus(g, c) == f
    ensures Plus(Plus(Minus(w, f), g), c) == w
  {
  }

  lemma SameTotal(ws: Tally, w: Tally)
    ensures Plus(Minus(ws, w), w) == ws
  {
  }

  lemma ChainPassTotal(s: State, i: nat, f: Frame, m: nat, v: Worker, n: nat)
    requires i < |s.workers| && s.workers[i].Plying? && s.workers[i].stack != [] && f == Top(s.workers[i])
    requires f.phase.Weaving? && f.chain == Some(m)
    requires v == Push(SetTop(s.workers[i], f.(phase := Tying, chain := None)), Frame(m, Opening, false, None))
    ensures WorkersTally(s.workers[i := v], n) == WorkersTally(s.workers, n)
  {
    var w, g, c := s.workers[i], f.(phase := Tying, chain := None), Frame(m, Opening, false, None);
    PushTally(SetTop(w, g), c, n);
    SetTopTally(w, g, n);
    ChainedTally(f, m, n);
    Regroup(WorkerTally(w, n), FrameTally(f, n), FrameTally(g, n), FrameTally(c, n));
    WorkersUpdate(s.workers, i, v, n);
    SameTotal(WorkersTally(s.workers, n), WorkerTally(w, n));
  }

  lemma ChainPassShaped(s: State, w: Worker, f: Frame, m: nat, v: Worker)
    requires ShapedWorker(w) && WorkerInRange(s, w) && w.Plying? && f == Top(w)
    requires f.phase.Weaving? && f.chain == Some(m) && f.observed
    requires v == Push(SetTop(w, f.(phase := Tying, chain := None)), Frame(m, Opening, false, None))
    ensures ShapedWorker(v) && WorkerInRange(s, v) && Awake(v)
  {
    var g := f.(phase := Tying, chain := None);
    assert ShapedFrame(f, |w.stack| - 1, true) && FrameInRange(s, f);
    SetTopShaped(s, w, g);
    assert Top(SetTop(w, g)) == g;
    PushShaped(s, SetTop(w, g), Frame(m, Opening, false, None));
  }

  lemma ChainPassKeeps(s: State, t: State, i: nat, f: Frame, m: nat, v: Worker)
    requires Inv(s) && i < |s.workers| && s.workers[i].Plying? && s.workers[i].stack != [] && f == Top(s.workers[i])
    requires f.phase.Weaving? && f.chain == Some(m) && f.observed
    requires v == Push(SetTop(s.workers[i], f.(phase := Tying, chain := None)), Frame(m, Opening, false, None))
    requires t == SetWorker(s, i, v)
    ensures Inv(t)
  {
    ChainPassShaped(s, s.workers[i], f, m, v);
    forall n ensures WorkersTally(t.workers, n) == WorkersTally(s.workers, n) {
      ChainPassTotal(s, i, f, m, v, n);
    }
    SameWorkersKeeps(s, t, i, v);
  }

  /** A replaced worker with the same tally for every node. */
  lemma SameWorkersKeeps(s: State, t: State, i: nat, v: Worker)
    requires Inv(s) && i < |s.workers| && t == SetWorker(s, i, v)
    requires ShapedWorker(v) && WorkerInRange(s, v) && Awake(v) && !LastOut(s.workers[i])
    requires forall n :: WorkersTally(t.workers, n) == WorkersTally(s.workers, n)
    ensures Inv(t)
  {
    ReplaceShaped(s, t, i, v);
    ReplaceWakeups(s, t, i, v);
    forall n | InRange(t, n) ensures NodeOk(t, n) {
      assert NodeOk(s, n);
    }
  }

  /** After a pass: straight to tie-off, or first the chained target one level deeper. */
  lemma EndPassKeeps(s: State, i: nat)
    requires Inv(s) && Step(s, i, EndPass).Some?
    ensures Inv(Step(s, i, EndPass).value)
  {
    var t, f := Step(s, i, EndPass).value, Top(s.workers[i]);
    if f.chain.None? {
      TieLaterKeeps(s, t, i, f);
    } else {
      ChainPassKeeps(s, t, i, f, f.chain.value, t.workers[i]);
    }
  }

  lemma AgainNode(s: State, t: State, i: nat, f: Frame, n: nat)
    requires Inv(s) && InRange(s, n) && f.phase.Tying? && f.observed
    requires TopStep(s, t, i, f, f.(phase := Opening, observed := false)) && t == s.(workers := t.workers)
    ensures NodeOk(t, n)
  {
    TopTotals(s, t, i, f, f.(phase := Opening, observed := false), n);
  }

  lemma AgainKeeps(s: State, t: State, i: nat, f: Frame)
    requires Inv(s) && f.phase.Tying?
    requires TopStep(s, t, i, f, f.(phase := Opening, observed := false)) && t == s.(workers := t.workers)
    ensures Inv(t)
  {
    TopShape(s, i);
    forall n | InRange(t, n) ensures NodeOk(t, n) {
      AgainNode(s, t, i, f, n);
    }
    OutstandingNonNegative(s);
    TopStepKeeps(s, t, i, f, f.(phase := Opening, observed := false));
  }

  lemma UntieNode(s: State, t: State, i: nat, f: Frame, n: nat)
    requires Inv(s) && InRange(s, n) && f.phase.Tying? && f.observed && f.chain.None? && f.node !in s.dirty
    requires TopStep(s, t, i, f, f.(phase := Untied))
             && t == s.(scheduled := s.scheduled - {f.node}, workers := t.workers)
    ensures NodeOk(t, n)
  {
    TopTotals(s, t, i, f, f.(phase := Untied), n);
  }

  lemma UntieKeeps(s: State, t: State, i: nat, f: Frame)
    requires Inv(s) && f.phase.Tying? && f.node !in s.dirty
    requires TopStep(s, t, i, f, f.(phase := Untied))
             && t == s.(scheduled := s.scheduled - {f.node}, workers := t.workers)
    ensures Inv(t)
  {
    TopShape(s, i);
    forall n | InRange(t, n) ensures NodeOk(t, n) {
      UntieNode(s, t, i, f, n);
    }
    OutstandingNonNegative(s);
    TopStepKeeps(s, t, i, f, f.(phase := Untied));
  }

  /** try_tie_off: the node rests only when nothing arrived since its pass looked. */
  lemma TieOffKeeps(s: State, i: nat)
    requires Inv(s) && Step(s, i, TieOff).Some?
    ensures Inv(Step(s, i, TieOff).value)
  {
    var t, f := Step(s, i, TieOff).value, Top(s.workers[i]);
    if f.node in s.dirty {
      AgainKeeps(s, t, i, f);
    } else {
      UntieKeeps(s, t, i, f);
    }
  }

  // ----- leaving ply_node -----

  lemma LastOutNode(s: State, t: State, i: nat, f: Frame, n: nat)
    requires Inv(s) && InRange(s, n) && f.phase.Untied?
    requires TopStep(s, t, i, f, f.(phase := Announcing))
             && t == s.(outstanding := s.outstanding - 1, workers := t.workers)
    ensures NodeOk(t, n)
  {
    TopTotals(s, t, i, f, f.(phase := Announcing), n);
  }

  lemma LastOutKeeps(s: State, t: State, i: nat, f: Frame)
    requires Inv(s) && f.phase.Untied?
    requires TopStep(s, t, i, f, f.(phase := Announcing))
             && t == s.(outstanding := s.outstanding - 1, workers := t.workers)
    ensures Inv(t)
  {
    TopShape(s, i);
    forall n | InRange(t, n) ensures NodeOk(t, n) {
      LastOutNode(s, t, i, f, n);
    }
    TopStepKeeps(s, t, i, f, f.(phase := Announcing));
  }

  lemma Drop(ws: Tally, w: Tally, f: Tally)
    ensures Plus(Minus(ws, w), Minus(w, f)) == Minus(ws, f)
  {
  }

  lemma PopWorkersTally(s: State, i: nat, n: nat)
    requires i < |s.workers| && s.workers[i].Plying? && s.workers[i].stack != []
    ensures WorkersTally(s.workers[i := Pop(s.workers[i])], n)
         == Minus(WorkersTally(s.workers, n), FrameTally(Top(s.workers[i]), n))
  {
    var w := s.workers[i];
    WorkersUpdate(s.workers, i, Pop(w), n);
    PopTally(w, n);
    Drop(WorkersTally(s.workers, n), WorkerTally(w, n), FrameTally(Top(w), n));
  }

  /** An untied frame is one unit of the counter. */
  lemma UntiedCounts(s: State, i: nat)
    requires Inv(s) && i < |s.workers| && s.workers[i].Plying? && s.workers[i].stack != []
             && Top(s.workers[i]).phase.Untied?
    ensures s.outstanding >= 1
  {
    TopBelowTotal(s, i, 0);
  }

  lemma PopFrameTally(f: Frame, n: nat)
    requires (f.phase.Untied? || f.phase.Announcing?) && f.chain.None?
    ensures FrameTally(f, n) == Tally(0, 0, 0, B(f.phase.Untied?))
  {
  }

  lemma PopWakeups(s: State, t: State, i: nat, w: Worker)
    requires WakeupsOk(s) && Replaces(s, t, i, w) && Awake(w)
    requires t.outstanding > 0 || !(t.host.Parking? || t.host.Parked?)
    requires t.host.HostSpooled? == s.host.HostSpooled?
    ensures WakeupsOk(t)
  {
    assert Awake(t.workers[i]);
  }

  ghost predicate Leaves(s: State, t: State, i: nat, f: Frame) {
    && i < |s.workers| && s.workers[i].Plying? && s.workers[i].stack != [] && f == Top(s.workers[i])
    && (f.phase.Untied? || f.phase.Announcing?) && f.chain.None?
    && t == s.(outstanding := s.outstanding - B(f.phase.Untied?), host := t.host,
       workers := s.workers[i := Pop(s.workers[i])])
    && (t.host == s.host || (s.host.Parked? && t.host.Woken?))
  }

  lemma Less(w: Tally, f: Tally, q: Tally, h: Tally)
    ensures Plus(Plus(Minus(w, f), q), h) == Minus(Plus(Plus(w, q), h), f)
  {
  }

  lemma WaitingHostTally(h: Host, g: Host, n: nat)
    requires h == g || (h.Parked? && g.Woken?)
    ensures HostTally(h, n) == HostTally(g, n)
  {
  }

  lemma LeaveTotal(s: State, t: State, i: nat, f: Frame, n: nat)
    requires Leaves(s, t, i, f)
    ensures Total(t, n) == Minus(Total(s, n), Tally(0, 0, 0, B(f.phase.Untied?)))
  {
    PopWorkersTally(s, i, n);
    PopFrameTally(f, n);
    WaitingHostTally(s.host, t.host, n);
    Less(WorkersTally(s.workers, n), FrameTally(f, n), QueueTally(s.queue, n), HostTally(s.host, n));
  }

  lemma LeaveNode(s: State, t: State, i: nat, f: Frame, n: nat)
    requires Inv(s) && Leaves(s, t, i, f) && InRange(s, n)
    ensures NodeOk(t, n)
  {
    assert NodeOk(s, n);
    LeaveTotal(s, t, i, f, n);
  }

  /** Leaving ply_node, by a plain decrement or after the announcement. */
  lemma LeaveKeeps(s: State, t: State, i: nat, f: Frame)
    requires Inv(s) && Leaves(s, t, i, f)
    requires t.outstanding > 0 || !(t.host.Parking? || t.host.Parked?)
    ensures Inv(t)
  {
    PopShaped(s, s.workers[i]);
    ReplaceShaped(s, t, i, Pop(s.workers[i]));
    PopWakeups(s, t, i, Pop(s.workers[i]));
    forall n | InRange(t, n) ensures NodeOk(t, n) {
      LeaveNode(s, t, i, f, n);
    }
    LeaveTotal(s, t, i, f, 0);
  }

  lemma LowerNotLast(s: State, i: nat)
    requires Inv(s) && Step(s, i, Lower).Some? && s.outstanding != 1
    ensures Inv(Step(s, i, Lower).value)
  {
    UntiedCounts(s, i);
    TopShape(s, i);
    LeaveKeeps(s, Step(s, i, Lower).value, i, Top(s.workers[i]));
  }

  /** The counter goes down; the one who takes it to zero announces. */
  lemma LowerKeeps(s: State, i: nat)
    requires Inv(s) && Step(s, i, Lower).Some?
    ensures Inv(Step(s, i, Lower).value)
  {
    var t, f := Step(s, i, Lower).value, Top(s.workers[i]);
    if s.outstanding == 1 {
      LastOutKeeps(s, t, i, f);
    } else {
      LowerNotLast(s, i);
    }
  }

  /** The announcement takes the lock, so it cannot fall between the host's check and its wait. */
  lemma AnnounceKeeps(s: State, i: nat)
    requires Inv(s) && Step(s, i, Announce).Some?
    ensures Inv(Step(s, i, Announce).value)
  {
    TopShape(s, i);
    LeaveKeeps(s, Step(s, i, Announce).value, i, Top(s.workers[i]));
  }

  // ----- a worker at the queue -----

  lemma QueueTail(q: seq<nat>, n: nat)
    requires q != []
    ensures QueueTally(q, n) == Plus(QueueTally(q[1..], n), FrameTally(Frame(q[0], Opening, false, None), n))
  {
    assert q == [q[0]] + q[1..];
    assert multiset(q) == multiset{q[0]} + multiset(q[1..]);
  }

  lemma TakeOver(w: Tally, a: Tally, q: Tally, d: Tally, h: Tally)
    requires a == Plus(NIL, d)
    ensures Plus(Plus(Plus(Minus(w, NIL), a), q), h) == Plus(Plus(w, Plus(q, d)), h)
  {
  }

  lemma TakeTotal(s: State, t: State, i: nat, f: Frame, n: nat)
    requires i < |s.workers| && s.workers[i].Looking? && s.queue != [] && f == Frame(s.queue[0], Opening, false, None)
    requires t == s.(queue := s.queue[1..], workers := s.workers[i := Plying([f])])
    ensures Total(t, n) == Total(s, n)
  {
    WorkersUpdate(s.workers, i, Plying([f]), n);
    OneFrame(f, n);
    QueueTail(s.queue, n);
    TakeOver(WorkersTally(s.workers, n), WorkerTally(Plying([f]), n), QueueTally(t.queue, n), FrameTally(f, n),
        HostTally(s.host, n));
  }

  lemma TakeKeeps(s: State, t: State, i: nat, f: Frame)
    requires Inv(s) && i < |s.workers| && s.workers[i].Looking? && s.queue != []
             && f == Frame(s.queue[0], Opening, false, None)
    requires t == s.(queue := s.queue[1..], workers := s.workers[i := Plying([f])])
    ensures Inv(t)
  {
    assert forall k :: 0 <= k < |t.queue| ==> t.queue[k] == s.queue[k + 1];
    ReplaceShaped(s, t, i, Plying([f]));
    ReplaceWakeups(s, t, i, Plying([f]));
    forall n | InRange(t, n) ensures NodeOk(t, n) {
      assert NodeOk(s, n);
      TakeTotal(s, t, i, f, n);
    }
    TakeTotal(s, t, i, f, 0);
  }

  lemma SleepWakeups(s: State, t: State, i: nat)
    requires WakeupsOk(s) && i < |s.workers| && s.workers[i].Looking? && s.queue == [] && t == SetWorker(s, i, Sleeping)
    ensures WakeupsOk(t)
  {
    if (s.host.Parking? || s.host.Parked?) && t.outstanding <= 0 {
      var k :| 0 <= k < |s.workers| && LastOut(s.workers[k]);
      assert t.workers[k] == s.workers[k];
    }
  }

  lemma SleepKeeps(s: State, t: State, i: nat)
    requires Inv(s) && i < |s.workers| && s.workers[i].Looking? && s.queue == [] && t == SetWorker(s, i, Sleeping)
    ensures Inv(t)
  {
    ReplaceShaped(s, t, i, Sleeping);
    SleepWakeups(s, t, i);
    forall n ensures WorkersTally(t.workers, n) == WorkersTally(s.workers, n) {
      WorkersUpdate(s.workers, i, Sleeping, n);
    }
    forall n | InRange(t, n) ensures NodeOk(t, n) {
      assert NodeOk(s, n);
    }
  }

  lemma LookKeeps(s: State, i: nat)
    requires Inv(s) && Step(s, i, Look).Some?
    ensures Inv(Step(s, i, Look).value)
  {
    var t := Step(s, i, Look).value;
    if s.workers[i].Looking? {
      if s.queue == [] {
        SleepKeeps(s, t, i);
      } else {
        TakeKeeps(s, t, i, Frame(s.queue[0], Opening, false, None));
      }
    }
  }

  lemma IdleTallies(n: nat)
    ensures WorkerTally(Sleeping, n) == WorkerTally(Looking, n)
  {
  }

  lemma RouseTally(ws: seq<Worker>, i: nat, n: nat)
    requires i < |ws| && ws[i].Sleeping?
    ensures WorkersTally(ws[i := Looking], n) == WorkersTally(ws, n)
  {
    WorkersUpdate(ws, i, Looking, n);
    IdleTallies(n);
    SameTotal(WorkersTally(ws, n), WorkerTally(Looking, n));
  }

  lemma RouseStateKeeps(s: State, t: State, i: nat)
    requires Inv(s) && i < |s.workers| && s.workers[i].Sleeping? && t == SetWorker(s, i, Looking)
    ensures Inv(t)
  {
    forall n ensures WorkersTally(t.workers, n) == WorkersTally(s.workers, n) {
      RouseTally(s.workers, i, n);
    }
    SameWorkersKeeps(s, t, i, Looking);
  }

  lemma RouseKeeps(s: State, i: nat)
    requires Inv(s) && Step(s, i, Rouse).Some?
    ensures Inv(Step(s, i, Rouse).value)
  {
    RouseStateKeeps(s, Step(s, i, Rouse).value, i);
  }

  /** Every step of a worker keeps the invariant. */
  lemma StepKeeps(s: State, i: nat, a: Act)
    requires Inv(s) && Step(s, i, a).Some?
    ensures Inv(Step(s, i, a).value)
  {
    match a {
      case Look => LookKeeps(s, i);
      case Rouse => RouseKeeps(s, i);
      case Open => OpenKeeps(s, i);
      case Observe => ObserveKeeps(s, i);
      case Publish(m) => PublishKeeps(s, i, m);
      case Tug => TugKeeps(s, i);
      case Count => CountKeeps(s, i);
      case Route => RouteKeeps(s, i);
      case Notify => NotifyKeeps(s, i);
      case EndPass => EndPassKeeps(s, i);
      case TieOff => TieOffKeeps(s, i);
      case Lower => LowerKeeps(s, i);
      case Announce => AnnounceKeeps(s, i);
    }
  }

  // ----- the steps of the host -----

  lemma HostShaped(s: State, t: State)
    requires Shaped(s) && t.workers == s.workers && |t.events| == |s.events| && |t.seen| == |s.seen|
    requires forall k :: 0 <= k < |t.queue| ==> InRange(s, t.queue[k])
    requires forall n :: n in t.scheduled ==> InRange(s, n)
    requires HostInRange(t)
    ensures Shaped(t)
  {
    forall j | 0 <= j < |t.workers| ensures WorkerInRange(t, t.workers[j]) {
      SameRange(s, t, s.workers[j]);
    }
  }

  /** A host step that leaves the workers and the queue alone. */
  lemma HostKeeps(s: State, t: State)
    requires Inv(s) && t.workers == s.workers && t.queue == s.queue && |t.events| == |s.events| && |t.seen| == |s.seen|
    requires forall n :: n in t.scheduled ==> InRange(s, n)
    requires HostInRange(t) && !s.host.HostSpooled?
    requires forall n :: InRange(t, n) ==> NodeOk(t, n)
    requires t.outstanding - s.outstanding == HostTally(t.host, 0).counted - HostTally(s.host, 0).counted
    requires t.host.Parking? ==> t.outstanding > 0
    requires t.host.Parked? ==> s.host.Parking? && t.outstanding == s.outstanding
    ensures Inv(t)
  {
    HostShaped(s, t);
  }

  lemma HPublishKeeps(s: State, m: nat)
    requires Inv(s) && HostStep(s, HPublish(m)).Some?
    ensures Inv(HostStep(s, HPublish(m)).value)
  {
    var t := HostStep(s, HPublish(m)).value;
    forall n | InRange(t, n) ensures NodeOk(t, n) {
      assert NodeOk(s, n);
      WorkersNonNegative(s.workers, n);
    }
    HostKeeps(s, t);
  }

  lemma Swap(x: Tally, h: Tally, g: Tally)
    ensures Plus(x, g) == Plus(Minus(Plus(x, h), h), g)
  {
  }

  lemma HostTotal(s: State, t: State, n: nat)
    requires t.workers == s.workers && t.queue == s.queue
    ensures Total(t, n) == Plus(Minus(Total(s, n), HostTally(s.host, n)), HostTally(t.host, n))
  {
    Swap(Plus(WorkersTally(s.workers, n), QueueTally(s.queue, n)), HostTally(s.host, n), HostTally(t.host, n));
  }

  lemma HostTugTallies(m: nat, n: nat)
    ensures HostTally(HostPublished(m), n) == (if m == n then Tally(0, 0, 1, 0) else NIL)
    ensures HostTally(HostWon(m), n) == (if m == n then Tally(1, 1, 0, 0) else NIL)
    ensures HostTally(Free, n) == NIL
  {
  }

  lemma HostLostCovered(lost: bool, scheduled: bool, dirty: bool, seen: nat, events: nat, a: Tally, h: Tally)
    requires Covered(scheduled, dirty, seen, events, a) && (lost ==> scheduled)
    requires h == if lost then Tally(0, 0, 1, 0) else NIL
    ensures Covered(scheduled, dirty || lost, seen, events, Plus(Minus(a, h), NIL))
  {
  }

  lemma HostWonCovered(won: bool, scheduled: bool, dirty: bool, seen: nat, events: nat, a: Tally, h: Tally, g: Tally)
    requires Covered(scheduled, dirty, seen, events, a) && NonNegative(a) && (won ==> !scheduled)
    requires h == if won then Tally(0, 0, 1, 0) else NIL
    requires g == if won then Tally(1, 1, 0, 0) else NIL
    ensures Covered(scheduled || won, dirty, seen, events, Plus(Minus(a, h), g))
  {
  }

  lemma HTugLostNode(s: State, t: State, m: nat, n: nat)
    requires |s.seen| == |s.events| && InRange(s, n) && NodeOk(s, n) && s.host == HostPublished(m) && m in s.scheduled
    requires t == s.(dirty := s.dirty + {m}, host := Free)
    ensures NodeOk(t, n)
  {
    HostTotal(s, t, n);
    HostTugTallies(m, n);
    HostLostCovered(m == n, n in s.scheduled, n in s.dirty, s.seen[n], s.events[n], Total(s, n), HostTally(s.host, n));
  }

  lemma HTugWonNode(s: State, t: State, m: nat, n: nat)
    requires |s.seen| == |s.events| && InRange(s, n) && NodeOk(s, n) && s.host == HostPublished(m) && m !in s.scheduled
    requires t == s.(scheduled := s.scheduled + {m}, host := HostWon(m))
    ensures NodeOk(t, n)
  {
    HostTotal(s, t, n);
    HostTugTallies(m, n);
    TotalNonNegative(s, n);
    HostWonCovered(m == n, n in s.scheduled, n in s.dirty, s.seen[n], s.events[n], Total(s, n),
                   HostTally(s.host, n), HostTally(t.host, n));
  }

  lemma HTugKeeps(s: State)
    requires Inv(s) && HostStep(s, HTug).Some?
    ensures Inv(HostStep(s, HTug).value)
  {
    var t, m := HostStep(s, HTug).value, s.host.target;
    forall n | InRange(t, n) ensures NodeOk(t, n) {
      assert NodeOk(s, n);
      if m in s.scheduled {
        HTugLostNode(s, t, m, n);
      } else {
        HTugWonNode(s, t, m, n);
      }
    }
    HostKeeps(s, t);
  }

  lemma HCountKeeps(s: State)
    requires Inv(s) && HostStep(s, HCount).Some?
    ensures Inv(HostStep(s, HCount).value)
  {
    var t := HostStep(s, HCount).value;
    forall n | InRange(t, n) ensures NodeOk(t, n) {
      assert NodeOk(s, n);
    }
    HostKeeps(s, t);
  }

  lemma Handed(w: Tally, q: Tally, d: Tally)
    ensures Plus(Plus(w, Plus(q, d)), NIL) == Plus(Plus(w, q), d)
  {
  }

  lemma HSpoolTotal(s: State, t: State, m: nat, n: nat)
    requires s.host == HostCounted(m) && t == s.(queue := s.queue + [m], host := HostSpooled)
    ensures Total(t, n) == Total(s, n)
  {
    QueueSnoc(s.queue, m, n);
    Handed(WorkersTally(s.workers, n), QueueTally(s.queue, n), HostTally(s.host, n));
  }

  lemma HSpoolKeeps(s: State)
    requires Inv(s) && HostStep(s, HSpool).Some?
    ensures Inv(HostStep(s, HSpool).value)
  {
    var t, m := HostStep(s, HSpool).value, s.host.target;
    HostShaped(s, t);
    forall n | InRange(t, n) ensures NodeOk(t, n) {
      assert NodeOk(s, n);
      HSpoolTotal(s, t, m, n);
    }
    HSpoolTotal(s, t, m, 0);
  }

  /** The host's own waiting steps. */
  lemma HWaitKeeps(s: State, a: HostAct)
    requires Inv(s) && HostStep(s, a).Some? && (a.HLock? || a.HRead? || a.HWait? || a.HWake? || a.HAgain?)
    ensures Inv(HostStep(s, a).value)
  {
    var t := HostStep(s, a).value;
    OutstandingNonNegative(s);
    forall n | InRange(t, n) ensures NodeOk(t, n) {
      assert NodeOk(s, n);
    }
    HostKeeps(s, t);
  }

  /** Every step of the host keeps the invariant. */
  lemma HostStepKeeps(s: State, a: HostAct)
    requires Inv(s) && HostStep(s, a).Some?
    ensures Inv(HostStep(s, a).value)
  {
    match a {
      case HPublish(m) => HPublishKeeps(s, m);
      case HTug => HTugKeeps(s);
      case HCount => HCountKeeps(s);
      case HSpool => HSpoolKeeps(s);
      case HNotify => WakeKeeps(s, HostStep(s, a).value);
      case _ => HWaitKeeps(s, a);
    }
  }
}
