/** Without new publications the weft fabric comes to rest: every forced step lowers a rank. */
module WeftRest {
  import opened Bytes
  import opened Weft
  import opened WeftInv
  import opened WeftRuns

  /** What is left to do in one activation. */
  function FrameWeight(f: Frame): nat {
    var pass := if f.observed then 8 else 9;
    (match f.phase
     case Opening => 10
     case Weaving => pass
     case Published(_) => pass + 15
     case Won(_) => pass + 14
     case Counted(_) => pass + 13
     case Spooled => pass + 2
     case Tying => 7
     case Untied => 6
     case Announcing => 5)
    + if f.chain.Some? then 10 else 0
  }

  function StackWeight(st: seq<Frame>): nat {
    if st == [] then 0 else StackWeight(st[..|st| - 1]) + FrameWeight(st[|st| - 1])
  }

  function WorkerWeight(w: Worker): nat {
    match w
    case Sleeping => 0
    case Looking => 1
    case Plying(st) => StackWeight(st)
  }

  function WorkersWeight(ws: seq<Worker>): nat {
    if ws == [] then 0 else WorkersWeight(ws[..|ws| - 1]) + WorkerWeight(ws[|ws| - 1])
  }

  function HostWeight(h: Host): nat {
    match h
    case HostPublished(_) => 16
    case HostWon(_) => 14
    case HostCounted(_) => 13
    case HostSpooled => 2
    case Woken => 3
    case Checking => 2
    case Parking => 1
    case _ => 0
  }

  predicate OpensAt(w: Worker, n: nat) {
    w.Plying? && w.stack != [] && Top(w).phase.Opening? && Top(w).node == n
  }

  /** A pass of n is just about to clear its DIRTY bit. */
  predicate BeingOpened(s: State, n: nat) {
    exists i :: 0 <= i < |s.workers| && OpensAt(s.workers[i], n)
  }

  /** The DIRTY bits that will still send a node round again. */
  function Hot(s: State): set<nat> {
    set n | n in s.dirty && !BeingOpened(s, n)
  }

  function Rank(s: State): nat {
    WorkersWeight(s.workers) + 10 * |s.queue| + HostWeight(s.host) + 4 * |Hot(s)|
  }

  // ----- weights -----

  lemma {:induction false} WeightUpdate(ws: seq<Worker>, i: nat, w: Worker)
    requires i < |ws|
    ensures WorkersWeight(ws[i := w]) == WorkersWeight(ws) - WorkerWeight(ws[i]) + WorkerWeight(w)
    decreases |ws|
  {
    var k := |ws| - 1;
    if i == k {
      assert ws[i := w][..k] == ws[..k];
    } else {
      assert ws[i := w][..k] == ws[..k][i := w];
      WeightUpdate(ws[..k], i, w);
    }
  }

  lemma TopWeight(w: Worker, below: seq<Frame>, f: Frame)
    requires w.Plying? && w.stack == below + [f]
    ensures WorkerWeight(w) == StackWeight(below) + FrameWeight(f)
  {
    assert w.stack[..|w.stack| - 1] == below;
  }

  lemma SetTopWeight(w: Worker, f: Frame)
    requires w.Plying? && w.stack != []
    ensures WorkerWeight(SetTop(w, f)) == WorkerWeight(w) - FrameWeight(Top(w)) + FrameWeight(f)
  {
    var below := w.stack[..|w.stack| - 1];
    TopWeight(w, below, Top(w));
    TopWeight(SetTop(w, f), below, f);
  }

  lemma PopWeight(w: Worker)
    requires w.Plying? && w.stack != []
    ensures WorkerWeight(Pop(w)) <= WorkerWeight(w) - FrameWeight(Top(w)) + 1
  {
    TopWeight(w, w.stack[..|w.stack| - 1], Top(w));
  }

  lemma WakeWeight(ws: seq<Worker>)
    ensures WorkersWeight(WakeOne(ws)) <= WorkersWeight(ws) + 1
  {
    SleeperFound(ws);
    if FirstSleeper(ws).Some? {
      WeightUpdate(ws, FirstSleeper(ws).value, Looking);
    }
  }

  lemma SubsetSize<T>(a: set<T>, b: set<T>)
    requires a <= b
    ensures |a| <= |b|
  {
    assert b == a + (b - a);
  }

  /** No DIRTY bit gets hot when none is set and no opening pass is lost without clearing. */
  lemma HotShrinks(s: State, t: State)
    requires t.dirty <= s.dirty
    requires forall n :: n in t.dirty && BeingOpened(s, n) ==> BeingOpened(t, n)
    ensures |Hot(t)| <= |Hot(s)|
  {
    SubsetSize(Hot(t), Hot(s));
  }

  /** A replaced worker keeps openings when it was not opening itself, or cleared the bit. */
  lemma ReplaceOpenings(s: State, t: State, i: nat)
    requires i < |s.workers| && |t.workers| == |s.workers|
    requires forall k :: 0 <= k < |s.workers| && k != i ==> t.workers[k] == s.workers[k] || s.workers[k].Sleeping?
    requires forall n :: OpensAt(s.workers[i], n) ==> n !in t.dirty
    ensures forall n :: n in t.dirty && BeingOpened(s, n) ==> BeingOpened(t, n)
  {
    forall n | n in t.dirty && BeingOpened(s, n) ensures BeingOpened(t, n) {
      var k :| 0 <= k < |s.workers| && OpensAt(s.workers[k], n);
      assert OpensAt(t.workers[k], n);
    }
  }

  /** A step of worker i that sets no bit. */
  lemma WorkerRanks(s: State, t: State, i: nat, w: Worker)
    requires i < |s.workers| && t.workers == s.workers[i := w] && t.dirty <= s.dirty
    requires forall n :: OpensAt(s.workers[i], n) ==> n !in t.dirty
    requires WorkerWeight(w) + 10 * |t.queue| + HostWeight(t.host) < WorkerWeight(s.workers[i]) + 10 * |s.queue|
             + HostWeight(s.host)
    ensures Rank(t) < Rank(s)
  {
    WeightUpdate(s.workers, i, w);
    ReplaceOpenings(s, t, i);
    HotShrinks(s, t);
  }

  // ----- the steps of a worker -----

  lemma FirstFrameWeight(n: nat)
    ensures WorkerWeight(Plying([Frame(n, Opening, false, None)])) == 10
  {
    var f := Frame(n, Opening, false, None);
    TopWeight(Plying([f]), [], f);
  }

  lemma TakeRanks(s: State, t: State, i: nat)
    requires i < |s.workers| && s.workers[i].Looking? && s.queue != []
    requires t == s.(queue := s.queue[1..],
                     workers := s.workers[i := Plying([Frame(s.queue[0], Opening, false, None)])])
    ensures Rank(t) < Rank(s)
  {
    FirstFrameWeight(s.queue[0]);
    WorkerRanks(s, t, i, t.workers[i]);
  }

  lemma LookRanks(s: State, i: nat)
    requires Step(s, i, Look).Some?
    ensures Rank(Step(s, i, Look).value) < Rank(s)
  {
    var t := Step(s, i, Look).value;
    if s.workers[i].Looking? {
      if s.queue == [] {
        WorkerRanks(s, t, i, Sleeping);
      } else {
        TakeRanks(s, t, i);
      }
    }
  }

  /** A step that only moves the top frame on. */
  lemma FrameRanks(s: State, t: State, i: nat, f: Frame, g: Frame)
    requires i < |s.workers| && s.workers[i].Plying? && s.workers[i].stack != [] && f == Top(s.workers[i])
    requires t.workers == s.workers[i := SetTop(s.workers[i], g)] && t.dirty <= s.dirty
             && (f.phase.Opening? ==> f.node !in t.dirty)
    requires FrameWeight(g) + 10 * |t.queue| < FrameWeight(f) + 10 * |s.queue| && t.host == s.host
    ensures Rank(t) < Rank(s)
  {
    SetTopWeight(s.workers[i], g);
    WorkerRanks(s, t, i, SetTop(s.workers[i], g));
  }

  lemma SimpleRanks(s: State, i: nat, a: Act)
    requires Step(s, i, a).Some? && s.workers[i].Plying? && Forced(s, Work(i, a))
    requires a.Open? || a.Observe? || a.Count? || a.Route?
    ensures Rank(Step(s, i, a).value) < Rank(s)
  {
    var t, f := Step(s, i, a).value, Top(s.workers[i]);
    match a {
      case Open => FrameRanks(s, t, i, f, f.(phase := Weaving));
      case Observe => FrameRanks(s, t, i, f, f.(observed := true));
      case Count => FrameRanks(s, t, i, f, f.(phase := Counted(f.phase.target)));
      case Route =>
        if |s.workers[i].stack| <= CHAIN_DEPTH_CAP && f.chain.None? {
          FrameRanks(s, t, i, f, f.(phase := Weaving, chain := Some(f.phase.target)));
        } else {
          FrameRanks(s, t, i, f, f.(phase := Spooled));
        }
    }
  }

  lemma HotAdd(s: State, t: State, m: nat)
    requires t.dirty == s.dirty + {m}
    requires forall n :: n in t.dirty && BeingOpened(s, n) ==> BeingOpened(t, n)
    ensures |Hot(t)| <= |Hot(s)| + 1
  {
    SubsetSize(Hot(t), Hot(s) + {m});
  }

  lemma TugRanks(s: State, i: nat)
    requires Step(s, i, Tug).Some? && s.workers[i].Plying?
    ensures Rank(Step(s, i, Tug).value) < Rank(s)
  {
    var t, f := Step(s, i, Tug).value, Top(s.workers[i]);
    var m := f.phase.target;
    if m in s.scheduled {
      SetTopWeight(s.workers[i], f.(phase := Weaving));
      WeightUpdate(s.workers, i, SetTop(s.workers[i], f.(phase := Weaving)));
      ReplaceOpenings(s, t, i);
      HotAdd(s, t, m);
    } else {
      FrameRanks(s, t, i, f, f.(phase := Won(m)));
    }
  }

  lemma NotifyRanks(s: State, i: nat)
    requires Step(s, i, Notify).Some? && s.workers[i].Plying?
    ensures Rank(Step(s, i, Notify).value) < Rank(s)
  {
    var t, f := Step(s, i, Notify).value, Top(s.workers[i]);
    var w := SetTop(s.workers[i], f.(phase := Weaving));
    SetTopWeight(s.workers[i], f.(phase := Weaving));
    WeightUpdate(s.workers, i, w);
    WakeWeight(s.workers[i := w]);
    WokenWorkers(s.workers[i := w]);
    ReplaceOpenings(s, t, i);
    HotShrinks(s, t);
  }

  lemma EndPassRanks(s: State, i: nat)
    requires Step(s, i, EndPass).Some? && s.workers[i].Plying?
    ensures Rank(Step(s, i, EndPass).value) < Rank(s)
  {
    var t, w, f := Step(s, i, EndPass).value, s.workers[i], Top(s.workers[i]);
    if f.chain.None? {
      FrameRanks(s, t, i, f, f.(phase := Tying));
    } else {
      var parent, c := SetTop(w, f.(phase := Tying, chain := None)), Frame(f.chain.value, Opening, false, None);
      SetTopWeight(w, f.(phase := Tying, chain := None));
      TopWeight(Push(parent, c), parent.stack, c);
      WorkerRanks(s, t, i, Push(parent, c));
    }
  }

  predicate TopOwns(s: State, i: nat) {
    i < |s.workers| && s.workers[i].Plying? && s.workers[i].stack != [] && Owns(Top(s.workers[i]))
  }

  /** No two workers are on top of the same node. */
  ghost predicate TopsExclusive(s: State) {
    forall i: nat, j: nat ::
      TopOwns(s, i) && TopOwns(s, j) && Top(s.workers[i]).node == Top(s.workers[j]).node ==> i == j
  }

  /** The node on top of worker i is held once. */
  ghost predicate HeldOnce(s: State, i: nat) {
    TopOwns(s, i) ==> WorkersTally(s.workers, Top(s.workers[i]).node).tokens <= 1
  }

  lemma TopHeldOnce(s: State, i: nat)
    requires Inv(s)
    ensures HeldOnce(s, i)
  {
    if TopOwns(s, i) {
      FrameTokens(s, i, |s.workers[i].stack| - 1);
    }
  }

  lemma HeldExclusive(s: State)
    requires forall i: nat :: HeldOnce(s, i)
    ensures TopsExclusive(s)
  {
    forall i: nat, j: nat | TopOwns(s, i) && TopOwns(s, j)
        && Top(s.workers[i]).node == Top(s.workers[j]).node ensures i == j {
      assert HeldOnce(s, i);
      OneOwner(s, i, |s.workers[i].stack| - 1, j, |s.workers[j].stack| - 1, Top(s.workers[i]).node);
    }
  }

  lemma InvExclusive(s: State)
    requires Inv(s)
    ensures TopsExclusive(s)
  {
    forall i: nat ensures HeldOnce(s, i) {
      TopHeldOnce(s, i);
    }
    HeldExclusive(s);
  }

  /** While a node waits to tie off no other pass of it is opening. */
  lemma TyingIsHot(s: State, i: nat, n: nat)
    requires TopsExclusive(s) && TopOwns(s, i) && Top(s.workers[i]).phase.Tying? && Top(s.workers[i]).node == n
             && n in s.dirty
    ensures n in Hot(s)
  {
    forall j: nat | j < |s.workers| ensures !OpensAt(s.workers[j], n) {
      if OpensAt(s.workers[j], n) {
        assert TopOwns(s, j);
      }
    }
  }

  lemma HotCools(s: State, t: State, n: nat)
    requires t.dirty == s.dirty && n in Hot(s) && BeingOpened(t, n)
    requires forall k :: k in t.dirty && BeingOpened(s, k) ==> BeingOpened(t, k)
    ensures |Hot(t)| <= |Hot(s)| - 1
  {
    SubsetSize(Hot(t), Hot(s) - {n});
  }

  /** Going round again uses up the DIRTY bit. */
  lemma AgainRanks(s: State, t: State, i: nat, f: Frame, w: Worker)
    requires i < |s.workers| && s.workers[i].Plying? && s.workers[i].stack != [] && f == Top(s.workers[i])
    requires f.phase.Tying? && f.node in Hot(s) && w == SetTop(s.workers[i], f.(phase := Opening, observed := false))
    requires t == SetWorker(s, i, w)
    ensures Rank(t) < Rank(s)
  {
    SetTopWeight(s.workers[i], f.(phase := Opening, observed := false));
    WeightUpdate(s.workers, i, w);
    ReplaceOpenings(s, t, i);
    assert OpensAt(t.workers[i], f.node);
    HotCools(s, t, f.node);
  }

  lemma TieOffRanks(s: State, i: nat)
    requires TopsExclusive(s) && Step(s, i, TieOff).Some? && s.workers[i].Plying?
    ensures Rank(Step(s, i, TieOff).value) < Rank(s)
  {
    var t, f := Step(s, i, TieOff).value, Top(s.workers[i]);
    if f.node in s.dirty {
      TyingIsHot(s, i, f.node);
      AgainRanks(s, t, i, f, t.workers[i]);
    } else {
      FrameRanks(s, t, i, f, f.(phase := Untied));
    }
  }

  lemma LeaveRanks(s: State, i: nat, a: Act)
    requires Step(s, i, a).Some? && s.workers[i].Plying? && (a.Lower? || a.Announce?)
    ensures Rank(Step(s, i, a).value) < Rank(s)
  {
    var t, f := Step(s, i, a).value, Top(s.workers[i]);
    if a.Lower? && s.outstanding == 1 {
      FrameRanks(s, t, i, f, f.(phase := Announcing));
    } else {
      PopWeight(s.workers[i]);
      WorkerRanks(s, t, i, Pop(s.workers[i]));
    }
  }

  /** Every forced step of a worker lowers the rank. */
  lemma StepRanks(s: State, i: nat, a: Act)
    requires Inv(s) && Forced(s, Work(i, a))
    ensures Rank(Step(s, i, a).value) < Rank(s)
  {
    match a {
      case Look => LookRanks(s, i);
      case Tug => TugRanks(s, i);
      case Notify => NotifyRanks(s, i);
      case EndPass => EndPassRanks(s, i);
      case TieOff =>
        InvExclusive(s);
        TieOffRanks(s, i);
      case Lower => LeaveRanks(s, i, a);
      case Announce => LeaveRanks(s, i, a);
      case _ => SimpleRanks(s, i, a);
    }
  }

  lemma HostTugRanks(s: State)
    requires HostStep(s, HTug).Some?
    ensures Rank(HostStep(s, HTug).value) < Rank(s)
  {
    var t := HostStep(s, HTug).value;
    if s.host.target in s.scheduled {
      HotAdd(s, t, s.host.target);
    } else {
      HotShrinks(s, t);
    }
  }

  lemma WakeOpenings(s: State, t: State)
    requires t.workers == WakeOne(s.workers)
    ensures forall n :: n in t.dirty && BeingOpened(s, n) ==> BeingOpened(t, n)
  {
    WokenWorkers(s.workers);
    forall n | n in t.dirty && BeingOpened(s, n) ensures BeingOpened(t, n) {
      var k :| 0 <= k < |s.workers| && OpensAt(s.workers[k], n);
      assert OpensAt(t.workers[k], n);
    }
  }

  lemma HostNotifyRanks(s: State)
    requires HostStep(s, HNotify).Some?
    ensures Rank(HostStep(s, HNotify).value) < Rank(s)
  {
    WakeWeight(s.workers);
    WakeOpenings(s, HostStep(s, HNotify).value);
    HotShrinks(s, HostStep(s, HNotify).value);
  }

  lemma HostMoveRanks(s: State, a: HostAct)
    requires Forced(s, Outside(a)) && !a.HTug? && !a.HNotify?
    ensures Rank(HostStep(s, a).value) < Rank(s)
  {
    HotShrinks(s, HostStep(s, a).value);
  }

  /** Every forced step of the host lowers the rank. */
  lemma HostRanks(s: State, a: HostAct)
    requires Forced(s, Outside(a))
    ensures Rank(HostStep(s, a).value) < Rank(s)
  {
    match a {
      case HTug => HostTugRanks(s);
      case HNotify => HostNotifyRanks(s);
      case _ => HostMoveRanks(s, a);
    }
  }

  // ----- runs -----

  /** The moves are possible one after the other and all forced. */
  predicate ForcedRun(s: State, ms: seq<Move>)
    decreases |ms|
  {
    ms == [] || (Forced(s, ms[0]) && ForcedRun(Next(s, ms[0]).value, ms[1..]))
  }

  lemma {:induction false} ForcedRunsEnd(s: State, ms: seq<Move>)
    requires Inv(s) && ForcedRun(s, ms)
    ensures |ms| <= Rank(s)
    decreases |ms|
  {
    if ms != [] {
      match ms[0] {
        case Work(i, a) => StepRanks(s, i, a);
        case Outside(a) => HostRanks(s, a);
      }
      NextKeeps(s, ms[0]);
      ForcedRunsEnd(Next(s, ms[0]).value, ms[1..]);
    }
  }

  /** From every reachable state, under every schedule, the work kicked off so far is done
      after a bounded number of steps unless nodes go on publishing: a forced run cannot be
      longer than the rank, and where none can go on, all is quiet. */
  lemma ComesToRest(s: State, ms: seq<Move>, t: State, us: seq<Move>, u: State)
    requires Initial(s) && Run(s, ms) == Some(t) && ForcedRun(t, us) && Run(t, us) == Some(u)
    ensures |us| <= Rank(t)
    ensures (forall m :: !Forced(u, m)) ==> Quiet(u) && u.outstanding == 0 && (u.host.Free? || u.host.Still?)
  {
    Reachable(s, ms);
    ForcedRunsEnd(t, us);
    if forall m :: !Forced(u, m) {
      RunConcat(s, ms, us);
      StuckMeansDone(s, ms + us, u);
    }
  }

  lemma {:induction false} RunConcat(s: State, ms: seq<Move>, us: seq<Move>)
    requires Run(s, ms).Some?
    ensures Run(s, ms + us) == Run(Run(s, ms).value, us)
    decreases |ms|
  {
    if ms == [] {
      assert ms + us == us;
    } else {
      assert (ms + us)[0] == ms[0] && (ms + us)[1..] == ms[1..] + us;
      RunConcat(Next(s, ms[0]).value, ms[1..], us);
    }
  }
}
