/** What holds in every state the weft runtime can reach, under every interleaving. */
module WeftRuns {
  import opened Bytes
  import opened Weft
  import opened WeftInv

  datatype Move = Work(worker: nat, act: Act) | Outside(hostAct: HostAct)

  function Next(s: State, m: Move): Option<State> {
    match m
    case Work(i, a) => Step(s, i, a)
    case Outside(a) => HostStep(s, a)
  }

  /** The state after the moves, or None if one of them was not possible. */
  function Run(s: State, ms: seq<Move>): Option<State>
    decreases |ms|
  {
    if ms == [] then Some(s)
    else match Next(s, ms[0]) case None => None case Some(t) => Run(t, ms[1..])
  }

  /** A runtime just started: any number of nodes, at least one worker, nothing to do. */
  ghost predicate Initial(s: State) {
    && s.scheduled == {} && s.dirty == {} && s.queue == [] && s.outstanding == 0 && s.host == Free
    && s.seen == s.events && s.workers != []
    && forall i :: 0 <= i < |s.workers| ==> s.workers[i].Looking?
  }

  predicate Zero(t: Tally) {
    t.tokens == 0 && t.unread == 0 && t.tugs == 0 && t.counted == 0
  }

  predicate Tugging(h: Host) {
    h.HostPublished? || h.HostWon? || h.HostCounted?
  }

  lemma ZeroPlus(a: Tally, b: Tally)
    requires Zero(a) && Zero(b)
    ensures Zero(Plus(a, b))
  {
  }

  lemma IdleWorker(w: Worker, n: nat)
    requires !w.Plying?
    ensures Zero(WorkerTally(w, n))
  {
  }

  lemma {:induction false} ZeroWorkers(ws: seq<Worker>, n: nat)
    requires forall i :: 0 <= i < |ws| ==> Zero(WorkerTally(ws[i], n))
    ensures Zero(WorkersTally(ws, n))
    decreases |ws|
  {
    if ws != [] {
      var front, last := ws[..|ws| - 1], ws[|ws| - 1];
      ZeroWorkers(front, n);
      ZeroPlus(WorkersTally(front, n), WorkerTally(last, n));
      SumSnoc(WorkerTallies(front, n), WorkerTally(last, n));
    }
  }

  lemma EmptyQueueTally(n: nat)
    ensures Zero(QueueTally([], n))
  {
  }

  lemma RestingHostTally(h: Host, n: nat)
    requires !Tugging(h)
    ensures Zero(HostTally(h, n))
  {
  }

  lemma ZeroTotal(s: State, n: nat)
    requires Zero(WorkersTally(s.workers, n)) && s.queue == [] && !Tugging(s.host)
    ensures Zero(Total(s, n))
  {
    EmptyQueueTally(n);
    RestingHostTally(s.host, n);
    ZeroPlus(WorkersTally(s.workers, n), QueueTally(s.queue, n));
    ZeroPlus(Plus(WorkersTally(s.workers, n), QueueTally(s.queue, n)), HostTally(s.host, n));
  }

  lemma IdleTally(ws: seq<Worker>, n: nat)
    requires forall i :: 0 <= i < |ws| ==> !ws[i].Plying?
    ensures Zero(WorkersTally(ws, n))
  {
    forall i | 0 <= i < |ws| ensures Zero(WorkerTally(ws[i], n)) {
      IdleWorker(ws[i], n);
    }
    ZeroWorkers(ws, n);
  }

  lemma InitialInv(s: State)
    requires Initial(s)
    ensures Inv(s)
  {
    forall n ensures Zero(Total(s, n)) {
      IdleTally(s.workers, n);
      ZeroTotal(s, n);
    }
    assert forall n :: InRange(s, n) ==> NodeOk(s, n);
  }

  lemma NextKeeps(s: State, m: Move)
    requires Inv(s) && Next(s, m).Some?
    ensures Inv(Next(s, m).value)
  {
    match m {
      case Work(i, a) => StepKeeps(s, i, a);
      case Outside(a) => HostStepKeeps(s, a);
    }
  }

  lemma {:induction false} RunKeeps(s: State, ms: seq<Move>)
    requires Inv(s) && Run(s, ms).Some?
    ensures Inv(Run(s, ms).value)
    decreases |ms|
  {
    if ms != [] {
      NextKeeps(s, ms[0]);
      RunKeeps(Next(s, ms[0]).value, ms[1..]);
    }
  }

  /** The invariant holds after every interleaving of every length. */
  lemma Reachable(s: State, ms: seq<Move>)
    requires Initial(s) && Run(s, ms).Some?
    ensures Inv(Run(s, ms).value)
  {
    InitialInv(s);
    RunKeeps(s, ms);
  }

  // ----- one pass of a node at a time -----

  predicate HasFrame(s: State, i: nat, k: nat) {
    i < |s.workers| && s.workers[i].Plying? && k < |s.workers[i].stack|
  }

  function FrameAt(s: State, i: nat, k: nat): Frame
    requires HasFrame(s, i, k)
  {
    s.workers[i].stack[k]
  }

  ghost predicate AllNonNegative(ts: seq<Tally>) {
    forall k :: 0 <= k < |ts| ==> NonNegative(ts[k])
  }

  lemma {:induction false} SumNonNegative(ts: seq<Tally>)
    requires AllNonNegative(ts)
    ensures NonNegative(Sum(ts))
    decreases |ts|
  {
    if ts != [] {
      SumNonNegative(ts[..|ts| - 1]);
    }
  }

  lemma {:induction false} SumCovers(ts: seq<Tally>, i: nat)
    requires AllNonNegative(ts) && i < |ts|
    ensures NonNegative(Minus(Sum(ts), ts[i]))
    decreases |ts|
  {
    var k := |ts| - 1;
    if i < k {
      SumCovers(ts[..k], i);
      assert ts[..k][i] == ts[i] && NonNegative(ts[k]);
    } else {
      SumNonNegative(ts[..k]);
    }
  }

  lemma {:induction false} SumCoversTwo(ts: seq<Tally>, i: nat, j: nat)
    requires AllNonNegative(ts) && i < j < |ts|
    ensures Sum(ts).tokens >= ts[i].tokens + ts[j].tokens
    decreases |ts|
  {
    var k := |ts| - 1;
    if j < k {
      SumCoversTwo(ts[..k], i, j);
      assert ts[..k][i] == ts[i] && ts[..k][j] == ts[j] && NonNegative(ts[k]);
    } else {
      SumCovers(ts[..k], i);
      assert ts[..k][i] == ts[i];
    }
  }

  lemma {:induction false} FrameTalliesAt(st: seq<Frame>, n: nat)
    ensures |FrameTallies(st, n)| == |st| && AllNonNegative(FrameTallies(st, n))
    ensures forall k :: 0 <= k < |st| ==> FrameTallies(st, n)[k] == FrameTally(st[k], n)
    decreases |st|
  {
    if st != [] {
      FrameTalliesAt(st[..|st| - 1], n);
    }
  }

  lemma WorkerTalliesCover(ws: seq<Worker>, n: nat)
    ensures AllNonNegative(WorkerTallies(ws, n))
    ensures forall k :: 0 <= k < |ws| ==> WorkerTallies(ws, n)[k] == WorkerTally(ws[k], n)
  {
    forall k | 0 <= k < |ws| ensures WorkerTallies(ws, n)[k] == WorkerTally(ws[k], n)
        && NonNegative(WorkerTally(ws[k], n)) {
      WorkerTalliesAt(ws, k, n);
      WorkerNonNegative(ws[k], n);
    }
  }

  lemma OwnerTokens(s: State, i: nat, k: nat, n: nat)
    requires HasFrame(s, i, k) && Owns(FrameAt(s, i, k)) && FrameAt(s, i, k).node == n
    ensures WorkerTally(s.workers[i], n).tokens >= 1
  {
    FrameTalliesAt(s.workers[i].stack, n);
    SumCovers(FrameTallies(s.workers[i].stack, n), k);
  }

  lemma TwoInOneStack(s: State, i: nat, k: nat, l: nat, n: nat)
    requires HasFrame(s, i, k) && HasFrame(s, i, l) && k < l
    requires Owns(FrameAt(s, i, k)) && FrameAt(s, i, k).node == n && Owns(FrameAt(s, i, l))
             && FrameAt(s, i, l).node == n
    ensures WorkerTally(s.workers[i], n).tokens >= 2
  {
    FrameTalliesAt(s.workers[i].stack, n);
    SumCoversTwo(FrameTallies(s.workers[i].stack, n), k, l);
  }

  lemma WorkerCovers(s: State, i: nat, n: nat)
    requires i < |s.workers|
    ensures WorkersTally(s.workers, n).tokens >= WorkerTally(s.workers[i], n).tokens
  {
    WorkerTalliesCover(s.workers, n);
    SumCovers(WorkerTallies(s.workers, n), i);
  }

  lemma TwoWorkersCover(s: State, i: nat, j: nat, n: nat)
    requires i < j < |s.workers|
    ensures WorkersTally(s.workers, n).tokens >= WorkerTally(s.workers[i], n).tokens
            + WorkerTally(s.workers[j], n).tokens
  {
    WorkerTalliesCover(s.workers, n);
    SumCoversTwo(WorkerTallies(s.workers, n), i, j);
  }

  lemma TokensBounded(s: State, n: nat)
    requires Inv(s) && InRange(s, n)
    ensures WorkersTally(s.workers, n).tokens + multiset(s.queue)[n] <= 1
  {
    assert NodeOk(s, n);
  }

  lemma OneOwner(t: State, i: nat, k: nat, j: nat, l: nat, n: nat)
    requires HasFrame(t, i, k) && HasFrame(t, j, l) && WorkersTally(t.workers, n).tokens <= 1
    requires Owns(FrameAt(t, i, k)) && Owns(FrameAt(t, j, l)) && FrameAt(t, i, k).node == FrameAt(t, j, l).node == n
    ensures i == j && k == l && WorkersTally(t.workers, n).tokens == 1
  {
    OwnerTokens(t, i, k, n);
    OwnerTokens(t, j, l, n);
    WorkerCovers(t, i, n);
    if i < j {
      TwoWorkersCover(t, i, j, n);
    } else if j < i {
      TwoWorkersCover(t, j, i, n);
    } else if k < l {
      TwoInOneStack(t, i, k, l, n);
    } else if l < k {
      TwoInOneStack(t, i, l, k, n);
    }
  }

  lemma FrameTokens(t: State, i: nat, k: nat)
    requires Inv(t) && HasFrame(t, i, k)
    ensures WorkersTally(t.workers, FrameAt(t, i, k).node).tokens + multiset(t.queue)[FrameAt(t, i, k).node] <= 1
  {
    assert FrameInRange(t, FrameAt(t, i, k));
    TokensBounded(t, FrameAt(t, i, k).node);
  }

  /** Exclusive execution: two activations that have not yet tied off the same node are the
      same activation, and a queued node is neither running nor queued twice. */
  lemma OnePassPerNode(s: State, ms: seq<Move>, t: State, i: nat, k: nat, j: nat, l: nat)
    requires Initial(s) && Run(s, ms) == Some(t) && HasFrame(t, i, k) && HasFrame(t, j, l)
    requires Owns(FrameAt(t, i, k)) && Owns(FrameAt(t, j, l)) && FrameAt(t, i, k).node == FrameAt(t, j, l).node
    ensures i == j && k == l
    ensures FrameAt(t, i, k).node !in t.queue
  {
    Reachable(s, ms);
    FrameTokens(t, i, k);
    OneOwner(t, i, k, j, l, FrameAt(t, i, k).node);
  }

  lemma QueuedOnce(s: State, ms: seq<Move>, t: State, a: nat, b: nat)
    requires Initial(s) && Run(s, ms) == Some(t) && a < b < |t.queue|
    ensures t.queue[a] != t.queue[b]
  {
    Reachable(s, ms);
    var n := t.queue[a];
    TokensBounded(t, n);
    WorkersNonNegative(t.workers, n);
    Duplicate(t.queue, a, b);
  }

  lemma Duplicate(q: seq<nat>, a: nat, b: nat)
    requires a < b < |q|
    ensures q[a] == q[b] ==> multiset(q)[q[a]] >= 2
  {
    var n := q[a];
    assert q == q[..b] + [q[b]] + q[b + 1..];
    assert q[..b][a] == n && n in multiset(q[..b]);
    assert multiset(q) == multiset(q[..b]) + multiset{q[b]} + multiset(q[b + 1..]);
  }

  /** Tail chaining never nests deeper than the cap. */
  lemma ChainDepthBounded(s: State, ms: seq<Move>, t: State, i: nat)
    requires Initial(s) && Run(s, ms) == Some(t) && i < |t.workers| && t.workers[i].Plying?
    ensures 1 <= |t.workers[i].stack| <= CHAIN_DEPTH_CAP + 1
  {
    Reachable(s, ms);
  }

  // ----- stillness -----

  /** No pass is running, queued or pending, and every node has seen all its events. */
  ghost predicate Quiet(s: State) {
    && s.queue == [] && s.scheduled == {} && s.seen == s.events
    && (forall i :: 0 <= i < |s.workers| && s.workers[i].Plying? ==>
          |s.workers[i].stack| == 1 && Top(s.workers[i]).phase.Announcing?)
  }

  lemma FrameCounted(s: State, i: nat, k: nat, n: nat)
    requires HasFrame(s, i, k)
    ensures WorkersTally(s.workers, n).counted >= FrameTally(FrameAt(s, i, k), n).counted
    ensures WorkersTally(s.workers, n).tugs >= FrameTally(FrameAt(s, i, k), n).tugs
  {
    FrameTalliesAt(s.workers[i].stack, n);
    SumCovers(FrameTallies(s.workers[i].stack, n), k);
    WorkerTalliesCover(s.workers, n);
    SumCovers(WorkerTallies(s.workers, n), i);
  }

  lemma NothingCounted(s: State, i: nat)
    requires Inv(s) && s.outstanding == 0 && i < |s.workers| && s.workers[i].Plying?
    ensures |s.workers[i].stack| == 1 && Top(s.workers[i]).phase.Announcing?
  {
    FrameCounted(s, i, |s.workers[i].stack| - 1, 0);
    FrameCounted(s, i, 0, 0);
  }

  lemma AnnouncingTally(w: Worker, n: nat)
    requires w.Plying? && |w.stack| == 1 && Top(w).phase.Announcing? && Top(w).chain.None?
    ensures Zero(WorkerTally(w, n))
  {
    assert w.stack == [] + [Top(w)];
    TopTally(w, [], Top(w), n);
    PopFrameTally(Top(w), n);
    ZeroPlus(Sum(FrameTallies([], n)), FrameTally(Top(w), n));
  }

  lemma NothingHeld(s: State, n: nat)
    requires Inv(s) && s.outstanding == 0
    ensures Zero(WorkersTally(s.workers, n))
  {
    forall i | 0 <= i < |s.workers| ensures Zero(WorkerTally(s.workers[i], n)) {
      if s.workers[i].Plying? {
        NothingCounted(s, i);
        TopShape(s, i);
        AnnouncingTally(s.workers[i], n);
      } else {
        IdleWorker(s.workers[i], n);
      }
    }
    ZeroWorkers(s.workers, n);
  }

  lemma QueueCounted(s: State)
    requires Inv(s) && s.outstanding == 0
    ensures s.queue == []
  {
    WorkersNonNegative(s.workers, 0);
  }

  /** A zero counter, read while the host is not itself tugging, means that all work is done. */
  lemma ZeroMeansQuiet(s: State)
    requires Inv(s) && s.outstanding == 0 && !Tugging(s.host)
    ensures Quiet(s)
  {
    QueueCounted(s);
    forall i | 0 <= i < |s.workers| && s.workers[i].Plying?
      ensures |s.workers[i].stack| == 1 && Top(s.workers[i]).phase.Announcing?
    {
      NothingCounted(s, i);
    }
    forall n: nat | InRange(s, n) ensures n !in s.scheduled && s.seen[n] == s.events[n] {
      NothingHeld(s, n);
      ZeroTotal(s, n);
      assert NodeOk(s, n);
    }
  }

  /** Sound stillness: when await_stillness reads zero and returns, nothing was lost. */
  lemma StillnessIsSound(s: State, ms: seq<Move>, t: State)
    requires Initial(s) && Run(s, ms) == Some(t) && t.host.Checking? && HostStep(t, HRead).value.host.Still?
    ensures Quiet(t)
  {
    Reachable(s, ms);
    ZeroMeansQuiet(t);
  }

  lemma QuietStep(s: State, i: nat, a: Act)
    requires Quiet(s) && Step(s, i, a).Some?
    ensures Quiet(Step(s, i, a).value)
  {
    if s.workers[i].Plying? {
      assert s.workers[i].stack == [Top(s.workers[i])];
    }
  }

  /** And it lasts: until the host tugs again the workers only drift to sleep. */
  lemma {:induction false} StillnessLasts(s: State, ms: seq<Move>)
    requires Quiet(s) && Run(s, ms).Some? && forall k :: 0 <= k < |ms| ==> ms[k].Work?
    ensures Quiet(Run(s, ms).value)
    decreases |ms|
  {
    if ms != [] {
      assert ms[0].Work?;
      QuietStep(s, ms[0].worker, ms[0].act);
      StillnessLasts(Next(s, ms[0]).value, ms[1..]);
    }
  }

  // ----- no deadlock -----

  /** Moves nobody is free to withhold: all but a node's publications, looking again at rings
      already looked at, the host's decisions to publish, to wait or to go on, and spurious
      wake-ups. */
  predicate Forced(s: State, m: Move) {
    && Next(s, m).Some?
    && match m
       case Work(i, a) => !a.Rouse? && !a.Publish? && !(a.Observe? && Top(s.workers[i]).observed)
       case Outside(a) => !a.HPublish? && !a.HLock? && !a.HAgain? && !(a.HWake? && s.host.Parked?)
  }

  function HostNext(h: Host): HostAct {
    match h
    case HostPublished(_) => HTug
    case HostWon(_) => HCount
    case HostCounted(_) => HSpool
    case HostSpooled => HNotify
    case Checking => HRead
    case Parking => HWait
    case _ => HWake
  }

  function FrameNext(f: Frame): Act {
    match f.phase
    case Opening => Open
    case Weaving => if f.observed then EndPass else Observe
    case Published(_) => Tug
    case Won(_) => Count
    case Counted(_) => Route
    case Spooled => Notify
    case Tying => TieOff
    case Untied => Lower
    case Announcing => Announce
  }

  function WorkerNext(w: Worker): Act {
    if w.Plying? && w.stack != [] then FrameNext(Top(w)) else Look
  }

  lemma WorkerCanMove(s: State, i: nat)
    requires Shaped(s) && !Locked(s) && i < |s.workers| && Awake(s.workers[i])
    ensures Next(s, Work(i, WorkerNext(s.workers[i]))).Some?
  {
    if s.workers[i].Plying? {
      TopShape(s, i);
    }
  }

  lemma AsleepWakeups(s: State)
    requires WakeupsOk(s) && !s.host.HostSpooled? && (forall i :: 0 <= i < |s.workers| ==> !Awake(s.workers[i]))
    ensures s.queue == [] && (s.host.Parked? ==> s.outstanding > 0)
  {
  }

  lemma AsleepCounts(s: State)
    requires Shaped(s) && s.outstanding == Total(s, 0).counted && s.queue == [] && !Tugging(s.host)
    requires forall i :: 0 <= i < |s.workers| ==> !Awake(s.workers[i])
    ensures s.outstanding == 0
  {
    IdleTally(s.workers, 0);
    ZeroTotal(s, 0);
  }

  lemma AllAsleep(s: State)
    requires Inv(s) && (forall i :: 0 <= i < |s.workers| ==> !Awake(s.workers[i]))
    requires s.host.Free? || s.host.Parked? || s.host.Still?
    ensures Quiet(s) && s.outstanding == 0 && !s.host.Parked?
  {
    AsleepWakeups(s);
    AsleepCounts(s);
    ZeroMeansQuiet(s);
  }

  lemma HostCanMove(s: State)
    ensures Forced(s, Outside(HostNext(s.host))) || s.host.Free? || s.host.Parked? || s.host.Still?
  {
  }

  lemma WorkerMustMove(s: State, i: nat)
    requires Shaped(s) && !Locked(s) && i < |s.workers| && Awake(s.workers[i])
    ensures Forced(s, Work(i, WorkerNext(s.workers[i])))
  {
    WorkerCanMove(s, i);
  }

  /** The runtime stops only when there is nothing left to do and the host is not waiting. */
  lemma StuckMeansDone(s: State, ms: seq<Move>, t: State)
    requires Initial(s) && Run(s, ms) == Some(t) && forall m :: !Forced(t, m)
    ensures Quiet(t) && t.outstanding == 0 && (t.host.Free? || t.host.Still?)
  {
    Reachable(s, ms);
    HostCanMove(t);
    forall i | 0 <= i < |t.workers| ensures !Awake(t.workers[i]) {
      if Awake(t.workers[i]) {
        WorkerMustMove(t, i);
      }
    }
    AllAsleep(t);
  }
}
