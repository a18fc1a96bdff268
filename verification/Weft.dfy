/** The weft runtime: nodes woken by tugs, run by a pool of workers, at most one pass of
    a node at a time.  Every atomic operation of node.rs and rt.rs is one step of this
    machine, and steps of different threads interleave arbitrarily. */
module Weft {
  import opened Bytes

  const CHAIN_DEPTH_CAP: nat := 2

  /** Where a worker stands inside ply_node. */
  datatype Phase =
    | Opening                 // about to clear DIRTY (open_shed)
    | Weaving                 // inside shuttle
    | Published(target: nat)  // rows handed to the target, its tug still to come
    | Won(target: nat)        // tug won SCHEDULED, outstanding not yet raised
    | Counted(target: nat)    // outstanding raised, target not yet routed
    | Spooled                 // target queued, notify_one still to come
    | Tying                   // about to try_tie_off
    | Untied                  // SCHEDULED cleared, outstanding not yet lowered
    | Announcing              // last one out: done_cv still to be notified

  /** One activation of ply_node.  `observed` says that this pass has read its rings;
      `chain` is the tail-chain candidate of the pass. */
  datatype Frame = Frame(node: nat, phase: Phase, observed: bool, chain: Option<nat>)

  datatype Worker = Sleeping | Looking | Plying(stack: seq<Frame>)

  /** The thread outside the pool: Runtime::tug and await_stillness. */
  datatype Host =
    | Free
    | HostPublished(target: nat)
    | HostWon(target: nat)
    | HostCounted(target: nat)
    | HostSpooled
    | Checking  // holds the queue lock, about to read outstanding
    | Parking   // holds the lock, saw work, about to wait on done_cv
    | Parked
    | Woken
    | Still     // await_stillness has returned

  datatype State = State(
    scheduled: set<nat>,
    dirty: set<nat>,
    events: seq<nat>,   // per node: rows published to it or slots freed for it
    seen: seq<nat>,     // per node: how many of them its latest pass has observed
    queue: seq<nat>,
    outstanding: int,
    workers: seq<Worker>,
    host: Host)

  datatype Act =
    | Look | Rouse | Open | Observe | Publish(target: nat) | Tug | Count | Route | Notify | EndPass | TieOff
    | Lower | Announce

  datatype HostAct =
    | HPublish(target: nat) | HTug | HCount | HSpool | HNotify | HLock | HRead | HWait | HWake | HAgain

  predicate Locked(s: State) {
    s.host.Checking? || s.host.Parking?
  }

  function Top(w: Worker): Frame
    requires w.Plying? && w.stack != []
  {
    w.stack[|w.stack| - 1]
  }

  function SetTop(w: Worker, f: Frame): Worker
    requires w.Plying? && w.stack != []
  {
    Plying(w.stack[..|w.stack| - 1] + [f])
  }

  function Push(w: Worker, f: Frame): Worker
    requires w.Plying?
  {
    Plying(w.stack + [f])
  }

  function Pop(w: Worker): Worker
    requires w.Plying? && w.stack != []
  {
    if |w.stack| == 1 then Looking else Plying(w.stack[..|w.stack| - 1])
  }

  function FirstSleeper(ws: seq<Worker>): Option<nat> {
    if ws == [] then None
    else if ws[0].Sleeping? then Some(0)
    else match FirstSleeper(ws[1..]) case None => None case Some(i) => Some(i + 1)
  }

  /** notify_one on work_cv. */
  function WakeOne(ws: seq<Worker>): seq<Worker> {
    match FirstSleeper(ws)
    case None => ws
    case Some(i) => if i < |ws| then ws[i := Looking] else ws
  }

  function SetWorker(s: State, i: nat, w: Worker): State
    requires i < |s.workers|
  {
    s.(workers := s.workers[i := w])
  }

  /** One step of worker i; None when the step is not the worker's next one or needs the
      lock while the host holds it. */
  function Step(s: State, i: nat, a: Act): Option<State> {
    if i >= |s.workers| then None
    else
      var w := s.workers[i];
      if w.Looking? then
        if a.Look? && !Locked(s) then
          if s.queue == [] then Some(SetWorker(s, i, Sleeping))
          else Some(SetWorker(s.(queue := s.queue[1..]), i, Plying([Frame(s.queue[0], Opening, false, None)])))
        else None
      else if w.Plying? && w.stack != [] then StepFrame(s, i, w, Top(w), |w.stack| - 1, a)
      else if w.Sleeping? && a.Rouse? then Some(SetWorker(s, i, Looking))  // a spurious wake-up
      else None
  }

  function StepFrame(s: State, i: nat, w: Worker, f: Frame, depth: nat, a: Act): Option<State>
    requires i < |s.workers| && w.Plying? && w.stack != []
  {
    match (f.phase, a)
    case (Opening, Open) =>
      Some(SetWorker(s.(dirty := s.dirty - {f.node}), i, SetTop(w, f.(phase := Weaving))))
    case (Weaving, Observe) =>
      if f.node >= |s.seen| || f.node >= |s.events| then None
      else Some(SetWorker(s.(seen := s.seen[f.node := s.events[f.node]]), i, SetTop(w, f.(observed := true))))
    case (Weaving, Publish(m)) =>
      if m >= |s.events| then None
      else Some(SetWorker(s.(events := s.events[m := s.events[m] + 1]), i, SetTop(w, f.(phase := Published(m)))))
    case (Published(m), Tug) =>
      if m in s.scheduled then Some(SetWorker(s.(dirty := s.dirty + {m}), i, SetTop(w, f.(phase := Weaving))))
      else Some(SetWorker(s.(scheduled := s.scheduled + {m}), i, SetTop(w, f.(phase := Won(m)))))
    case (Won(m), Count) =>
      Some(SetWorker(s.(outstanding := s.outstanding + 1), i, SetTop(w, f.(phase := Counted(m)))))
    case (Counted(m), Route) =>
      if depth < CHAIN_DEPTH_CAP && f.chain.None?
      then Some(SetWorker(s, i, SetTop(w, f.(phase := Weaving, chain := Some(m)))))
      else if Locked(s) then None
      else Some(SetWorker(s.(queue := s.queue + [m]), i, SetTop(w, f.(phase := Spooled))))
    case (Spooled, Notify) =>
      Some(s.(workers := WakeOne(s.workers[i := SetTop(w, f.(phase := Weaving))])))
    case (Weaving, EndPass) =>
      if !f.observed then None
      else if f.chain.None? then Some(SetWorker(s, i, SetTop(w, f.(phase := Tying))))
      else
        var parent := SetTop(w, f.(phase := Tying, chain := None));
        Some(SetWorker(s, i, Push(parent, Frame(f.chain.value, Opening, false, None))))
    case (Tying, TieOff) =>
      if f.node in s.dirty then Some(SetWorker(s, i, SetTop(w, f.(phase := Opening, observed := false))))
      else Some(SetWorker(s.(scheduled := s.scheduled - {f.node}), i, SetTop(w, f.(phase := Untied))))
    case (Untied, Lower) =>
      var t := s.(outstanding := s.outstanding - 1);
      if s.outstanding == 1 then Some(SetWorker(t, i, SetTop(w, f.(phase := Announcing))))
      else Some(SetWorker(t, i, Pop(w)))
    case (Announcing, Announce) =>
      if Locked(s) then None
      else Some(SetWorker(s.(host := if s.host.Parked? then Woken else s.host), i, Pop(w)))
    case _ => None
  }

  /** One step of the host thread. */
  function HostStep(s: State, a: HostAct): Option<State> {
    match (s.host, a)
    case (Free, HPublish(m)) =>
      if m >= |s.events| then None
      else Some(s.(events := s.events[m := s.events[m] + 1], host := HostPublished(m)))
    case (HostPublished(m), HTug) =>
      if m in s.scheduled then Some(s.(dirty := s.dirty + {m}, host := Free))
      else Some(s.(scheduled := s.scheduled + {m}, host := HostWon(m)))
    case (HostWon(m), HCount) => Some(s.(outstanding := s.outstanding + 1, host := HostCounted(m)))
    case (HostCounted(m), HSpool) => Some(s.(queue := s.queue + [m], host := HostSpooled))
    case (HostSpooled, HNotify) => Some(s.(workers := WakeOne(s.workers), host := Free))
    case (Free, HLock) => Some(s.(host := Checking))
    case (Checking, HRead) => Some(s.(host := if s.outstanding == 0 then Still else Parking))
    case (Parking, HWait) => Some(s.(host := Parked))
    case (Woken, HWake) => Some(s.(host := Checking))
    case (Parked, HWake) => Some(s.(host := Checking))  // a spurious wake-up
    case (Still, HAgain) => Some(s.(host := Free))
    case _ => None
  }

  // ----- bookkeeping: who holds a node, who owes it a look -----

  /** For one node: places that hold its SCHEDULED bit, those of them that will still
      read its rings, tugs on the way to it; and, for all nodes together, the units of
      `outstanding` held. */
  datatype Tally = Tally(tokens: int, unread: int, tugs: int, counted: int)

  const NIL := Tally(0, 0, 0, 0)

  function Plus(a: Tally, b: Tally): Tally {
    Tally(a.tokens + b.tokens, a.unread + b.unread, a.tugs + b.tugs, a.counted + b.counted)
  }

  function Minus(a: Tally, b: Tally): Tally {
    Tally(a.tokens - b.tokens, a.unread - b.unread, a.tugs - b.tugs, a.counted - b.counted)
  }

  function B(b: bool): int { if b then 1 else 0 }

  function Neg(b: bool): int { if b then -1 else 0 }

  /** The frame still owns its node's SCHEDULED bit. */
  predicate Owns(f: Frame) {
    !f.phase.Untied? && !f.phase.Announcing?
  }

  function FrameTally(f: Frame, n: nat): Tally {
    var carried := B(f.chain == Some(n)) + B(f.phase == Won(n)) + B(f.phase == Counted(n));
    Tally(B(Owns(f) && f.node == n) + carried,
          B(Owns(f) && f.node == n && !f.observed) + carried,
          B(f.phase == Published(n)),
          B(!f.phase.Announcing?) + B(f.chain.Some?) + B(f.phase.Counted?))
  }

  function Sum(ts: seq<Tally>): Tally {
    if ts == [] then NIL else Plus(Sum(ts[..|ts| - 1]), ts[|ts| - 1])
  }

  function FrameTallies(st: seq<Frame>, n: nat): seq<Tally> {
    if st == [] then [] else FrameTallies(st[..|st| - 1], n) + [FrameTally(st[|st| - 1], n)]
  }

  function WorkerTally(w: Worker, n: nat): Tally {
    if w.Plying? then Sum(FrameTallies(w.stack, n)) else NIL
  }

  function WorkerTallies(ws: seq<Worker>, n: nat): (ts: seq<Tally>)
    ensures |ts| == |ws|
  {
    if ws == [] then [] else WorkerTallies(ws[..|ws| - 1], n) + [WorkerTally(ws[|ws| - 1], n)]
  }

  function WorkersTally(ws: seq<Worker>, n: nat): Tally {
    Sum(WorkerTallies(ws, n))
  }

  function HostTally(h: Host, n: nat): Tally {
    match h
    case HostPublished(m) => Tally(0, 0, B(m == n), 0)
    case HostWon(m) => Tally(B(m == n), B(m == n), 0, 0)
    case HostCounted(m) => Tally(B(m == n), B(m == n), 0, 1)
    case _ => NIL
  }

  function QueueTally(q: seq<nat>, n: nat): Tally {
    var k := multiset(q)[n];
    Tally(k, k, 0, |q|)
  }

  function Total(s: State, n: nat): Tally {
    Plus(Plus(WorkersTally(s.workers, n), QueueTally(s.queue, n)), HostTally(s.host, n))
  }

  // ----- the invariant -----

  predicate ShapedFrame(f: Frame, depth: nat, top: bool) {
    && (f.chain.Some? ==> depth < CHAIN_DEPTH_CAP)
    && (!top ==> f.phase == Tying && f.chain.None?)
    && (f.phase.Opening? ==> !f.observed && f.chain.None?)
    && (f.phase.Tying? ==> f.observed && f.chain.None?)
    && (f.phase.Untied? || f.phase.Announcing? ==> f.chain.None?)
  }

  /** Stacks are at most CHAIN_DEPTH_CAP + 1 deep and all but the top frame are waiting
      to tie off. */
  predicate ShapedWorker(w: Worker) {
    w.Plying? ==>
      && 1 <= |w.stack| <= CHAIN_DEPTH_CAP + 1
      && forall k :: 0 <= k < |w.stack| ==> ShapedFrame(w.stack[k], k, k == |w.stack| - 1)
  }

  predicate InRange(s: State, n: nat) {
    n < |s.events|
  }

  predicate PhaseInRange(s: State, p: Phase) {
    match p
    case Published(m) => InRange(s, m)
    case Won(m) => InRange(s, m)
    case Counted(m) => InRange(s, m)
    case _ => true
  }

  predicate FrameInRange(s: State, f: Frame) {
    InRange(s, f.node) && PhaseInRange(s, f.phase) && (f.chain.Some? ==> InRange(s, f.chain.value))
  }

  predicate WorkerInRange(s: State, w: Worker) {
    w.Plying? ==> forall k :: 0 <= k < |w.stack| ==> FrameInRange(s, w.stack[k])
  }

  predicate HostInRange(s: State) {
    match s.host
    case HostPublished(m) => InRange(s, m)
    case HostWon(m) => InRange(s, m)
    case HostCounted(m) => InRange(s, m)
    case _ => true
  }

  ghost predicate Shaped(s: State) {
    && |s.seen| == |s.events| && |s.workers| >= 1
    && (forall i :: 0 <= i < |s.workers| ==> ShapedWorker(s.workers[i]) && WorkerInRange(s, s.workers[i]))
    && (forall k :: 0 <= k < |s.queue| ==> InRange(s, s.queue[k]))
    && HostInRange(s)
    && (forall n :: n in s.scheduled ==> InRange(s, n))
  }

  /** SCHEDULED is held in exactly one place or nowhere; an event that the latest pass has
      not seen has a tug on its way, a DIRTY bit, or a pass that will still look. */
  predicate Covered(scheduled: bool, dirty: bool, seen: nat, events: nat, t: Tally) {
    && t.tokens == B(scheduled)
    && (dirty ==> scheduled)
    && seen <= events
    && (seen < events ==> t.tugs > 0 || dirty || t.unread > 0)
  }

  predicate NodeOk(s: State, n: nat)
    requires InRange(s, n) && |s.seen| == |s.events|
  {
    Covered(n in s.scheduled, n in s.dirty, s.seen[n], s.events[n], Total(s, n))
  }

  predicate Awake(w: Worker) {
    !w.Sleeping?
  }

  predicate LastOut(w: Worker) {
    w.Plying? && w.stack != [] && Top(w).phase.Announcing?
  }

  /** No wake-up is lost: queued work has a worker that will look or a notification to
      come; a parked host has work outstanding or an announcement to come. */
  ghost predicate WakeupsOk(s: State) {
    && (s.queue != [] ==> s.host.HostSpooled? || exists i :: 0 <= i < |s.workers| && Awake(s.workers[i]))
    && (s.host.Parking? || s.host.Parked? ==>
          s.outstanding > 0 || exists i :: 0 <= i < |s.workers| && LastOut(s.workers[i]))
  }

  ghost predicate Inv(s: State) {
    && Shaped(s)
    && (forall n :: InRange(s, n) ==> NodeOk(s, n))
    && s.outstanding == Total(s, 0).counted
    && WakeupsOk(s)
  }
}
