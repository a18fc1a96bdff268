/** Rows flowing through the decode graph: a tree of stages joined by bounded rings.  A stage
    fires once for every row it makes; a firing needs a window of rows in each input ring
    and a free slot in the output ring. */
module WeftFlow {
  import opened Bytes

  /** A stage that makes `total` rows from its inputs. */
  datatype Stage = Stage(total: nat, inputs: seq<Edge>)

  /** A ring and the stage behind it.  Before firing k the consumer must have been handed
      need[k] rows, of which it has already given keep[k] back. */
  datatype Edge = Edge(capacity: nat, need: seq<nat>, keep: seq<nat>, child: Stage)

  /** How far every stage has come. */
  datatype Progress = Progress(fired: nat, inputs: seq<Progress>)

  predicate Windows(e: Edge, total: nat) {
    && |e.need| == |e.keep| == total >= 1 && e.need[total - 1] == e.child.total
    && (forall k :: 0 <= k < total ==> e.keep[k] <= e.need[k] <= e.child.total)
    && (forall j, k :: 0 <= j <= k < total ==> e.keep[j] <= e.keep[k])
  }

  /** Windows never move back, and every row is needed in the end. */
  predicate Wired(s: Stage) {
    forall i :: 0 <= i < |s.inputs| ==> Windows(s.inputs[i], s.total) && Wired(s.inputs[i].child)
  }

  /** The ring holds the largest window of its consumer. */
  predicate Fits(e: Edge) {
    forall k :: 0 <= k < |e.need| && k < |e.keep| ==> e.need[k] <= e.keep[k] + e.capacity
  }

  predicate Sized(s: Stage) {
    forall i :: 0 <= i < |s.inputs| ==> Fits(s.inputs[i]) && Sized(s.inputs[i].child)
  }

  predicate Shaped(s: Stage, p: Progress) {
    p.fired <= s.total && |p.inputs| == |s.inputs|
    && forall i :: 0 <= i < |s.inputs| ==> Shaped(s.inputs[i].child, p.inputs[i])
  }

  /** Rows given back on a ring once its consumer has fired that often. */
  function Released(e: Edge, fired: nat): nat {
    if fired < |e.keep| then e.keep[fired] else e.child.total
  }

  predicate HasSlot(e: Edge, fired: nat, child: Progress) {
    child.fired < Released(e, fired) + e.capacity
  }

  predicate Fed(s: Stage, p: Progress) {
    p.fired < s.total && |p.inputs| == |s.inputs|
    && forall i :: 0 <= i < |s.inputs| ==>
         p.fired < |s.inputs[i].need| && s.inputs[i].need[p.fired] <= p.inputs[i].fired
  }

  /** The stage at the end of the path fires, if it is fed and its output has a slot. */
  function Fire(s: Stage, p: Progress, slot: bool, path: seq<nat>): Option<Progress>
    decreases |path|
  {
    if path == [] then (if slot && Fed(s, p) then Some(p.(fired := p.fired + 1)) else None)
    else if path[0] >= |s.inputs| || path[0] >= |p.inputs| then None
    else
      var e, c := s.inputs[path[0]], p.inputs[path[0]];
      match Fire(e.child, c, HasSlot(e, p.fired, c), path[1..])
      case None => None
      case Some(c') => Some(p.(inputs := p.inputs[path[0] := c']))
  }

  /** Enough capacity: while rows are missing at the root, some stage can fire. */
  lemma {:induction false} SomeStageRuns(s: Stage, p: Progress) returns (path: seq<nat>)
    requires Wired(s) && Sized(s) && Shaped(s, p) && p.fired < s.total
    ensures Fire(s, p, true, path).Some?
    decreases s
  {
    if Fed(s, p) {
      return [];
    }
    var i :| 0 <= i < |s.inputs| && !(p.fired < |s.inputs[i].need| && s.inputs[i].need[p.fired] <= p.inputs[i].fired);
    var e, c := s.inputs[i], p.inputs[i];
    assert Windows(e, s.total) && Fits(e) && Wired(e.child) && Sized(e.child) && Shaped(e.child, c);
    assert e.need[p.fired] <= e.keep[p.fired] + e.capacity;
    var rest := SomeStageRuns(e.child, c);
    path := [i] + rest;
    assert path[1..] == rest;
  }

  /** Firings still to come. */
  function Work(s: Stage, p: Progress): int
    decreases s, 1
  {
    s.total - p.fired + InputWork(s, p, |s.inputs|)
  }

  function InputWork(s: Stage, p: Progress, n: nat): int
    requires n <= |s.inputs|
    decreases s, 0, n
  {
    if n == 0 then 0
    else InputWork(s, p, n - 1) + if n - 1 < |p.inputs| then Work(s.inputs[n - 1].child, p.inputs[n - 1]) else 0
  }

  lemma {:induction false} InputWorkUpdate(s: Stage, p: Progress, i: nat, c: Progress, n: nat)
    requires i < |p.inputs| && i < |s.inputs| && n <= |s.inputs|
    ensures InputWork(s, p.(inputs := p.inputs[i := c]), n)
         == InputWork(s, p, n) + if i < n then Work(s.inputs[i].child, c) - Work(s.inputs[i].child, p.inputs[i]) else 0
    decreases n
  {
    if n > 0 {
      InputWorkUpdate(s, p, i, c, n - 1);
    }
  }

  lemma {:induction false} InputWorkIgnoresFired(s: Stage, p: Progress, f: nat, n: nat)
    requires n <= |s.inputs|
    ensures InputWork(s, p.(fired := f), n) == InputWork(s, p, n)
    decreases n
  {
    if n > 0 {
      InputWorkIgnoresFired(s, p, f, n - 1);
    }
  }

  /** Every firing is one less to come, and keeps all counts in range. */
  lemma {:induction false} FireWorks(s: Stage, p: Progress, slot: bool, path: seq<nat>)
    requires Shaped(s, p) && Fire(s, p, slot, path).Some?
    ensures Shaped(s, Fire(s, p, slot, path).value) && Work(s, Fire(s, p, slot, path).value) == Work(s, p) - 1
    decreases |path|
  {
    if path == [] {
      InputWorkIgnoresFired(s, p, p.fired + 1, |s.inputs|);
    } else {
      var i := path[0];
      var e, c := s.inputs[i], p.inputs[i];
      var slot' := HasSlot(e, p.fired, c);
      FireWorks(e.child, c, slot', path[1..]);
      InputWorkUpdate(s, p, i, Fire(e.child, c, slot', path[1..]).value, |s.inputs|);
    }
  }

  lemma {:induction false} WorkBound(s: Stage, p: Progress)
    requires Shaped(s, p)
    ensures Work(s, p) >= s.total - p.fired
    decreases s, 1
  {
    InputWorkBound(s, p, |s.inputs|);
  }

  lemma {:induction false} InputWorkBound(s: Stage, p: Progress, n: nat)
    requires Shaped(s, p) && n <= |s.inputs|
    ensures InputWork(s, p, n) >= 0
    decreases s, 0, n
  {
    if n > 0 {
      InputWorkBound(s, p, n - 1);
      WorkBound(s.inputs[n - 1].child, p.inputs[n - 1]);
    }
  }

  function FireAll(s: Stage, p: Progress, paths: seq<seq<nat>>): Option<Progress>
    decreases |paths|
  {
    if paths == [] then Some(p)
    else match Fire(s, p, true, paths[0]) case None => None case Some(q) => FireAll(s, q, paths[1..])
  }

  /** With sufficient rings every run that cannot go on is complete, and every run ends. */
  lemma {:induction false} RunsComplete(s: Stage, p: Progress, paths: seq<seq<nat>>)
    requires Wired(s) && Sized(s) && Shaped(s, p) && FireAll(s, p, paths).Some?
    ensures |paths| <= Work(s, p)
    ensures var q := FireAll(s, p, paths).value;
            (forall path :: Fire(s, q, true, path).None?) ==> q.fired == s.total
    decreases |paths|
  {
    if paths == [] {
      WorkBound(s, p);
      if p.fired < s.total {
        var path := SomeStageRuns(s, p);
      }
    } else {
      FireWorks(s, p, true, paths[0]);
      RunsComplete(s, Fire(s, p, true, paths[0]).value, paths[1..]);
    }
  }

  // ----- too small a ring is fatal -----

  /** Nothing made yet. */
  function Start(s: Stage): Progress
    decreases s, 1
  {
    Progress(0, StartInputs(s, |s.inputs|))
  }

  function StartInputs(s: Stage, n: nat): (ps: seq<Progress>)
    requires n <= |s.inputs|
    ensures |ps| == n
    decreases s, 0, n
  {
    if n == 0 then [] else StartInputs(s, n - 1) + [Start(s.inputs[n - 1].child)]
  }

  /** What the ring of one input has allowed so far. */
  predicate Allowed(e: Edge, total: nat, fired: nat, child: Progress) {
    && child.fired <= Released(e, fired) + e.capacity
    && (forall k :: 0 <= k < fired && k < |e.need| && k < |e.keep| ==> e.need[k] <= e.keep[k] + e.capacity)
    && (fired == total ==> child.fired == e.child.total)
  }

  /** Holds of every state that can be reached. */
  predicate Earned(s: Stage, p: Progress) {
    && p.fired <= s.total && |p.inputs| == |s.inputs|
    && forall i :: 0 <= i < |s.inputs| ==>
         Allowed(s.inputs[i], s.total, p.fired, p.inputs[i]) && Earned(s.inputs[i].child, p.inputs[i])
  }

  lemma {:induction false} StartInputsAt(s: Stage, n: nat, i: nat)
    requires i < n <= |s.inputs|
    ensures StartInputs(s, n)[i] == Start(s.inputs[i].child)
    decreases n
  {
    if i < n - 1 {
      StartInputsAt(s, n - 1, i);
    }
  }

  lemma {:induction false} StartEarned(s: Stage)
    requires Wired(s)
    ensures Earned(s, Start(s)) && Shaped(s, Start(s))
    decreases s
  {
    forall i | 0 <= i < |s.inputs|
      ensures Allowed(s.inputs[i], s.total, 0, Start(s).inputs[i])
           && Earned(s.inputs[i].child, Start(s).inputs[i]) && Shaped(s.inputs[i].child, Start(s).inputs[i])
    {
      StartInputsAt(s, |s.inputs|, i);
      StartEarned(s.inputs[i].child);
    }
  }

  /** Giving rows back only ever frees slots. */
  lemma FiredAllowed(s: Stage, p: Progress, i: nat)
    requires Wired(s) && Earned(s, p) && Fed(s, p) && i < |s.inputs|
    ensures Allowed(s.inputs[i], s.total, p.fired + 1, p.inputs[i])
  {
    var e, c := s.inputs[i], p.inputs[i];
    assert Windows(e, s.total) && Allowed(e, s.total, p.fired, c) && Earned(e.child, c);
    assert e.need[p.fired] <= c.fired;
  }

  lemma {:induction false} FireEarns(s: Stage, p: Progress, slot: bool, path: seq<nat>)
    requires Wired(s) && Earned(s, p) && Fire(s, p, slot, path).Some?
    ensures var q := Fire(s, p, slot, path).value;
            Earned(s, q) && p.fired <= q.fired && (q.fired != p.fired ==> slot && q.fired == p.fired + 1)
    decreases |path|
  {
    var q := Fire(s, p, slot, path).value;
    if path == [] {
      forall i | 0 <= i < |s.inputs| ensures Allowed(s.inputs[i], s.total, q.fired, q.inputs[i]) {
        FiredAllowed(s, p, i);
      }
    } else {
      var i := path[0];
      var e, c := s.inputs[i], p.inputs[i];
      assert Wired(e.child) && Windows(e, s.total) && Allowed(e, s.total, p.fired, c) && Earned(e.child, c);
      FireEarns(e.child, c, HasSlot(e, p.fired, c), path[1..]);
      assert Earned(e.child, q.inputs[i]);
    }
  }

  lemma {:induction false} RunEarns(s: Stage, p: Progress, paths: seq<seq<nat>>)
    requires Wired(s) && Earned(s, p) && FireAll(s, p, paths).Some?
    ensures Earned(s, FireAll(s, p, paths).value)
    decreases |paths|
  {
    if paths != [] {
      FireEarns(s, p, true, paths[0]);
      RunEarns(s, Fire(s, p, true, paths[0]).value, paths[1..]);
    }
  }

  /** A complete image proves that every window fitted its ring. */
  lemma {:induction false} CompleteMeansSized(s: Stage, p: Progress)
    requires Wired(s) && Earned(s, p) && p.fired == s.total
    ensures Sized(s)
    decreases s
  {
    forall i | 0 <= i < |s.inputs| ensures Fits(s.inputs[i]) && Sized(s.inputs[i].child) {
      var e, c := s.inputs[i], p.inputs[i];
      assert Windows(e, s.total) && Allowed(e, s.total, p.fired, c) && Wired(e.child) && Earned(e.child, c);
      CompleteMeansSized(e.child, c);
    }
  }

  lemma {:induction false} CompleteRun(s: Stage, p: Progress) returns (paths: seq<seq<nat>>)
    requires Wired(s) && Sized(s) && Shaped(s, p)
    ensures FireAll(s, p, paths).Some? && FireAll(s, p, paths).value.fired == s.total
    decreases Work(s, p)
  {
    WorkBound(s, p);
    if p.fired == s.total {
      return [];
    }
    var path := SomeStageRuns(s, p);
    FireWorks(s, p, true, path);
    var q := Fire(s, p, true, path).value;
    WorkBound(s, q);
    var rest := CompleteRun(s, q);
    paths := [path] + rest;
    assert paths[1..] == rest;
  }

  ghost predicate Completes(s: Stage) {
    exists paths :: FireAll(s, Start(s), paths).Some? && FireAll(s, Start(s), paths).value.fired == s.total
  }

  /** The image can be completed if and only if every ring holds the largest window of its
      consumer; and then every schedule completes it (RunsComplete). */
  lemma CompletesIffSized(s: Stage)
    requires Wired(s)
    ensures Completes(s) <==> Sized(s)
  {
    StartEarned(s);
    if Sized(s) {
      var paths := CompleteRun(s, Start(s));
    }
    if Completes(s) {
      var paths :| FireAll(s, Start(s), paths).Some? && FireAll(s, Start(s), paths).value.fired == s.total;
      RunEarns(s, Start(s), paths);
      CompleteMeansSized(s, FireAll(s, Start(s), paths).value);
    }
  }
}
