/** The asynchronous scheduler as a step relation over the trees of all requests it serves: every
    interleaving of arrivals, resolving dependencies, taking a permit, proving, and fetching. */
module AsyncScheduler {
  import opened Field
  import opened NodeParameters
  import opened Wrappers
  import opened Keygen
  import opened Scheduler

  /** Where a request's future stands. A permit is held exactly while `Running`. */
  datatype Status =
    | Waiting
    | WantPermit
    | Running
    | Fetching
    | Done(snark: Snark)
    | Failed
  {
    predicate Terminal() {
      Done? || Failed?
    }

    /** Steps left at most. */
    function Distance(): nat {
      match this
      case Waiting => 4
      case WantPermit => 3
      case Running => 2
      case Fetching => 1
      case _ => 0
    }

    function Permits(): nat {
      if Running? then 1 else 0
    }
  }

  /** A request's future with the futures of its dependencies, in order. */
  datatype Exec = Exec(req: Request, status: Status, deps: seq<Exec>)

  /** `limit` is the semaphore's size; 0 means there is no semaphore. */
  datatype Config = Config(vk: seq<F>, circuitIdRepo: map<NodeParams, string>,
                           cidToParams: map<string, NodeParams>, limit: nat)

  /** A request being served, and the tasks recorded for it. All requests share one semaphore. */
  datatype Served = Served(req: Request, root: Exec, tracker: seq<NodeParams>)

  /** `ok` is the outside world's answer: DONE or FAILED from the dispatcher, a snark or an error. */
  datatype Action = Resolve | Acquire | Finish(ok: bool) | Fetch(ok: bool)

  // ---------- steps ----------

  predicate AllTerminal(deps: seq<Exec>) {
    forall i :: 0 <= i < |deps| ==> deps[i].status.Terminal()
  }

  predicate AllDone(deps: seq<Exec>) {
    forall i :: 0 <= i < |deps| ==> deps[i].status.Done?
  }

  /** The dependencies' snarks, in dependency order. */
  function SnarksOf(deps: seq<Exec>): (snarks: seq<Snark>)
    requires AllDone(deps)
    ensures |snarks| == |deps| && forall i :: 0 <= i < |deps| ==> snarks[i] == deps[i].status.snark
  {
    seq(|deps|, i requires 0 <= i < |deps| => deps[i].status.snark)
  }

  /** Both lookups of a finished task: its circuit id, and the parameters recorded for that id. */
  predicate LooksUp(cfg: Config, p: NodeParams) {
    p in cfg.circuitIdRepo && cfg.circuitIdRepo[p] in cfg.cidToParams
  }

  /** The status after all dependencies have answered: an error among them, an impossible task or an
      unknown circuit fails the request. */
  function Resolved(cfg: Config, t: Exec): Status {
    if AllDone(t.deps) && MakeTask(t.req, SnarksOf(t.deps)).Ok? && t.req.params in cfg.circuitIdRepo
    then WantPermit else Failed
  }

  /** The status after the snark was asked for. */
  function Fetched(cfg: Config, t: Exec, ok: bool): Status {
    if !ok || !AllDone(t.deps) || !LooksUp(cfg, t.req.params) then Failed
    else
      var task := MakeTask(t.req, SnarksOf(t.deps));
      if task.Err? || Prove(cfg.vk, task.value).Err? then Failed else Done(Prove(cfg.vk, task.value).value)
  }

  /** One step of one request's own future; `free` says a permit is available. */
  function NodeStep(cfg: Config, free: bool, t: Exec, a: Action): Option<Status> {
    match (t.status, a)
    case (Waiting, Resolve) => if AllTerminal(t.deps) then Some(Resolved(cfg, t)) else None
    case (WantPermit, Acquire) => if free then Some(Running) else None
    case (Running, Finish(ok)) => Some(if ok then Fetching else Failed)
    case (Fetching, Fetch(ok)) => Some(Fetched(cfg, t, ok))
    case _ => None
  }

  predicate ValidPath(t: Exec, path: seq<nat>) {
    path == [] || (path[0] < |t.deps| && ValidPath(t.deps[path[0]], path[1..]))
  }

  function NodeAt(t: Exec, path: seq<nat>): Exec
    requires ValidPath(t, path)
  {
    if path == [] then t else NodeAt(t.deps[path[0]], path[1..])
  }

  function WithStatus(t: Exec, path: seq<nat>, status: Status): Exec
    requires ValidPath(t, path)
  {
    if path == [] then t.(status := status)
    else t.(deps := t.deps[path[0] := WithStatus(t.deps[path[0]], path[1..], status)])
  }

  predicate PermitFree(cfg: Config, s: seq<Served>) {
    cfg.limit == 0 || SumOf(PERMITS, s) < cfg.limit
  }

  /** What is recorded when a future of request `x` gets a status: a fetched snark's task. */
  function Moved(cfg: Config, x: Served, path: seq<nat>, status: Status): Served
    requires ValidPath(x.root, path)
  {
    var params := NodeAt(x.root, path).req.params;
    var recorded := if status.Done? && LooksUp(cfg, params) then [cfg.cidToParams[cfg.circuitIdRepo[params]]] else [];
    Served(x.req, WithStatus(x.root, path, status), x.tracker + recorded)
  }

  /** A request arrives, or some future of a request moves. */
  datatype Event = Serve(req: Request) | Move(request: nat, path: seq<nat>, action: Action)

  /** The next status of the future that an event moves. */
  function NextStatus(cfg: Config, s: seq<Served>, e: Event): Option<Status>
    requires e.Move?
  {
    if e.request < |s| && ValidPath(s[e.request].root, e.path)
    then NodeStep(cfg, PermitFree(cfg, s), NodeAt(s[e.request].root, e.path), e.action)
    else None
  }

  function Step(cfg: Config, s: seq<Served>, e: Event): Option<seq<Served>> {
    match e
    case Serve(req) => if req.WellFormed() then Some(s + [Served(req, Init(req), [])]) else None
    case Move(r, path, _) =>
      match NextStatus(cfg, s, e)
      case None => None
      case Some(status) => Some(s[r := Moved(cfg, s[r], path, status)])
  }

  // ---------- sums over the tree ----------

  /** The sum of a weight over all statuses. */
  function Weight(w: Status -> nat, t: Exec): nat {
    w(t.status) + WeightAll(w, t.deps)
  }

  function WeightAll(w: Status -> nat, ts: seq<Exec>): nat {
    if ts == [] then 0 else Weight(w, ts[0]) + WeightAll(w, ts[1..])
  }

  const PERMITS: Status -> nat := (st: Status) => st.Permits()
  const DISTANCE: Status -> nat := (st: Status) => st.Distance()

  function RunningCount(t: Exec): nat {
    Weight(PERMITS, t)
  }

  /** Bounds the number of steps left. */
  function Measure(t: Exec): nat {
    Weight(DISTANCE, t)
  }

  /** The sum of a weight over all requests. */
  function SumOf(w: Status -> nat, s: seq<Served>): nat {
    if s == [] then 0 else SumOf(w, s[..|s| - 1]) + Weight(w, s[|s| - 1].root)
  }

  lemma {:induction false} SumOfUpdate(w: Status -> nat, s: seq<Served>, r: nat, x: Served)
    requires r < |s|
    ensures SumOf(w, s[r := x]) == SumOf(w, s) - Weight(w, s[r].root) + Weight(w, x.root)
  {
    hide Weight;
    var n := |s| - 1;
    if r == n {
      assert s[n := x][..n] == s[..n];
    } else {
      SumOfUpdate(w, s[..n], r, x);
      assert s[r := x][..n] == s[..n][r := x];
    }
  }

  lemma {:induction false} WeightAllOfUpdate(w: Status -> nat, ts: seq<Exec>, i: nat, t: Exec)
    requires i < |ts|
    ensures WeightAll(w, ts[i := t]) == WeightAll(w, ts) - Weight(w, ts[i]) + Weight(w, t)
  {
    hide Weight;
    if i == 0 {
      assert ts[0 := t][1..] == ts[1..];
    } else {
      WeightAllOfUpdate(w, ts[1..], i - 1, t);
      assert ts[i := t][1..] == ts[1..][i - 1 := t];
    }
  }

  /** Changing one status changes the sum by that much. */
  lemma {:induction false} WeightOfUpdate(w: Status -> nat, t: Exec, path: seq<nat>, status: Status)
    requires ValidPath(t, path)
    ensures Weight(w, WithStatus(t, path, status)) == Weight(w, t) - w(NodeAt(t, path).status) + w(status)
    decreases |path|
  {
    if path != [] {
      var child := t.deps[path[0]];
      WeightOfUpdate(w, child, path[1..], status);
      WeightAllOfUpdate(w, t.deps, path[0], WithStatus(child, path[1..], status));
    }
  }

  // ---------- the invariant ----------

  /** The tree has the shape of the request tree; a future that has left `Waiting` has only answered
      dependencies, one that has been made a task only successful ones and a circuit id; a finished one
      has been looked up both ways and holds the snark the sequential scheduler would build. */
  ghost predicate Inv(cfg: Config, t: Exec, req: Request)
    decreases t
  {
    && req.WellFormed() && t.req == req
    && |t.deps| == |Dependencies(req)|
    && (forall i :: 0 <= i < |t.deps| ==> Inv(cfg, t.deps[i], Dependencies(req)[i]))
    && (!t.status.Waiting? ==> AllTerminal(t.deps))
    && (!t.status.Waiting? && !t.status.Failed? ==> AllDone(t.deps))
    && (t.status.WantPermit? || t.status.Running? || t.status.Fetching? ==> req.params in cfg.circuitIdRepo)
    && (t.status.Done? ==> t.status.snark == Build(cfg.vk, req) && LooksUp(cfg, req.params))
  }

  /** The request's own step keeps the invariant. */
  lemma NodeStepKeepsInv(cfg: Config, free: bool, t: Exec, req: Request, a: Action)
    requires Inv(cfg, t, req) && NodeStep(cfg, free, t, a).Some?
    ensures Inv(cfg, t.(status := NodeStep(cfg, free, t, a).value), req)
  {
    hide Build, Prove, MakeTask, Dependencies, Request.WellFormed;
    if NodeStep(cfg, free, t, a).value.Done? {
      forall i | 0 <= i < |t.deps|
        ensures Dependencies(req)[i].WellFormed() && t.deps[i].status.snark == Build(cfg.vk, Dependencies(req)[i])
      {
        assert Inv(cfg, t.deps[i], Dependencies(req)[i]);
      }
      BuildIsProve(cfg.vk, req, SnarksOf(t.deps));
    }
  }

  /** Every step anywhere in the tree keeps the invariant: a dependency only moves while its parent is
      still waiting for it. */
  lemma {:induction false} StepKeepsInv(cfg: Config, free: bool, t: Exec, req: Request, path: seq<nat>, a: Action)
    requires Inv(cfg, t, req) && ValidPath(t, path) && NodeStep(cfg, free, NodeAt(t, path), a).Some?
    ensures Inv(cfg, WithStatus(t, path, NodeStep(cfg, free, NodeAt(t, path), a).value), req)
    ensures !t.status.Terminal()
    decreases |path|
  {
    if path == [] {
      NodeStepKeepsInv(cfg, free, t, req, a);
    } else {
      hide NodeStep, Build, Dependencies, Request.WellFormed;
      var i := path[0];
      assert Inv(cfg, t.deps[i], Dependencies(req)[i]);
      StepKeepsInv(cfg, free, t.deps[i], Dependencies(req)[i], path[1..], a);
    }
  }

  // ---------- progress ----------

  /** Every move shortens the way that is left. */
  lemma MoveShortens(cfg: Config, s: seq<Served>, e: Event)
    requires e.Move? && Step(cfg, s, e).Some?
    ensures SumOf(DISTANCE, Step(cfg, s, e).value) < SumOf(DISTANCE, s)
  {
    hide Resolved, Fetched, Weight, LooksUp;
    var x := s[e.request];
    var node := NodeAt(x.root, e.path);
    var status := NextStatus(cfg, s, e).value;
    WeightOfUpdate(DISTANCE, x.root, e.path, status);
    SumOfUpdate(DISTANCE, s, e.request, Moved(cfg, x, e.path, status));
    ResolvedOrFailed(cfg, node);
    assert status.Distance() < node.status.Distance();
  }

  lemma ResolvedOrFailed(cfg: Config, t: Exec)
    ensures Resolved(cfg, t) in {WantPermit, Failed}
    ensures forall ok :: Fetched(cfg, t, ok).Terminal()
  {
  }

  /** An unfinished tree has a future that can move, given a permit if that is what it waits for. */
  lemma {:induction false} SomeFutureCanMove(cfg: Config, t: Exec) returns (path: seq<nat>, a: Action)
    requires !t.status.Terminal()
    ensures ValidPath(t, path) && NodeStep(cfg, true, NodeAt(t, path), a).Some?
  {
    path := [];
    match t.status
    case Waiting =>
      if AllTerminal(t.deps) {
        a := Resolve;
      } else {
        var i :| 0 <= i < |t.deps| && !t.deps[i].status.Terminal();
        var rest;
        rest, a := SomeFutureCanMove(cfg, t.deps[i]);
        path := [i] + rest;
        assert path[1..] == rest;
      }
    case WantPermit => a := Acquire;
    case Running => a := Finish(true);
    case Fetching => a := Fetch(true);
  }

  /** A taken permit is held by a running future. */
  lemma {:induction false} SomeFutureRuns(t: Exec) returns (path: seq<nat>)
    requires RunningCount(t) > 0
    ensures ValidPath(t, path) && NodeAt(t, path).status.Running?
  {
    path := [];
    if !t.status.Running? {
      var i := SomeDependencyRuns(t.deps, 0);
      var rest := SomeFutureRuns(t.deps[i]);
      path := [i] + rest;
      assert path[1..] == rest;
    }
  }

  lemma {:induction false} SomeDependencyRuns(ts: seq<Exec>, from: nat) returns (i: nat)
    requires from <= |ts| && WeightAll(PERMITS, ts[from..]) > 0
    ensures i < |ts| && RunningCount(ts[i]) > 0
    decreases |ts| - from
  {
    if RunningCount(ts[from]) > 0 {
      i := from;
    } else {
      assert ts[from..][1..] == ts[from + 1..];
      i := SomeDependencyRuns(ts, from + 1);
    }
  }

  lemma {:induction false} SomeRequestRuns(s: seq<Served>) returns (r: nat)
    requires SumOf(PERMITS, s) > 0
    ensures r < |s| && RunningCount(s[r].root) > 0
  {
    var n := |s| - 1;
    if RunningCount(s[n].root) > 0 {
      r := n;
    } else {
      r := SomeRequestRuns(s[..n]);
    }
  }

  /** Deadlock freedom: while any request is unfinished some move is enabled, whatever the limit and
      whoever holds the permits. */
  lemma NoDeadlock(cfg: Config, s: seq<Served>, r: nat) returns (e: Event)
    requires r < |s| && !s[r].root.status.Terminal()
    ensures e.Move? && Step(cfg, s, e).Some?
  {
    hide Weight;
    var path, a := SomeFutureCanMove(cfg, s[r].root);
    e := Move(r, path, a);
    if !PermitFree(cfg, s) && a == Acquire {
      var other := SomeRequestRuns(s);
      path := SomeFutureRuns(s[other].root);
      e := Move(other, path, Finish(true));
    }
  }

  // ---------- the tracker ----------

  /** The parameters of all finished futures. */
  ghost function DoneParams(t: Exec): multiset<NodeParams> {
    (if t.status.Done? then multiset{t.req.params} else multiset{}) + DoneParamsAll(t.deps)
  }

  ghost function DoneParamsAll(ts: seq<Exec>): multiset<NodeParams> {
    if ts == [] then multiset{} else DoneParams(ts[0]) + DoneParamsAll(ts[1..])
  }

  /** The parameters of all nodes of the request tree. */
  ghost function AllParams(req: Request): multiset<NodeParams>
    requires req.WellFormed()
    decreases req.params.Rank(), 0
  {
    multiset{req.params} +
    if req.params.nodeType.Leaf? then multiset{}
    else
      DependenciesPartition(req);
      AllParamsAll(Dependencies(req), req.params.Child().value)
  }

  ghost function AllParamsAll(reqs: seq<Request>, p: NodeParams): multiset<NodeParams>
    requires p.Sound()
    requires forall i :: 0 <= i < |reqs| ==> reqs[i].WellFormed() && reqs[i].params == p
    decreases p.Rank(), 1, |reqs|
  {
    if reqs == [] then multiset{} else AllParams(reqs[0]) + AllParamsAll(reqs[1..], p)
  }

  lemma {:induction false} DoneParamsAllOfUpdate(ts: seq<Exec>, i: nat, t: Exec, more: multiset<NodeParams>)
    requires i < |ts| && DoneParams(t) == DoneParams(ts[i]) + more
    ensures DoneParamsAll(ts[i := t]) == DoneParamsAll(ts) + more
  {
    hide DoneParams;
    if i == 0 {
      assert ts[0 := t][1..] == ts[1..];
    } else {
      DoneParamsAllOfUpdate(ts[1..], i - 1, t, more);
      assert ts[i := t][1..] == ts[1..][i - 1 := t];
    }
  }

  /** A status change of an unfinished future adds its parameters exactly when it finishes. */
  lemma {:induction false} DoneParamsOfUpdate(t: Exec, path: seq<nat>, status: Status)
    requires ValidPath(t, path) && !NodeAt(t, path).status.Done?
    ensures DoneParams(WithStatus(t, path, status))
         == DoneParams(t) + (if status.Done? then multiset{NodeAt(t, path).req.params} else multiset{})
    decreases |path|
  {
    if path != [] {
      var child := t.deps[path[0]];
      DoneParamsOfUpdate(child, path[1..], status);
      DoneParamsAllOfUpdate(t.deps, path[0], WithStatus(child, path[1..], status),
                            if status.Done? then multiset{NodeAt(t, path).req.params} else multiset{});
    }
  }

  /** Below a finished future everything is finished. */
  lemma {:induction false} DoneMeansAllDone(cfg: Config, t: Exec, req: Request)
    requires Inv(cfg, t, req) && t.status.Done?
    ensures DoneParams(t) == AllParams(req)
    decreases req.params.Rank(), 0
  {
    if req.params.nodeType.Leaf? {
      assert t.deps == [];
    } else {
      DependenciesPartition(req);
      DoneMeansAllDoneBelow(cfg, t.deps, Dependencies(req), req.params.Child().value);
    }
  }

  lemma {:induction false} DoneMeansAllDoneBelow(cfg: Config, ts: seq<Exec>, reqs: seq<Request>, p: NodeParams)
    requires p.Sound() && |ts| == |reqs|
    requires forall i :: 0 <= i < |reqs| ==> reqs[i].WellFormed() && reqs[i].params == p
    requires forall i :: 0 <= i < |ts| ==> Inv(cfg, ts[i], reqs[i]) && ts[i].status.Done?
    ensures DoneParamsAll(ts) == AllParamsAll(reqs, p)
    decreases p.Rank(), 1, |reqs|
  {
    hide Inv, DoneParams, AllParams, Request.WellFormed;
    if reqs != [] {
      DoneMeansAllDone(cfg, ts[0], reqs[0]);
      DoneMeansAllDoneBelow(cfg, ts[1..], reqs[1..], p);
    }
  }

  // ---------- lookups ----------

  /** Both lookups succeed for all parameters from `p` down. */
  ghost predicate Covered(cfg: Config, p: NodeParams)
    requires p.Sound()
  {
    LookupsSucceed(cfg.circuitIdRepo, cfg.cidToParams, p)
  }

  /** They also give the parameters back. */
  ghost predicate Faithful(cfg: Config, p: NodeParams)
    requires p.Sound()
  {
    Lookups(cfg.circuitIdRepo, cfg.cidToParams, p)
  }

  lemma FaithfulStep(cfg: Config, p: NodeParams)
    requires p.Sound() && Faithful(cfg, p)
    ensures LooksUp(cfg, p) && cfg.cidToParams[cfg.circuitIdRepo[p]] == p
    ensures p.Child().Some? ==> Faithful(cfg, p.Child().value)
  {
    assert Chain(p)[0] == p;
    if p.Child().Some? {
      assert Chain(p) == [p] + Chain(p.Child().value);
    }
  }

  lemma CoveredStep(cfg: Config, p: NodeParams)
    requires p.Sound() && Covered(cfg, p)
    ensures LooksUp(cfg, p)
    ensures p.Child().Some? ==> Covered(cfg, p.Child().value)
  {
    assert Chain(p)[0] == p;
    if p.Child().Some? {
      assert Chain(p) == [p] + Chain(p.Child().value);
    }
  }

  /** Every future of the tree is looked up faithfully. */
  lemma {:induction false} FaithfulAt(cfg: Config, t: Exec, req: Request, path: seq<nat>)
    requires Inv(cfg, t, req) && req.params.Sound() && Faithful(cfg, req.params) && ValidPath(t, path)
    ensures NodeAt(t, path).req.params.Sound() && Faithful(cfg, NodeAt(t, path).req.params)
    decreases |path|
  {
    if path != [] {
      var i := path[0];
      assert !req.params.nodeType.Leaf?;
      DependenciesPartition(req);
      FaithfulStep(cfg, req.params);
      FaithfulAt(cfg, t.deps[i], Dependencies(req)[i], path[1..]);
    }
  }

  // ---------- failures ----------

  predicate NoneFailed(t: Exec) {
    !t.status.Failed? && forall i :: 0 <= i < |t.deps| ==> NoneFailed(t.deps[i])
  }

  predicate Succeeds(a: Action) {
    (a.Finish? || a.Fetch?) ==> a.ok
  }

  /** A request fails only when the outside world failed it or a lookup is missing. */
  lemma NodeStepSucceeds(cfg: Config, free: bool, t: Exec, req: Request, a: Action)
    requires Inv(cfg, t, req) && LooksUp(cfg, req.params) && NoneFailed(t) && Succeeds(a)
    requires NodeStep(cfg, free, t, a).Some?
    ensures !NodeStep(cfg, free, t, a).value.Failed?
  {
    hide Build, Prove, MakeTask, Dependencies, Request.WellFormed;
    if a.Resolve? || a.Fetch? {
      assert AllDone(t.deps);
      forall i | 0 <= i < |t.deps|
        ensures Dependencies(req)[i].WellFormed() && t.deps[i].status.snark == Build(cfg.vk, Dependencies(req)[i])
      {
        assert Inv(cfg, t.deps[i], Dependencies(req)[i]);
      }
      BuildIsProve(cfg.vk, req, SnarksOf(t.deps));
    }
  }

  lemma {:induction false} StepKeepsNoneFailed(cfg: Config, free: bool, t: Exec, req: Request, path: seq<nat>, a: Action)
    requires Inv(cfg, t, req) && req.params.Sound() && Covered(cfg, req.params)
    requires NoneFailed(t) && Succeeds(a)
    requires ValidPath(t, path) && NodeStep(cfg, free, NodeAt(t, path), a).Some?
    ensures NoneFailed(WithStatus(t, path, NodeStep(cfg, free, NodeAt(t, path), a).value))
    decreases |path|
  {
    CoveredStep(cfg, req.params);
    if path == [] {
      NodeStepSucceeds(cfg, free, t, req, a);
    } else {
      var i := path[0];
      assert !req.params.nodeType.Leaf?;
      DependenciesPartition(req);
      StepKeepsNoneFailed(cfg, free, t.deps[i], Dependencies(req)[i], path[1..], a);
    }
  }

  // ---------- outside failures ----------

  /** Where a status was changed it is the new one, and everywhere else the old one. */
  lemma {:induction false} StatusAfterChange(t: Exec, changed: seq<nat>, status: Status, path: seq<nat>)
    requires ValidPath(t, changed) && ValidPath(t, path)
    ensures ValidPath(WithStatus(t, changed, status), path)
    ensures NodeAt(WithStatus(t, changed, status), path).status
         == if path == changed then status else NodeAt(t, path).status
    decreases |path|
  {
    if path != [] && changed != [] && path[0] == changed[0] {
      StatusAfterChange(t.deps[path[0]], changed[1..], status, path[1..]);
      assert path == [path[0]] + path[1..] && changed == [changed[0]] + changed[1..];
    }
  }

  /** A request with a failed future anywhere below it is not done. */
  lemma {:induction false} FailedBelow(cfg: Config, t: Exec, req: Request, path: seq<nat>)
    requires Inv(cfg, t, req) && ValidPath(t, path) && NodeAt(t, path).status.Failed?
    ensures !t.status.Done?
    decreases |path|
  {
    if path != [] {
      var i := path[0];
      assert Inv(cfg, t.deps[i], Dependencies(req)[i]);
      FailedBelow(cfg, t.deps[i], Dependencies(req)[i], path[1..]);
    }
  }

  /** A done request has found every circuit below it. */
  lemma {:induction false} DoneMeansCovered(cfg: Config, t: Exec, req: Request)
    requires Inv(cfg, t, req) && req.params.Sound() && t.status.Done?
    ensures Covered(cfg, req.params)
    decreases req.params.Rank()
  {
    if req.params.nodeType.Leaf? {
      assert Chain(req.params) == [req.params];
    } else {
      DependenciesPartition(req);
      var child := req.params.Child().value;
      assert Inv(cfg, t.deps[0], Dependencies(req)[0]);
      DoneMeansCovered(cfg, t.deps[0], Dependencies(req)[0]);
      assert Chain(req.params) == [req.params] + Chain(child);
    }
  }

  /** The dispatcher answers FAILED, or its snark cannot be fetched. */
  predicate FailsOutside(e: Event) {
    e.Move? && (e.action == Finish(false) || e.action == Fetch(false))
  }

  /** A move that fails from outside leaves its future failed and records nothing. */
  lemma OutsideFailureFails(cfg: Config, s: seq<Served>, e: Event)
    requires FailsOutside(e) && Step(cfg, s, e).Some?
    ensures e.request < |s| && ValidPath(s[e.request].root, e.path)
    ensures var s' := Step(cfg, s, e).value;
            && |s'| == |s| && s'[e.request].tracker == s[e.request].tracker
            && ValidPath(s'[e.request].root, e.path)
            && NodeAt(s'[e.request].root, e.path).status.Failed?
  {
    hide Weight, PermitFree;
    StatusAfterChange(s[e.request].root, e.path, Failed, e.path);
  }

  /** In every later state of the run that future is still failed. */
  lemma {:induction false} FailureIsFinal(cfg: Config, events: seq<Event>, i: nat)
    requires Run(cfg, events).Some? && i < |events| && FailsOutside(events[i])
    ensures var s, e := Run(cfg, events).value, events[i];
            && e.request < |s| && ValidPath(s[e.request].root, e.path)
            && NodeAt(s[e.request].root, e.path).status.Failed?
  {
    hide Weight, PermitFree, Init, LooksUp;
    var before, last := events[..|events| - 1], events[|events| - 1];
    var s, e := Run(cfg, before).value, events[i];
    if i == |events| - 1 {
      OutsideFailureFails(cfg, s, e);
    } else {
      FailureIsFinal(cfg, before, i);
      if last.Move? && last.request == e.request {
        StatusAfterChange(s[e.request].root, last.path, NextStatus(cfg, s, last).value, e.path);
        assert last.path != e.path;
      }
    }
  }

  /** A permit is granted exactly when one is asked for and fewer than the limit are held. */
  lemma AcquireEnabledIff(cfg: Config, s: seq<Served>, r: nat, path: seq<nat>)
    requires r < |s| && ValidPath(s[r].root, path)
    ensures Step(cfg, s, Move(r, path, Acquire)).Some?
       <==> NodeAt(s[r].root, path).status.WantPermit? && (cfg.limit == 0 || SumOf(PERMITS, s) < cfg.limit)
    ensures Step(cfg, s, Move(r, path, Acquire)).Some? ==>
      var s' := Step(cfg, s, Move(r, path, Acquire)).value;
      ValidPath(s'[r].root, path) && NodeAt(s'[r].root, path).status.Running?
  {
    hide SumOf;
    StatusAfterChange(s[r].root, path, Running, path);
  }

  // ---------- runs ----------

  function Init(req: Request): Exec
    requires req.WellFormed()
    decreases req.params.Rank(), 0
  {
    if req.params.nodeType.Leaf? then Exec(req, Waiting, [])
    else
      DependenciesPartition(req);
      Exec(req, Waiting, InitAll(Dependencies(req), req.params.Child().value))
  }

  function InitAll(reqs: seq<Request>, p: NodeParams): (ts: seq<Exec>)
    requires p.Sound()
    requires forall i :: 0 <= i < |reqs| ==> reqs[i].WellFormed() && reqs[i].params == p
    ensures |ts| == |reqs| && forall i :: 0 <= i < |ts| ==> ts[i] == Init(reqs[i])
    decreases p.Rank(), 1, |reqs|
  {
    if reqs == [] then [] else [Init(reqs[0])] + InitAll(reqs[1..], p)
  }

  /** The state after a sequence of events, if each was enabled when it happened. */
  function Run(cfg: Config, events: seq<Event>): Option<seq<Served>> {
    if events == [] then Some([])
    else
      match Run(cfg, events[..|events| - 1])
      case None => None
      case Some(s) => Step(cfg, s, events[|events| - 1])
  }

  lemma {:induction false} InitFacts(cfg: Config, req: Request)
    requires req.WellFormed()
    ensures Inv(cfg, Init(req), req) && NoneFailed(Init(req))
    ensures RunningCount(Init(req)) == 0 && DoneParams(Init(req)) == multiset{}
    decreases req.params.Rank(), 0
  {
    if req.params.nodeType.Leaf? {
      assert Dependencies(req) == [];
      assert WeightAll(PERMITS, Init(req).deps) == 0;
    } else {
      DependenciesPartition(req);
      InitFactsAll(cfg, Dependencies(req), req.params.Child().value);
    }
    assert PERMITS(Waiting) == 0;
  }

  lemma {:induction false} InitFactsAll(cfg: Config, reqs: seq<Request>, p: NodeParams)
    requires p.Sound()
    requires forall i :: 0 <= i < |reqs| ==> reqs[i].WellFormed() && reqs[i].params == p
    ensures var ts := InitAll(reqs, p);
            && (forall i :: 0 <= i < |ts| ==> Inv(cfg, ts[i], reqs[i]) && NoneFailed(ts[i]))
            && WeightAll(PERMITS, ts) == 0 && DoneParamsAll(ts) == multiset{}
    decreases p.Rank(), 1, |reqs|
  {
    hide Inv, Init, DoneParams, NoneFailed, Request.WellFormed;
    if reqs != [] {
      InitFacts(cfg, reqs[0]);
      InitFactsAll(cfg, reqs[1..], p);
    }
  }

  /** What every request of a reachable state satisfies. */
  ghost predicate Reached(cfg: Config, x: Served) {
    && Inv(cfg, x.root, x.req)
    && (Faithful(cfg, x.req.params) ==> multiset(x.tracker) == DoneParams(x.root))
  }

  lemma MoveKeepsReached(cfg: Config, free: bool, x: Served, path: seq<nat>, a: Action)
    requires Reached(cfg, x) && ValidPath(x.root, path) && NodeStep(cfg, free, NodeAt(x.root, path), a).Some?
    ensures Reached(cfg, Moved(cfg, x, path, NodeStep(cfg, free, NodeAt(x.root, path), a).value))
  {
    hide Inv, DoneParams, Resolved, Fetched, LooksUp, Lookups;
    InvIsWellFormed(cfg, x.root, x.req);
    var node := NodeAt(x.root, path);
    var status := NodeStep(cfg, free, node, a).value;
    StepKeepsInv(cfg, free, x.root, x.req, path, a);
    DoneParamsOfUpdate(x.root, path, status);
    ResolvedOrFailed(cfg, node);
    if Faithful(cfg, x.req.params) {
      FaithfulAt(cfg, x.root, x.req, path);
      FaithfulStep(cfg, node.req.params);
    }
  }

  lemma InvIsWellFormed(cfg: Config, t: Exec, req: Request)
    requires Inv(cfg, t, req)
    ensures req.WellFormed() && req.params.Sound()
  {
  }

  lemma PermitsStayWithin(cfg: Config, s: seq<Served>, e: Event)
    requires cfg.limit > 0 && SumOf(PERMITS, s) <= cfg.limit && Step(cfg, s, e).Some?
    ensures SumOf(PERMITS, Step(cfg, s, e).value) <= cfg.limit
  {
    hide Weight, Resolved, Fetched, LooksUp, Init;
    match e
    case Serve(req) =>
      InitFacts(cfg, req);
      assert (s + [Served(req, Init(req), [])])[..|s|] == s;
    case Move(r, path, a) =>
      var status := NextStatus(cfg, s, e).value;
      WeightOfUpdate(PERMITS, s[r].root, path, status);
      SumOfUpdate(PERMITS, s, r, Moved(cfg, s[r], path, status));
      ResolvedOrFailed(cfg, NodeAt(s[r].root, path));
  }

  /** Over every interleaving of arrivals and moves: permits never exceed the limit, the invariant holds
      for every request, and its tracker lists exactly its finished nodes. */
  lemma {:induction false} RunInvariant(cfg: Config, events: seq<Event>)
    requires Run(cfg, events).Some?
    ensures var s := Run(cfg, events).value;
            && (forall st: Status :: PERMITS(st) == if st.Running? then 1 else 0)
            && (cfg.limit > 0 ==> SumOf(PERMITS, s) <= cfg.limit)
            && forall r :: 0 <= r < |s| ==> Reached(cfg, s[r])
  {
    hide Reached, NodeStep, Moved, Init, PermitFree, SumOf;
    if events == [] {
      assert SumOf(PERMITS, []) == 0 by { NothingRuns(); }
    } else {
      var before, e := events[..|events| - 1], events[|events| - 1];
      RunInvariant(cfg, before);
      var s := Run(cfg, before).value;
      if cfg.limit > 0 {
        PermitsStayWithin(cfg, s, e);
      }
      match e
      case Serve(req) => InitReached(cfg, req);
      case Move(r, path, a) => MoveKeepsReached(cfg, PermitFree(cfg, s), s[r], path, a);
    }
  }

  lemma NothingRuns()
    ensures SumOf(PERMITS, []) == 0
  {
  }

  lemma InitReached(cfg: Config, req: Request)
    requires req.WellFormed()
    ensures Reached(cfg, Served(req, Init(req), []))
  {
    hide Init, Inv, DoneParams, Lookups;
    InitFacts(cfg, req);
  }

  /** A future of a request: the request's number and the path to the future in its tree. */
  type Position = (nat, seq<nat>)

  predicate RunningAt(s: seq<Served>, p: Position) {
    p.0 < |s| && ValidPath(s[p.0].root, p.1) && NodeAt(s[p.0].root, p.1).status.Running?
  }

  lemma {:induction false} RunningAtMost(s: seq<Served>, running: set<Position>)
    requires forall p :: p in running ==> RunningAt(s, p)
    ensures |running| <= SumOf(PERMITS, s)
    decreases |running|
  {
    hide SumOf, Weight, NodeAt, ValidPath;
    if running != {} {
      var p :| p in running;
      assert RunningAt(s, p);
      var stopped := s[p.0].(root := WithStatus(s[p.0].root, p.1, Failed));
      var s' := s[p.0 := stopped];
      WeightOfUpdate(PERMITS, s[p.0].root, p.1, Failed);
      SumOfUpdate(PERMITS, s, p.0, stopped);
      forall q | q in running - {p}
        ensures RunningAt(s', q)
      {
        assert RunningAt(s, q);
        if q.0 == p.0 {
          StatusAfterChange(s[p.0].root, p.1, Failed, q.1);
        }
      }
      RunningAtMost(s', running - {p});
    }
  }

  /** Never more futures run at once, over all requests, than the semaphore has permits. */
  lemma ConcurrencyIsLimited(cfg: Config, events: seq<Event>, running: set<Position>)
    requires Run(cfg, events).Some? && cfg.limit > 0
    requires forall p :: p in running ==> RunningAt(Run(cfg, events).value, p)
    ensures |running| <= cfg.limit
  {
    hide Run, RunningAt;
    RunInvariant(cfg, events);
    RunningAtMost(Run(cfg, events).value, running);
  }

  lemma {:induction false} InvAt(cfg: Config, t: Exec, req: Request, path: seq<nat>)
    requires Inv(cfg, t, req) && ValidPath(t, path)
    ensures Inv(cfg, NodeAt(t, path), NodeAt(t, path).req)
    decreases |path|
  {
    if path != [] {
      var i := path[0];
      assert Inv(cfg, t.deps[i], Dependencies(req)[i]);
      InvAt(cfg, t.deps[i], Dependencies(req)[i], path[1..]);
    }
  }

  /** A future asks for a permit, runs or fetches only after every dependency, in order, has delivered the
      snark the local scheduler builds for it, and only with a circuit id. */
  lemma StartedFuturesAreReady(cfg: Config, events: seq<Event>, r: nat, path: seq<nat>)
    requires Run(cfg, events).Some? && r < |Run(cfg, events).value|
    requires ValidPath(Run(cfg, events).value[r].root, path)
    ensures var t := NodeAt(Run(cfg, events).value[r].root, path);
            (t.status.WantPermit? || t.status.Running? || t.status.Fetching?) ==>
              && t.req.WellFormed() && t.req.params in cfg.circuitIdRepo
              && |t.deps| == |Dependencies(t.req)|
              && forall i :: 0 <= i < |t.deps| ==>
                   && t.deps[i].status.Done? && Dependencies(t.req)[i].WellFormed()
                   && t.deps[i].status.snark == Build(cfg.vk, Dependencies(t.req)[i])
  {
    hide Run, Build, Dependencies, Request.WellFormed, Init;
    RunInvariant(cfg, events);
    var x := Run(cfg, events).value[r];
    ReachedInv(cfg, x);
    InvAt(cfg, x.root, x.req, path);
    var t := NodeAt(x.root, path);
    if t.status.WantPermit? || t.status.Running? || t.status.Fetching? {
      forall i | 0 <= i < |t.deps|
        ensures t.deps[i].status.Done? && Dependencies(t.req)[i].WellFormed()
        ensures t.deps[i].status.snark == Build(cfg.vk, Dependencies(t.req)[i])
      {
        assert Inv(cfg, t.deps[i], Dependencies(t.req)[i]);
      }
    }
  }

  /** The number of moves among the events. */
  function Moves(events: seq<Event>): nat {
    if events == [] then 0
    else Moves(events[..|events| - 1]) + if events[|events| - 1].Move? then 1 else 0
  }

  /** The steps that the requests among the events can take at most. */
  function Work(events: seq<Event>): nat {
    if events == [] then 0
    else
      var e := events[|events| - 1];
      Work(events[..|events| - 1]) + if e.Serve? && e.req.WellFormed() then Measure(Init(e.req)) else 0
  }

  /** No run makes more moves than its requests have work, so every run that keeps moving ends. */
  lemma {:induction false} RunsAreBounded(cfg: Config, events: seq<Event>)
    requires Run(cfg, events).Some?
    ensures Moves(events) + SumOf(DISTANCE, Run(cfg, events).value) <= Work(events)
  {
    hide Init, Weight, NextStatus, Moved;
    if events != [] {
      var before, e := events[..|events| - 1], events[|events| - 1];
      RunsAreBounded(cfg, before);
      var s := Run(cfg, before).value;
      if e.Move? {
        MoveShortens(cfg, s, e);
      } else {
        assert (s + [Served(e.req, Init(e.req), [])])[..|s|] == s;
      }
    }
  }

  /** The outside world never failed request `r`; what it did to others does not matter. */
  predicate NeverFailed(events: seq<Event>, r: nat) {
    forall i :: 0 <= i < |events| && events[i].Move? && events[i].request == r ==> Succeeds(events[i].action)
  }

  lemma {:induction false} SuccessfulRun(cfg: Config, events: seq<Event>, r: nat)
    requires Run(cfg, events).Some? && r < |Run(cfg, events).value|
    requires Run(cfg, events).value[r].req.params.Sound() && Covered(cfg, Run(cfg, events).value[r].req.params)
    requires NeverFailed(events, r)
    ensures NoneFailed(Run(cfg, events).value[r].root)
  {
    hide Inv, Init, NoneFailed, NodeStep, Reached, PermitFree, LookupsSucceed;
    var before, e := events[..|events| - 1], events[|events| - 1];
    var s := Run(cfg, before).value;
    RunInvariant(cfg, before);
    if r < |s| {
      assert NeverFailed(before, r);
      SuccessfulRun(cfg, before, r);
      if e.Move? && e.request == r {
        ReachedInv(cfg, s[r]);
        StepKeepsNoneFailed(cfg, PermitFree(cfg, s), s[r].root, s[r].req, e.path, e.action);
      }
    } else {
      InitFacts(cfg, e.req);
    }
  }

  lemma ReachedInv(cfg: Config, x: Served)
    requires Reached(cfg, x)
    ensures Inv(cfg, x.root, x.req) && x.req.WellFormed() && x.req.params.Sound()
  {
  }

  /** No future of any request can move. */
  ghost predicate Stuck(cfg: Config, s: seq<Served>) {
    forall e: Event :: e.Move? ==> Step(cfg, s, e).None?
  }

  /** A request that some event failed from outside has a failed future. */
  lemma FailedFromOutside(cfg: Config, events: seq<Event>, r: nat)
    requires Run(cfg, events).Some? && r < |Run(cfg, events).value| && !NeverFailed(events, r)
    ensures !Run(cfg, events).value[r].root.status.Done?
  {
    hide Inv, Run, NodeStep;
    var i :| 0 <= i < |events| && events[i].Move? && events[i].request == r && !Succeeds(events[i].action);
    FailureIsFinal(cfg, events, i);
    RunInvariant(cfg, events);
    var x := Run(cfg, events).value[r];
    ReachedInv(cfg, x);
    FailedBelow(cfg, x.root, x.req, events[i].path);
  }

  /** The asynchronous scheduler refines the local one. When nothing can move any further every request
      has finished: it is done exactly when all its lookups succeed and nothing failed it from outside, and
      failed otherwise. A done request has the snark the local scheduler builds and, if lookups give
      parameters back, each node of its request tree recorded once. */
  lemma AsyncRefinesLocal(cfg: Config, events: seq<Event>, r: nat)
    requires Run(cfg, events).Some? && r < |Run(cfg, events).value|
    requires Stuck(cfg, Run(cfg, events).value)
    ensures var x := Run(cfg, events).value[r];
            && x.req.WellFormed() && x.req.params.Sound()
            && (x.root.status.Done? || x.root.status.Failed?)
            && (x.root.status.Done? <==> Covered(cfg, x.req.params) && NeverFailed(events, r))
            && (x.root.status.Done? ==> x.root.status.snark == Build(cfg.vk, x.req))
            && (x.root.status.Done? && Faithful(cfg, x.req.params) ==> multiset(x.tracker) == AllParams(x.req))
  {
    hide Step, Init, Run, LookupsSucceed, Lookups, Build, NeverFailed, LooksUp;
    var s := Run(cfg, events).value;
    RunInvariant(cfg, events);
    var x := s[r];
    ReachedInv(cfg, x);
    if !x.root.status.Terminal() {
      var e := NoDeadlock(cfg, s, r);
      assert false;
    }
    if x.root.status.Done? {
      DoneMeansAllDone(cfg, x.root, x.req);
      DoneMeansCovered(cfg, x.root, x.req);
      if !NeverFailed(events, r) {
        FailedFromOutside(cfg, events, r);
        assert false;
      }
    }
    if Covered(cfg, x.req.params) && NeverFailed(events, r) {
      SuccessfulRun(cfg, events, r);
    }
  }
}
