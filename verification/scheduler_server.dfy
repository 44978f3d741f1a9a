/** The scheduler server: which requests it admits, what it records, and what a run of its scheduler
    delivers for an admitted request. */
module SchedulerServer {
  import opened Words
  import opened Field
  import opened Join
  import opened Claims
  import opened NodeParameters
  import opened Wrappers
  import opened Keygen
  import opened Scheduler
  import opened AsyncScheduler
  import opened Completeness

  const TWO_32: nat := 0x1_0000_0000

  /** The checks of `serve` and the request it starts; the number of claims is cast to u32. */
  function Admit(root: F, claims: seq<ClaimInput>, finalParams: NodeParams): (req: Result<Request, string>) {
    if claims == [] then Err("Zero claims!")
    else if |claims| > Pow2(finalParams.depth) then Err("Too many claims!")
    else Ok(Request(0, |claims| % TWO_32, root, claims, finalParams))
  }

  /** An admitted request is one the scheduler handles exactly when the cast loses nothing. */
  lemma AdmittedIsWellFormed(root: F, claims: seq<ClaimInput>, p: NodeParams)
    requires p.WellFormed() && p.depth <= MAX_DEPTH && Admit(root, claims, p).Ok?
    ensures Admit(root, claims, p).value.WellFormed() <==> |claims| < TWO_32
  {
  }

  /** Up to depth 31 every batch of 1 to 2^depth claims is admitted: the request is for all claims from
      index 0 under this root and the final circuit's parameters, and no index computed for it leaves
      u32. */
  lemma AdmittedFits(root: F, claims: seq<ClaimInput>, p: NodeParams)
    requires p.WellFormed() && p.depth <= 31
    ensures Admit(root, claims, p).Ok? <==> 1 <= |claims| <= Pow2(p.depth)
    ensures Admit(root, claims, p).Ok? ==>
      var req := Admit(root, claims, p).value;
      && req.start == 0 && req.end == |claims| && req.root == root && req.claims == claims && req.params == p
      && req.WellFormed() && IndicesBelow(req, 0x8000_0000)
  {
    hide IndicesBelow;
    Pow2Monotone(p.depth, 31);
    PowerOf31();
    if Admit(root, claims, p).Ok? {
      NoIndexOverflow(Admit(root, claims, p).value);
    }
  }

  /** Tasks finished for each request, in order. */
  class TaskTracker {
    var requestIdToTasks: map<string, seq<(string, NodeParams)>>

    constructor ()
      ensures requestIdToTasks == map[]
    {
      requestIdToTasks := map[];
    }

    function Tasks(requestId: string): seq<(string, NodeParams)>
      reads this
    {
      if requestId in requestIdToTasks then requestIdToTasks[requestId] else []
    }

    method RecordTask(requestId: string, taskId: string, params: NodeParams)
      modifies this
      ensures Tasks(requestId) == old(Tasks(requestId)) + [(taskId, params)]
      ensures forall id :: id != requestId ==> Tasks(id) == old(Tasks(id))
      ensures requestIdToTasks.Keys == old(requestIdToTasks.Keys) + {requestId}
    {
      if requestId !in requestIdToTasks {
        requestIdToTasks := requestIdToTasks[requestId := []];
      }
      requestIdToTasks := requestIdToTasks[requestId := requestIdToTasks[requestId] + [(taskId, params)]];
    }
  }

  /** From key generation to the final proof, whatever else the server is doing: once nothing can move, an
      admitted request of valid claims that was served and never failed from outside has ended with the
      final proof: round + 1 layers of EVM verification, rounds counting down to 0, around an accepted root
      tree over exactly these claims, root and range. With distinct circuit
      ids one task has been recorded for each node of its request tree. */
  lemma ServedRequestCompletes(circuits: Circuits, round: nat, depth: nat, initialDepth: nat, kAtDepth: seq<nat>,
                               cids: Cids, limit: nat, c: Crypto, vk: seq<F>, root: F, claims: seq<ClaimInput>,
                               events: seq<Event>, r: nat)
    requires initialDepth < depth <= 31
    requires |kAtDepth| >= |Chain(NodeParams(Evm(round), depth, initialDepth))|
    requires SortedListing(cids, ChainIds(circuits, NodeParams(Evm(round), depth, initialDepth), kAtDepth))
    requires 1 <= |claims| <= Pow2(depth) && |vk| == NUM_FE_VK && ValidBatch(c, vk, root, claims)
    ensures |cids| > 0
    ensures var cfg := Config(vk, RepoOf(cids), ParamsOf(cids), limit);
            var req := Admit(root, claims, cids[|cids| - 1].0);
            && req.Ok? && req.value.WellFormed() && req.value.claims == claims && req.value.root == root
            && req.value.params == NodeParams(Evm(round), depth, initialDepth)
            && (Finished(cfg, req.value, events, r) ==>
                  var x := Run(cfg, events).value[r];
                  && x.root.status.Done?
                  && (DistinctIds(cids) ==> multiset(x.tracker) == AllParams(req.value))
                  && EvmRounds(x.root.status.snark) == seq(round + 1, i => round - i)
                  && var t := RootTree(x.root.status.snark);
                     t.Some? && Realises(c, vk, req.value, t.value))
  {
    hide Realises, ChainIds, Chain, SortedListing, RepoOf, ParamsOf, IndicesBelow, Run, AllParams, ValidBatch,
      RootTree, Build, EvmRounds, Lookups, LookupsSucceed, DistinctIds, Stuck;
    var top := NodeParams(Evm(round), depth, initialDepth);
    KeygenAndSchedulerAgree(circuits, top, kAtDepth, cids);
    AdmittedFits(root, claims, top);
    var cfg := Config(vk, RepoOf(cids), ParamsOf(cids), limit);
    var req := Admit(root, claims, top).value;
    if Finished(cfg, req, events, r) {
      AsyncRefinesLocal(cfg, events, r);
      SchedulerComplete(c, vk, req);
      RoundsAsRequested(vk, req);
      assert EvmRounds(Build(vk, req)) == seq(round + 1, i => round - i);
    }
  }

  /** Request `r` of the run is this one, was never failed from outside, and nothing can move further. */
  ghost predicate Finished(cfg: Config, req: Request, events: seq<Event>, r: nat) {
    && Run(cfg, events).Some? && r < |Run(cfg, events).value|
    && Run(cfg, events).value[r].req == req
    && NeverFailed(events, r)
    && Stuck(cfg, Run(cfg, events).value)
  }
}
