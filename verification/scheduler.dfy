/** Requests, their dependencies, and the local scheduler that builds a snark for each. */
module Scheduler {
  import opened Words
  import opened Field
  import opened Join
  import opened Claims
  import opened NodeParameters
  import opened Wrappers

  type U32 = x: int | 0 <= x < 0x1_0000_0000

  datatype Request = Request(start: U32, end: U32, root: F, claims: seq<ClaimInput>, params: NodeParams) {
    function NumProofs(): int {
      end - start
    }

    /** The checks of `RecursiveRequest::new`. */
    predicate NewAccepts() {
      && end > start
      && end - start <= Pow2(params.depth)
      && params.depth >= params.initialDepth
    }

    /** A request as the scheduler receives and makes them: a claim for every index of its range, and
        parameters that have leaves, and only leaves, at the initial depth. */
    predicate WellFormed() {
      && NewAccepts()
      && |claims| == end - start
      && params.WellFormed() && params.depth <= MAX_DEPTH
    }
  }

  // ---------- dependency splitting ----------

  /** The dependencies from index `i` on: steps of the child's capacity, the last one cut at the end. */
  function DependenciesFrom(req: Request, child: NodeParams, i: nat): (deps: seq<Request>)
    requires |req.claims| == req.end - req.start && req.start <= i
    decreases req.end - i
  {
    if i >= req.end then []
    else
      var step := Pow2(child.depth);
      var end := if req.end < i + step then req.end else i + step;
      [Request(i, end, req.root, req.claims[i - req.start..end - req.start], child)]
      + DependenciesFrom(req, child, i + step)
  }

  function Dependencies(req: Request): seq<Request>
    requires req.WellFormed()
  {
    if req.params.depth == req.params.initialDepth then []
    else
      ChildIsWellFormed(req.params);
      DependenciesFrom(req, req.params.Child().value, req.start)
  }

  function Slice(req: Request, i: U32, j: U32, params: NodeParams): Request
    requires |req.claims| == req.end - req.start && req.start <= i <= j <= req.end
  {
    Request(i, j, req.root, req.claims[i - req.start..j - req.start], params)
  }

  /** The dependencies are one request for the whole range, or a full left half and the rest; both
      satisfy what `new` checks, they are consecutive and their claims are the request's claims. */
  lemma DependenciesPartition(req: Request)
    requires req.WellFormed() && !req.params.nodeType.Leaf?
    ensures req.params.Sound()
    ensures var child, deps := req.params.Child().value, Dependencies(req);
            var capacity := Pow2(child.depth);
            && child.WellFormed() && child.Rank() < req.params.Rank()
            && (if req.NumProofs() <= capacity
                then deps == [Request(req.start, req.end, req.root, req.claims, child)]
                else
                  && req.params.depth == child.depth + 1 && !req.params.nodeType.Evm?
                  && deps == [Slice(req, req.start, req.start + capacity, child),
                              Slice(req, req.start + capacity, req.end, child)]
                  && deps[0].claims + deps[1].claims == req.claims)
            && (forall i :: 0 <= i < |deps| ==> deps[i].WellFormed() && deps[i].params == child)
            && 1 <= |deps| <= 2
  {
    hide DependenciesFrom, Pow2;
    ChildIsWellFormed(req.params);
    var child := req.params.Child().value;
    if req.NumProofs() <= Pow2(child.depth) {
      OneDependency(req, child);
    } else {
      Pow2Doubles(child.depth);
      TwoDependencies(req, child);
    }
  }

  lemma OneDependency(req: Request, child: NodeParams)
    requires |req.claims| == req.end - req.start && 0 < req.end - req.start <= Pow2(child.depth)
    ensures DependenciesFrom(req, child, req.start) == [Request(req.start, req.end, req.root, req.claims, child)]
  {
    hide Pow2;
    assert DependenciesFrom(req, child, req.start + Pow2(child.depth)) == [];
    assert req.claims[0..req.end - req.start] == req.claims;
  }

  lemma TwoDependencies(req: Request, child: NodeParams)
    requires |req.claims| == req.end - req.start
    requires Pow2(child.depth) < req.end - req.start <= 2 * Pow2(child.depth)
    ensures var middle := req.start + Pow2(child.depth);
            var left, right := Slice(req, req.start, middle, child), Slice(req, middle, req.end, child);
            DependenciesFrom(req, child, req.start) == [left, right] && left.claims + right.claims == req.claims
  {
    hide Pow2;
    var capacity := Pow2(child.depth);
    var middle := req.start + capacity;
    assert DependenciesFrom(req, child, middle + capacity) == [];
    assert DependenciesFrom(req, child, middle) == [Slice(req, middle, req.end, child)];
    assert req.claims[..capacity] + req.claims[capacity..] == req.claims;
  }

  /** Every index the recursion computes, the uncut step ends included, stays below this bound. */
  predicate IndicesBelow(req: Request, bound: nat)
    requires req.WellFormed()
    decreases req.params.Rank()
  {
    && req.end <= bound
    && (!req.params.nodeType.Leaf? ==>
          (DependenciesPartition(req);
           var deps := Dependencies(req);
           forall i :: 0 <= i < |deps| ==>
             deps[i].start + Pow2(deps[i].params.depth) <= bound && IndicesBelow(deps[i], bound)))
  }

  lemma {:induction false} IndicesStayBelow(req: Request, bound: nat)
    requires req.WellFormed() && req.start + Pow2(req.params.depth) <= bound
    ensures IndicesBelow(req, bound)
    decreases req.params.Rank()
  {
    if !req.params.nodeType.Leaf? {
      DependenciesPartition(req);
      var deps := Dependencies(req);
      forall i | 0 <= i < |deps|
        ensures deps[i].start + Pow2(deps[i].params.depth) <= bound && IndicesBelow(deps[i], bound)
      {
        IndicesStayBelow(deps[i], bound);
      }
    }
  }

  /** From start 0 and depth at most 31, no index anywhere in the recursion leaves u32. */
  lemma NoIndexOverflow(req: Request)
    requires req.WellFormed() && req.start == 0 && req.params.depth <= 31
    ensures IndicesBelow(req, 0x8000_0000)
  {
    Pow2Monotone(req.params.depth, 31);
    assert Pow2(31) == 0x8000_0000 by { PowerOf31(); }
    IndicesStayBelow(req, 0x8000_0000);
  }

  lemma PowerOf31()
    ensures Pow2(31) == 0x8000_0000
  {
    Pow2OfBytes(3);
    assert Pow256(3) == 0x100_0000;
    assert Pow2(24) == 0x100_0000;
    assert Pow2(27) == 0x800_0000;
    assert Pow2(31) == 0x8000_0000;
  }

  // ---------- tasks and snarks ----------

  datatype Snark =
    | TreeSnark(tree: Tree)
    | RootSnark(tree: Tree)
    | EvmSnark(inner: Snark, round: nat)
  {
    /** The aggregation tree of a snark that is not wrapped. */
    function Tree(): Option<Tree> {
      if EvmSnark? then None else Some(tree)
    }
  }

  datatype Task =
    | LeafTask(start: U32, end: U32, depth: nat, root: F, claims: seq<ClaimInput>)
    | IntermediateTask(start: U32, end: U32, snarks: seq<Snark>, depth: nat, initialDepth: nat)
    | RootTask(start: U32, end: U32, snarks: seq<Snark>, depth: nat, initialDepth: nat)
    | EvmTask(start: U32, end: U32, snark: Snark, depth: nat, initialDepth: nat, round: nat)

  /** A missing right child is replaced by a clone of the left one. */
  function PadWithDummy(snarks: seq<Snark>): (padded: seq<Snark>)
    requires 1 <= |snarks| <= 2
    ensures |padded| == 2 && padded[0] == snarks[0] && padded[1] == snarks[|snarks| - 1]
  {
    if |snarks| != 2 then snarks + [snarks[0]] else snarks
  }

  /** The part of `handle_recursive_request` after the dependencies are resolved; failed assertions and
      unreachable branches are errors. */
  function MakeTask(req: Request, snarks: seq<Snark>): Result<Task, string> {
    var p := req.params;
    if p.depth == p.initialDepth then
      if req.NumProofs() > Pow2(p.depth) then Err("too many proofs")
      else Ok(LeafTask(req.start, req.end, p.depth, req.root, req.claims))
    else if snarks == [] then Err("no snarks")
    else match p.nodeType
      case Leaf => Err("unreachable")
      case Intermediate =>
        if |snarks| > 2 then Err("more than 2 snarks")
        else Ok(IntermediateTask(req.start, req.end, PadWithDummy(snarks), p.depth, p.initialDepth))
      case Root =>
        if |snarks| > 2 then Err("more than 2 snarks")
        else Ok(RootTask(req.start, req.end, PadWithDummy(snarks), p.depth, p.initialDepth))
      case Evm(round) =>
        if |snarks| != 1 then Err("not 1 snark")
        else Ok(EvmTask(req.start, req.end, snarks[0], p.depth, p.initialDepth, round))
  }

  /** For any request and snarks, exactly when a task is made. */
  lemma TaskMadeIff(req: Request, snarks: seq<Snark>)
    ensures MakeTask(req, snarks).Ok? <==>
      if req.params.depth == req.params.initialDepth then req.end - req.start <= Pow2(req.params.depth)
      else match req.params.nodeType
           case Leaf => false
           case Intermediate => 1 <= |snarks| <= 2
           case Root => 1 <= |snarks| <= 2
           case Evm(_) => |snarks| == 1
  {
  }

  /** Padding of a leaf's claims with copies of the first. */
  function PadClaims(claims: seq<ClaimInput>, n: nat): (padded: seq<ClaimInput>)
    requires 0 < |claims| <= n
    ensures |padded| == n && padded[..|claims|] == claims
    ensures forall i :: 0 <= i < n ==> padded[i] == if i < |claims| then claims[i] else claims[0]
  {
    claims + seq(n - |claims|, i => claims[0])
  }

  /** Whether both snarks are trees of the right kind: leaves just above the initial depth,
      intermediate circuits further up. */
  predicate Aggregable(snarks: seq<Snark>, depth: nat, initialDepth: nat) {
    && |snarks| == 2 && snarks[0].TreeSnark? && snarks[1].TreeSnark?
    && (depth == initialDepth + 1 ==> snarks[0].tree.Leaf? && snarks[1].tree.Leaf?)
    && (depth > initialDepth + 1 ==> snarks[0].tree.Node? && snarks[1].tree.Node?)
  }

  /** The prover: builds the circuit's witness from the task's input. */
  function Prove(vk: seq<F>, task: Task): Result<Snark, string> {
    match task
    case LeafTask(start, end, depth, root, claims) =>
      if end <= start || end - start > Pow2(depth) then Err("invalid range")
      else if |claims| != end - start then Err("claims do not match range")
      else Ok(TreeSnark(Tree.Leaf(LeafInput(start as F, end as F, root, vk, PadClaims(claims, Pow2(depth))))))
    case IntermediateTask(start, end, snarks, depth, initialDepth) =>
      if end <= start || end - start > Pow2(depth) || depth <= initialDepth then Err("invalid range")
      else if !Aggregable(snarks, depth, initialDepth) then Err("wrong snarks")
      else Ok(TreeSnark(Tree.Node(snarks[0].tree, snarks[1].tree, (end - start) as F)))
    case RootTask(start, end, snarks, depth, initialDepth) =>
      if end <= start || end - start > Pow2(depth) || depth <= initialDepth then Err("invalid range")
      else if !Aggregable(snarks, depth, initialDepth) then Err("wrong snarks")
      else Ok(RootSnark(Tree.Node(snarks[0].tree, snarks[1].tree, (end - start) as F)))
    case EvmTask(start, end, snark, depth, initialDepth, round) =>
      if snark.TreeSnark? then Err("wrong snark") else Ok(EvmSnark(snark, round))
  }

  /** The kind of snark a node type yields. */
  predicate KindFits(params: NodeParams, snark: Snark) {
    match params.nodeType
    case Leaf => snark.TreeSnark? && snark.tree.Leaf?
    case Intermediate => snark.TreeSnark? && snark.tree.Node?
    case Root => snark.RootSnark? && snark.tree.Node?
    case Evm(round) => snark.EvmSnark?
  }

  /** With fitting dependencies, making and proving a task cannot fail. */
  lemma TaskSucceeds(vk: seq<F>, req: Request, snarks: seq<Snark>)
    requires req.WellFormed()
    requires |snarks| == |Dependencies(req)|
    requires forall i :: 0 <= i < |snarks| ==> KindFits(Dependencies(req)[i].params, snarks[i])
    ensures MakeTask(req, snarks).Ok?
    ensures Prove(vk, MakeTask(req, snarks).value).Ok?
    ensures KindFits(req.params, Prove(vk, MakeTask(req, snarks).value).value)
  {
    if !req.params.nodeType.Leaf? {
      DependenciesPartition(req);
      hide Request.WellFormed, Dependencies;
      var child := req.params.Child().value;
      assert KindFits(child, snarks[0]) && (|snarks| == 2 ==> KindFits(child, snarks[1]));
    }
  }

  /** The snark a request stands for: dependencies first, in order, then the task made from them. */
  function Build(vk: seq<F>, req: Request): (snark: Snark)
    requires req.WellFormed()
    ensures KindFits(req.params, snark)
    decreases req.params.Rank(), 0
  {
    if req.params.nodeType.Leaf? then
      TaskSucceeds(vk, req, []);
      Prove(vk, MakeTask(req, []).value).value
    else
      DependenciesPartition(req);
      var snarks := BuildAll(vk, Dependencies(req), req.params.Child().value);
      TaskSucceeds(vk, req, snarks);
      Prove(vk, MakeTask(req, snarks).value).value
  }

  function BuildAll(vk: seq<F>, reqs: seq<Request>, params: NodeParams): (snarks: seq<Snark>)
    requires params.Sound()
    requires forall i :: 0 <= i < |reqs| ==> reqs[i].WellFormed() && reqs[i].params == params
    ensures |snarks| == |reqs|
    ensures forall i :: 0 <= i < |reqs| ==> snarks[i] == Build(vk, reqs[i])
    decreases params.Rank(), 1, |reqs|
  {
    if reqs == [] then [] else [Build(vk, reqs[0])] + BuildAll(vk, reqs[1..], params)
  }

  // ---------- the local scheduler ----------

  datatype ProverProof = EvmProof(snark: Snark) | SnarkProof(snark: Snark)

  class LocalScheduler {
    const circuitIdRepo: map<NodeParams, string>
    const vk: seq<F>

    constructor (circuitIdRepo: map<NodeParams, string>, vk: seq<F>)
      ensures this.circuitIdRepo == circuitIdRepo && this.vk == vk
    {
      this.circuitIdRepo, this.vk := circuitIdRepo, vk;
    }

    ghost predicate Covers(p: NodeParams)
      requires p.Sound()
    {
      forall q :: q in Chain(p) ==> q in circuitIdRepo
    }

    /** Routing by the kind of proof asked for; only EVM tasks can be proven for the EVM. */
    method GenerateProof(task: Task, isEvmProof: bool) returns (proof: Result<ProverProof, string>)
      ensures proof == (if isEvmProof && !task.EvmTask? then Err("unreachable")
                        else if Prove(vk, task).Err? then Err(Prove(vk, task).error)
                        else if isEvmProof then Ok(EvmProof(Prove(vk, task).value))
                        else Ok(SnarkProof(Prove(vk, task).value)))
    {
      if isEvmProof && !task.EvmTask? {
        return Err("unreachable");
      }
      var snark := Prove(vk, task);
      if snark.Err? {
        return Err(snark.error);
      }
      return Ok(if isEvmProof then EvmProof(snark.value) else SnarkProof(snark.value));
    }

    /** One dependency after the other. */
    method GetSnarksForDeps(req: Request) returns (snarks: Result<seq<Snark>, string>)
      requires req.WellFormed()
      ensures snarks.Ok? <==> req.params.nodeType.Leaf? || Covers(req.params.Child().value)
      ensures snarks.Ok? ==> |snarks.value| == |Dependencies(req)|
      ensures snarks.Ok? ==> forall i :: 0 <= i < |snarks.value| ==>
        Dependencies(req)[i].WellFormed() && snarks.value[i] == Build(vk, Dependencies(req)[i])
      decreases req.params.Rank(), 0
    {
      var deps := Dependencies(req);
      var collected: seq<Snark> := [];
      if req.params.nodeType.Leaf? {
        return Ok(collected);
      }
      DependenciesPartition(req);
      hide Build, Request.WellFormed, Dependencies;
      for i := 0 to |deps|
        invariant |collected| == i
        invariant i > 0 ==> Covers(req.params.Child().value)
        invariant forall j :: 0 <= j < i ==> collected[j] == Build(vk, deps[j])
      {
        var proof := RecursiveGenProof(deps[i], false);
        if proof.Err? {
          return Err(proof.error);
        }
        collected := collected + [proof.value.snark];
      }
      return Ok(collected);
    }

    /** Dependencies, circuit id, proof. It succeeds exactly when every level has a circuit, and then
        yields the snark the request stands for. */
    method RecursiveGenProof(req: Request, isEvmProof: bool) returns (proof: Result<ProverProof, string>)
      requires req.WellFormed()
      requires isEvmProof ==> req.params.nodeType.Evm?
      ensures proof.Ok? <==> Covers(req.params)
      ensures proof.Ok? ==>
        proof.value == if isEvmProof then EvmProof(Build(vk, req)) else SnarkProof(Build(vk, req))
      decreases req.params.Rank(), 1
    {
      assert Chain(req.params)[0] == req.params;
      var snarks := GetSnarksForDeps(req);
      CoversStep(req.params);
      if snarks.Err? {
        return Err(snarks.error);
      }
      BuildIsProve(vk, req, snarks.value);
      var task := MakeTask(req, snarks.value);
      if req.params !in circuitIdRepo {
        return Err("circuit id not found");
      }
      proof := GenerateProof(task.value, isEvmProof);
    }

    lemma CoversStep(p: NodeParams)
      requires p.Sound()
      ensures Covers(p) <==> p in circuitIdRepo && (p.Child().Some? ==> Covers(p.Child().value))
    {
      assert Chain(p)[0] == p;
      if p.Child().Some? {
        var below := Chain(p.Child().value);
        assert Chain(p) == [p] + below;
        assert forall q :: q in below ==> q in Chain(p);
      }
    }
  }

  /** Proving the task made from the dependencies' snarks gives the request's snark. */
  lemma BuildIsProve(vk: seq<F>, req: Request, snarks: seq<Snark>)
    requires req.WellFormed()
    requires |snarks| == |Dependencies(req)|
    requires forall i :: 0 <= i < |snarks| ==>
      Dependencies(req)[i].WellFormed() && snarks[i] == Build(vk, Dependencies(req)[i])
    ensures MakeTask(req, snarks).Ok? && Prove(vk, MakeTask(req, snarks).value) == Ok(Build(vk, req))
    ensures req.params.nodeType.Evm? ==> MakeTask(req, snarks).value.EvmTask?
  {
    if req.params.nodeType.Leaf? {
      assert snarks == [];
      TaskSucceeds(vk, req, []);
    } else {
      DependenciesPartition(req);
      assert snarks == BuildAll(vk, Dependencies(req), req.params.Child().value);
      TaskSucceeds(vk, req, snarks);
    }
  }
}
