/** Key generation along the chain of circuits, and the maps the scheduler builds from its result. */
module Keygen {
  import opened NodeParameters

  type CircuitId = string

  /** The repository of circuit ids that key generation fills. */
  class CidRepo {
    var ids: map<NodeParams, CircuitId>

    constructor ()
      ensures ids == map[]
    {
      ids := map[];
    }
  }

  /** The circuit id a level gets is fixed by its parameters and the degrees from it downwards. */
  type Circuits = (NodeParams, seq<nat>) -> CircuitId

  /** The entries of one chain. */
  function ChainIds(circuits: Circuits, p: NodeParams, kAtDepth: seq<nat>): (ids: map<NodeParams, CircuitId>)
    requires p.Sound() && |kAtDepth| >= |Chain(p)|
    ensures ids.Keys == set q | q in Chain(p)
    decreases p.Rank()
  {
    if p.Child().None? then map[p := circuits(p, kAtDepth)]
    else ChainIds(circuits, p.Child().value, kAtDepth[1..])[p := circuits(p, kAtDepth)]
  }

  predicate Agree(a: map<NodeParams, CircuitId>, b: map<NodeParams, CircuitId>) {
    forall p :: p in a && p in b ==> a[p] == b[p]
  }

  lemma NotBelowItself(p: NodeParams)
    requires p.Sound() && p.Child().Some?
    ensures p !in Chain(p.Child().value)
  {
    var below := Chain(p.Child().value);
    forall i | 0 <= i < |below|
      ensures below[i] != p
    {
      ChainDescends(p, i + 1);
      assert Chain(p)[i + 1] == below[i];
    }
  }

  /** The entries below `p`. */
  function BelowIds(circuits: Circuits, p: NodeParams, kAtDepth: seq<nat>): map<NodeParams, CircuitId>
    requires p.Sound() && |kAtDepth| >= |Chain(p)|
  {
    if p.Child().None? then map[] else ChainIds(circuits, p.Child().value, kAtDepth[1..])
  }

  /** The entries of `p` contradict earlier ones exactly when those below do, or its own does. */
  lemma ChainAgrees(circuits: Circuits, p: NodeParams, kAtDepth: seq<nat>, before: map<NodeParams, CircuitId>)
    requires p.Sound() && |kAtDepth| >= |Chain(p)|
    ensures var below, id := BelowIds(circuits, p, kAtDepth), circuits(p, kAtDepth);
            && p !in below
            && ChainIds(circuits, p, kAtDepth) == below[p := id]
            && (Agree(before, ChainIds(circuits, p, kAtDepth))
                <==> Agree(before, below) && (p in before ==> before[p] == id))
  {
    var below, id := BelowIds(circuits, p, kAtDepth), circuits(p, kAtDepth);
    if p.Child().Some? {
      NotBelowItself(p);
    }
    forall q | q in before && q in below
      ensures q in below[p := id] && below[p := id][q] == below[q]
    {
    }
    if Agree(before, below[p := id]) {
      assert p in below[p := id];
      assert forall q :: q in before && q in below ==> below[q] == below[p := id][q] == before[q];
    }
  }

  /** A run with enough degrees stopped at the lowest level whose entry contradicts an earlier one: that
      level and all below it have been written. */
  ghost predicate StoppedAt(circuits: Circuits, p: NodeParams, kAtDepth: seq<nat>, before: map<NodeParams, CircuitId>,
                            after: map<NodeParams, CircuitId>)
    requires p.Sound() && |kAtDepth| >= |Chain(p)|
    decreases p.Rank()
  {
    || (&& Agree(before, BelowIds(circuits, p, kAtDepth)) && p in before && before[p] != circuits(p, kAtDepth)
        && after == before + ChainIds(circuits, p, kAtDepth))
    || (p.Child().Some? && StoppedAt(circuits, p.Child().value, kAtDepth[1..], before, after))
  }

  /** Children first, then this level's entry. The run goes through exactly when there is a degree for
      every level and no earlier entry contradicts; it then adds the whole chain. The repository's
      documentation asks for exactly as many degrees as levels; the code accepts more. */
  method CreateAndSerializeProvingKey(circuits: Circuits, p: NodeParams, kAtDepth: seq<nat>, repo: CidRepo)
    returns (ok: bool)
    requires p.Sound()
    modifies repo
    ensures ok <==> |kAtDepth| >= |Chain(p)| && Agree(old(repo.ids), ChainIds(circuits, p, kAtDepth))
    ensures ok ==> repo.ids == old(repo.ids) + ChainIds(circuits, p, kAtDepth)
    ensures !ok ==> if |kAtDepth| < |Chain(p)| then repo.ids == old(repo.ids)
                    else StoppedAt(circuits, p, kAtDepth, old(repo.ids), repo.ids)
    decreases p.Rank()
  {
    hide ChainIds, Agree, NodeParams.Child, NodeParams.Rank;
    if kAtDepth == [] {
      return false;
    }
    ghost var before := repo.ids;
    if |kAtDepth| >= |Chain(p)| {
      ChainAgrees(circuits, p, kAtDepth, before);
    }
    if p.Child().Some? {
      ChildRanksBelow(p);
      ok := CreateAndSerializeProvingKey(circuits, p.Child().value, kAtDepth[1..], repo);
      if !ok {
        return;
      }
    } else {
      NothingBelow(before);
    }
    ghost var below := BelowIds(circuits, p, kAtDepth);
    assert repo.ids == before + below;
    var circuitId := circuits(p, kAtDepth);
    ok := p !in repo.ids || repo.ids[p] == circuitId;
    repo.ids := repo.ids[p := circuitId];
    assert ok ==> repo.ids == before + below[p := circuitId];
  }

  lemma ChildRanksBelow(p: NodeParams)
    requires p.Sound() && p.Child().Some?
    ensures p.Child().value.Rank() < p.Rank()
  {
  }

  lemma NothingBelow(before: map<NodeParams, CircuitId>)
    ensures Agree(before, map[])
  {
  }

  /** Level i of the chain gets the degrees from position i on. */
  lemma {:induction false} LevelGetsItsDegrees(circuits: Circuits, p: NodeParams, kAtDepth: seq<nat>, i: nat)
    requires p.Sound() && |kAtDepth| >= |Chain(p)| && i < |Chain(p)|
    ensures Chain(p)[i] in ChainIds(circuits, p, kAtDepth)
    ensures ChainIds(circuits, p, kAtDepth)[Chain(p)[i]] == circuits(Chain(p)[i], kAtDepth[i..])
    decreases i
  {
    assert kAtDepth[0..] == kAtDepth;
    if i > 0 {
      var child := p.Child().value;
      NotBelowItself(p);
      LevelGetsItsDegrees(circuits, child, kAtDepth[1..], i - 1);
      assert Chain(p)[i] == Chain(child)[i - 1] && Chain(child)[i - 1] in Chain(child);
      assert kAtDepth[1..][i - 1..] == kAtDepth[i..];
    }
  }

  /** From an empty repository: success needs only enough degrees, every level has its entry, and the
      starting parameters are the greatest key, so a sorted listing ends with the final circuit. */
  lemma KeygenCoversChain(circuits: Circuits, p: NodeParams, kAtDepth: seq<nat>)
    requires p.Sound() && |kAtDepth| >= |Chain(p)|
    ensures Agree(map[], ChainIds(circuits, p, kAtDepth))
    ensures forall i :: 0 <= i < |Chain(p)| ==> Chain(p)[i] in ChainIds(circuits, p, kAtDepth)
    ensures forall q :: q in ChainIds(circuits, p, kAtDepth) && q != p ==> Less(q, p)
    ensures |ChainIds(circuits, p, kAtDepth)| == |Chain(p)|
  {
    forall q | q in Chain(p) && q != p
      ensures Less(q, p)
    {
      var i :| 0 <= i < |Chain(p)| && Chain(p)[i] == q;
      ChainDescends(p, i);
    }
    ChainIdsSize(circuits, p, kAtDepth);
  }

  lemma {:induction false} ChainIdsSize(circuits: Circuits, p: NodeParams, kAtDepth: seq<nat>)
    requires p.Sound() && |kAtDepth| >= |Chain(p)|
    ensures |ChainIds(circuits, p, kAtDepth)| == |Chain(p)|
    decreases p.Rank()
  {
    if p.Child().Some? {
      NotBelowItself(p);
      ChainIdsSize(circuits, p.Child().value, kAtDepth[1..]);
      var below := ChainIds(circuits, p.Child().value, kAtDepth[1..]);
      assert ChainIds(circuits, p, kAtDepth).Keys == below.Keys + {p};
    }
  }

  // ---------- the scheduler server's maps ----------

  type Cids = seq<(NodeParams, CircuitId)>

  function RepoOf(cids: Cids): map<NodeParams, CircuitId> {
    if cids == [] then map[]
    else RepoOf(cids[..|cids| - 1])[cids[|cids| - 1].0 := cids[|cids| - 1].1]
  }

  function ParamsOf(cids: Cids): map<CircuitId, NodeParams> {
    if cids == [] then map[]
    else ParamsOf(cids[..|cids| - 1])[cids[|cids| - 1].1 := cids[|cids| - 1].0]
  }

  /** `cids` lists the entries of `ids` in the derived order, as the BTreeMap does. */
  ghost predicate SortedListing(cids: Cids, ids: map<NodeParams, CircuitId>) {
    && (forall i, j :: 0 <= i < j < |cids| ==> Less(cids[i].0, cids[j].0))
    && (forall i :: 0 <= i < |cids| ==> cids[i].0 in ids && ids[cids[i].0] == cids[i].1)
    && (forall p :: p in ids ==> exists i :: 0 <= i < |cids| && cids[i].0 == p)
  }

  /** One pass over the file's entries fills both maps; the last entry names the final circuit. */
  method LoadCids(cids: Cids)
    returns (repo: map<NodeParams, CircuitId>, cidToParams: map<CircuitId, NodeParams>, finalParams: NodeParams)
    requires |cids| > 0
    ensures repo == RepoOf(cids) && cidToParams == ParamsOf(cids) && finalParams == cids[|cids| - 1].0
  {
    finalParams := cids[|cids| - 1].0;
    repo, cidToParams := map[], map[];
    for i := 0 to |cids|
      invariant repo == RepoOf(cids[..i]) && cidToParams == ParamsOf(cids[..i])
    {
      assert cids[..i + 1][..i] == cids[..i];
      repo := repo[cids[i].0 := cids[i].1];
      cidToParams := cidToParams[cids[i].1 := cids[i].0];
    }
    assert cids[..|cids|] == cids;
  }

  lemma {:induction false} RepoEntries(cids: Cids)
    requires forall i, j :: 0 <= i < j < |cids| ==> cids[i].0 != cids[j].0
    ensures forall i :: 0 <= i < |cids| ==> cids[i].0 in RepoOf(cids) && RepoOf(cids)[cids[i].0] == cids[i].1
    ensures forall p :: p in RepoOf(cids) ==> exists i :: 0 <= i < |cids| && cids[i].0 == p
  {
    if cids != [] {
      var front := cids[..|cids| - 1];
      RepoEntries(front);
      forall p | p in RepoOf(cids)
        ensures exists i :: 0 <= i < |cids| && cids[i].0 == p
      {
        if p == cids[|cids| - 1].0 {
        } else {
          assert p in RepoOf(front);
          var i :| 0 <= i < |front| && front[i].0 == p;
          assert cids[i].0 == p;
        }
      }
    }
  }

  lemma {:induction false} ParamsEntries(cids: Cids)
    requires forall i, j :: 0 <= i < j < |cids| ==> cids[i].1 != cids[j].1
    ensures forall i :: 0 <= i < |cids| ==> cids[i].1 in ParamsOf(cids) && ParamsOf(cids)[cids[i].1] == cids[i].0
  {
    if cids != [] {
      ParamsEntries(cids[..|cids| - 1]);
    }
  }

  /** Every parameter set the scheduler can look up is in the repository, and its circuit id is found in
      the reverse direction. */
  ghost predicate LookupsSucceed(repo: map<NodeParams, CircuitId>, cidToParams: map<CircuitId, NodeParams>, top: NodeParams)
    requires top.Sound()
  {
    forall p :: p in Chain(top) ==> p in repo && repo[p] in cidToParams
  }

  /** The reverse lookup also gives the parameters back. */
  ghost predicate Lookups(repo: map<NodeParams, CircuitId>, cidToParams: map<CircuitId, NodeParams>, top: NodeParams)
    requires top.Sound()
  {
    forall p :: p in Chain(top) ==> p in repo && repo[p] in cidToParams && cidToParams[repo[p]] == p
  }

  /** The listing of a chain's entries ends with the parameters the chain starts from. */
  lemma LastIsTop(ids: map<NodeParams, CircuitId>, top: NodeParams, cids: Cids)
    requires SortedListing(cids, ids) && top in ids
    requires forall q :: q in ids && q != top ==> Less(q, top)
    ensures |cids| > 0 && cids[|cids| - 1].0 == top
  {
    var k :| 0 <= k < |cids| && cids[k].0 == top;
    var n := |cids| - 1;
    if k < n {
      assert Less(cids[k].0, cids[n].0) && cids[n].0 in ids;
    }
  }

  lemma {:induction false} ParamsCover(cids: Cids)
    ensures forall i :: 0 <= i < |cids| ==> cids[i].1 in ParamsOf(cids)
  {
    if cids != [] {
      ParamsCover(cids[..|cids| - 1]);
    }
  }

  ghost predicate DistinctIds(cids: Cids) {
    forall i, j :: 0 <= i < j < |cids| ==> cids[i].1 != cids[j].1
  }

  lemma ListedLookup(ids: map<NodeParams, CircuitId>, cids: Cids, p: NodeParams)
    requires SortedListing(cids, ids) && p in ids
    ensures p in RepoOf(cids) && RepoOf(cids)[p] in ParamsOf(cids) && RepoOf(cids)[p] == ids[p]
    ensures DistinctIds(cids) ==> ParamsOf(cids)[RepoOf(cids)[p]] == p
  {
    hide RepoOf, ParamsOf;
    ListedOnce(ids, cids);
    RepoEntries(cids);
    ParamsCover(cids);
    if DistinctIds(cids) {
      ParamsEntries(cids);
    }
    var i :| 0 <= i < |cids| && cids[i].0 == p;
  }

  lemma ListedOnce(ids: map<NodeParams, CircuitId>, cids: Cids)
    requires SortedListing(cids, ids)
    ensures forall i, j :: 0 <= i < j < |cids| ==> cids[i].0 != cids[j].0
  {
    forall i, j | 0 <= i < j < |cids|
      ensures cids[i].0 != cids[j].0
    {
      assert Less(cids[i].0, cids[j].0);
    }
  }

  /** Lookups that give every listed parameter set back need distinct ids. */
  lemma GivenBackMeansDistinct(ids: map<NodeParams, CircuitId>, cids: Cids)
    requires SortedListing(cids, ids)
    requires forall p :: p in ids ==>
      p in RepoOf(cids) && RepoOf(cids)[p] in ParamsOf(cids) && ParamsOf(cids)[RepoOf(cids)[p]] == p
    ensures DistinctIds(cids)
  {
    hide RepoOf, ParamsOf;
    ListedOnce(ids, cids);
    RepoEntries(cids);
    forall i, j | 0 <= i < j < |cids|
      ensures cids[i].1 != cids[j].1
    {
      assert cids[i].0 in ids && cids[j].0 in ids;
    }
  }

  /** Keygen and scheduler agree: the listing of a keygen run gives maps whose lookups succeed along the
      whole chain, and the final parameters are the ones key generation started from. The reverse lookup
      gives the same parameters back exactly when different levels have different circuit ids. */
  lemma KeygenAndSchedulerAgree(circuits: Circuits, top: NodeParams, kAtDepth: seq<nat>, cids: Cids)
    requires top.Sound() && |kAtDepth| >= |Chain(top)|
    requires SortedListing(cids, ChainIds(circuits, top, kAtDepth))
    ensures |cids| > 0 && cids[|cids| - 1].0 == top
    ensures LookupsSucceed(RepoOf(cids), ParamsOf(cids), top)
    ensures Lookups(RepoOf(cids), ParamsOf(cids), top) <==> DistinctIds(cids)
  {
    hide ChainIds, Chain, SortedListing, RepoOf, ParamsOf, DistinctIds;
    var ids := ChainIds(circuits, top, kAtDepth);
    KeygenCoversChain(circuits, top, kAtDepth);
    assert Chain(top)[0] == top;
    LastIsTop(ids, top, cids);
    forall p | p in Chain(top)
      ensures p in RepoOf(cids) && RepoOf(cids)[p] in ParamsOf(cids)
      ensures DistinctIds(cids) ==> ParamsOf(cids)[RepoOf(cids)[p]] == p
    {
      ListedLookup(ids, cids, p);
    }
    if Lookups(RepoOf(cids), ParamsOf(cids), top) {
      GivenBackMeansDistinct(ids, cids);
    }
  }
}
