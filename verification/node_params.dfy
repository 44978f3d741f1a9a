/** Circuit parameters of the aggregation tree, their child relation and their derived order. */
module NodeParameters {
  import opened Wrappers

  datatype NodeType = Leaf | Intermediate | Root | Evm(round: nat)

  datatype NodeParams = NodeParams(nodeType: NodeType, depth: nat, initialDepth: nat) {
    /** The assertions of `new` and `child`. */
    predicate Sound() {
      && depth >= initialDepth
      && (nodeType.Intermediate? || nodeType.Root? ==> depth > initialDepth)
    }

    /** The parameters the scheduler handles: leaves, and only leaves, sit at the initial depth. */
    predicate WellFormed() {
      depth >= initialDepth && (nodeType.Leaf? <==> depth == initialDepth)
    }

    function Child(): (child: Option<NodeParams>)
      requires Sound()
      ensures child.Some? ==> child.value.Sound() && child.value.initialDepth == initialDepth
      ensures child.None? <==> nodeType.Leaf?
    {
      match nodeType
      case Leaf => None
      case Intermediate | Root =>
        if depth == initialDepth + 1 then Some(NodeParams(Leaf, initialDepth, initialDepth))
        else Some(NodeParams(Intermediate, depth - 1, initialDepth))
      case Evm(round) =>
        if round == 0 then Some(NodeParams(if depth == initialDepth then Leaf else Root, depth, initialDepth))
        else Some(NodeParams(Evm(round - 1), depth, initialDepth))
    }

    /** Levels below this node. */
    function Rank(): nat
      requires Sound()
    {
      match nodeType
      case Leaf => 0
      case Intermediate => depth - initialDepth
      case Root => depth - initialDepth
      case Evm(round) => depth - initialDepth + round + 1
    }
  }

  /** This node, its child, and so on down to the leaf. */
  function Chain(p: NodeParams): (chain: seq<NodeParams>)
    requires p.Sound()
    ensures |chain| == p.Rank() + 1 && chain[0] == p
    decreases p.Rank()
  {
    if p.Child().None? then [p] else [p] + Chain(p.Child().value)
  }

  /** One circuit per level: the number of degrees an intent file must list. */
  lemma EvmChainLength(round: nat, depth: nat, initialDepth: nat)
    requires depth >= initialDepth
    ensures |Chain(NodeParams(Evm(round), depth, initialDepth))| == depth - initialDepth + round + 2
  {
  }

  /** The chain from Evm(r), level by level: the EVM rounds r to 0, the root unless leaves are already the
      whole tree, intermediate circuits of each smaller depth, and the leaf. */
  lemma {:induction false} ChainSpelledOut(p: NodeParams, i: nat)
    requires p.Sound() && i < |Chain(p)|
    ensures Chain(p)[i].initialDepth == p.initialDepth
    ensures match p.nodeType
            case Evm(round) =>
              if i <= round then Chain(p)[i] == NodeParams(Evm(round - i), p.depth, p.initialDepth)
              else if p.depth - p.initialDepth == i - round - 1 then Chain(p)[i] == NodeParams(Leaf, p.initialDepth, p.initialDepth)
              else if i == round + 1 then Chain(p)[i] == NodeParams(Root, p.depth, p.initialDepth)
              else Chain(p)[i] == NodeParams(Intermediate, p.depth - (i - round - 1), p.initialDepth)
            case Leaf => Chain(p) == [p]
            case _ =>
              if i == 0 then Chain(p)[i] == p
              else if p.depth - p.initialDepth == i then Chain(p)[i] == NodeParams(Leaf, p.initialDepth, p.initialDepth)
              else Chain(p)[i] == NodeParams(Intermediate, p.depth - i, p.initialDepth)
    decreases i
  {
    if i > 0 {
      ChainSpelledOut(p.Child().value, i - 1);
      assert Chain(p)[i] == Chain(p.Child().value)[i - 1];
    }
  }

  /** The scheduler only ever descends through well-formed parameters. */
  lemma ChildIsWellFormed(p: NodeParams)
    requires p.WellFormed() && !p.nodeType.Leaf?
    ensures p.Sound() && p.Child().value.WellFormed()
    ensures p.Child().value.depth == if p.nodeType.Evm? then p.depth else p.depth - 1
  {
  }

  // ---------- derived order ----------

  predicate TypeLess(a: NodeType, b: NodeType) {
    match b
    case Leaf => false
    case Intermediate => a.Leaf?
    case Root => a.Leaf? || a.Intermediate?
    case Evm(round) => !a.Evm? || a.round < round
  }

  /** Lexicographic on type, depth and initial depth. */
  predicate Less(a: NodeParams, b: NodeParams) {
    || TypeLess(a.nodeType, b.nodeType)
    || (a.nodeType == b.nodeType
        && (a.depth < b.depth || (a.depth == b.depth && a.initialDepth < b.initialDepth)))
  }

  /** Every node below `p` comes strictly before it in the order. */
  lemma {:induction false} ChainDescends(p: NodeParams, i: nat)
    requires p.Sound() && 0 < i < |Chain(p)|
    ensures Less(Chain(p)[i], p)
    decreases p.Rank()
  {
    var child := p.Child().value;
    if i > 1 {
      ChainDescends(child, i - 1);
      assert Chain(p)[i] == Chain(child)[i - 1];
    }
  }
}
