/**
 * The "tree" observation: Flatland's observation tree flattened into three
 * aligned feature groups (six distances, one distance to target and four agent
 * counts per node), missing branches padded with `-inf` as if they were
 * complete subtrees, each group normalised, and optionally the agent's handle
 * appended as a one-hot vector.
 */
module TreeObs {
  import opened ObsTree
  import opened Flatland

  /** The three arrays returned by the split functions. */
  datatype Groups = Groups(data: seq<Value>, distance: seq<Value>, agent: seq<Value>)

  /** The groups describe the same number of nodes: six data and four agent entries per distance entry. */
  predicate Aligned(g: Groups)
  {
    |g.data| == 6 * |g.distance| && |g.agent| == 4 * |g.distance|
  }

  /** Number of nodes an aligned triple describes. */
  function Nodes(g: Groups): nat
  {
    |g.distance|
  }

  function Concat(a: Groups, b: Groups): (g: Groups)
    requires Aligned(a) && Aligned(b)
    ensures Aligned(g) && Nodes(g) == Nodes(a) + Nodes(b)
  {
    Groups(a.data + b.data, a.distance + b.distance, a.agent + b.agent)
  }

  /** `_split_node_into_feature_groups`: one node's features, grouped. */
  function SplitNode(f: Features): (g: Groups)
    ensures Aligned(g) && Nodes(g) == 1
    ensures g.distance == [f.minToTarget]
  {
    Groups(
      [f.ownTarget, f.otherTarget, f.otherAgent, f.potentialConflict, f.unusableSwitch, f.nextBranch],
      [f.minToTarget],
      [f.sameDirection, f.oppositeDirection, f.malfunctioning, f.speedMin])
  }

  /** `count` nodes of `-inf`. */
  function Padding(count: nat): (g: Groups)
    ensures Aligned(g) && Nodes(g) == count
    ensures forall i :: 0 <= i < |g.data| ==> g.data[i] == NegInf
    ensures forall i :: 0 <= i < |g.distance| ==> g.distance[i] == NegInf
    ensures forall i :: 0 <= i < |g.agent| ==> g.agent[i] == NegInf
  {
    Groups(seq(6 * count, _ => NegInf), seq(count, _ => NegInf), seq(4 * count, _ => NegInf))
  }

  /**
   * `int((4 ** (remaining_depth + 1) - 1) / (4 - 1))` for the remaining depth
   * below a missing branch; a negative remaining depth gives a fraction
   * between -1 and 0, which `int` truncates to 0.
   */
  function PadCount(depth: int, maxDepth: int): (n: nat)
    ensures depth > maxDepth ==> n == 0
    ensures depth <= maxDepth ==> n == NodesUpTo(maxDepth - depth)
  {
    if depth > maxDepth then 0
    else
      FullCountIsSum(maxDepth - depth);
      FullCount(maxDepth - depth)
  }

  /**
   * What the split functions index without checking: a node either has no
   * children or has all four branches, and so has every node below it.
   */
  predicate Splittable(n: Node)
    decreases n
  {
    |n.childs| == 0 ||
    (&& HasBranches(n)
     && SplittableChild(n.childs['L'])
     && SplittableChild(n.childs['F'])
     && SplittableChild(n.childs['R'])
     && SplittableChild(n.childs['B']))
  }

  predicate SplittableChild(c: Child)
    decreases c
  {
    c.Sub? ==> Splittable(c.node)
  }

  /** Every branch in `dirs` exists and can be split. */
  predicate BranchesSplittable(n: Node, dirs: seq<char>)
  {
    forall i :: 0 <= i < |dirs| ==> dirs[i] in n.childs && SplittableChild(n.childs[dirs[i]])
  }

  lemma SplittableBranches(n: Node)
    requires Splittable(n) && |n.childs| > 0
    ensures BranchesSplittable(n, ExploredActions)
  {
  }

  /**
   * `_split_subtree_into_feature_groups`: a missing branch becomes padding
   * for the complete subtree it stands for, a node without children only
   * itself, and any other node itself followed by its branches in the order
   * of `ExploredActions`, one level deeper.
   */
  function SplitSubtree(c: Child, depth: int, maxDepth: int): (g: Groups)
    requires SplittableChild(c)
    ensures Aligned(g)
    decreases c, 1
  {
    match c
    case Missing => Padding(PadCount(depth, maxDepth))
    case Sub(n) =>
      var own := SplitNode(n.features);
      if |n.childs| == 0 then own
      else
        SplittableBranches(n);
        Concat(own, SplitBranches(n, ExploredActions, depth + 1, maxDepth))
  }

  /** The concatenation of the split branches `dirs` of `n`, in that order. */
  function SplitBranches(n: Node, dirs: seq<char>, depth: int, maxDepth: int): (g: Groups)
    requires BranchesSplittable(n, dirs)
    ensures Aligned(g)
    decreases n, 0, |dirs|
  {
    if |dirs| == 0 then Groups([], [], [])
    else Concat(SplitSubtree(n.childs[dirs[0]], depth, maxDepth), SplitBranches(n, dirs[1..], depth, maxDepth))
  }

  /** `split_tree_into_feature_groups`: the root itself, then its four branches at depth 1. */
  function SplitTree(root: Node, maxDepth: int): (g: Groups)
    requires BranchesSplittable(root, ExploredActions)
    ensures Aligned(g)
  {
    Concat(SplitNode(root.features), SplitBranches(root, ExploredActions, 1, maxDepth))
  }

  lemma {:induction false} RegularIsSplittable(n: Node, depth: nat, maxDepth: nat)
    requires Regular(n, depth, maxDepth)
    ensures Splittable(n)
    decreases n, 0
  {
    if depth < maxDepth {
      RegularChildIsSplittable(n.childs['L'], depth + 1, maxDepth);
      RegularChildIsSplittable(n.childs['F'], depth + 1, maxDepth);
      RegularChildIsSplittable(n.childs['R'], depth + 1, maxDepth);
      RegularChildIsSplittable(n.childs['B'], depth + 1, maxDepth);
    }
  }

  lemma {:induction false} RegularChildIsSplittable(c: Child, depth: nat, maxDepth: nat)
    requires RegularChild(c, depth, maxDepth)
    ensures SplittableChild(c)
    decreases c, 1
  {
    if c.Sub? {
      RegularIsSplittable(c.node, depth, maxDepth);
    }
  }

  /**
   * A branch of the shape Flatland builds, present or missing, flattens to
   * exactly the nodes of a complete 4-ary tree of the remaining height.
   */
  lemma {:induction false} SubtreeNodes(c: Child, depth: nat, maxDepth: nat)
    requires depth <= maxDepth && RegularChild(c, depth, maxDepth)
    ensures SplittableChild(c)
    ensures Nodes(SplitSubtree(c, depth, maxDepth)) == NodesUpTo(maxDepth - depth)
    decreases c, 1
  {
    match c
    case Missing =>
    case Sub(n) =>
      RegularIsSplittable(n, depth, maxDepth);
      if depth < maxDepth {
        BranchNodes(n, depth, maxDepth);
        NodesUpToStep(maxDepth - depth - 1);
      }
  }

  lemma {:induction false} BranchNodes(n: Node, depth: nat, maxDepth: nat)
    requires depth < maxDepth && Regular(n, depth, maxDepth)
    ensures BranchesSplittable(n, ExploredActions)
    ensures Nodes(SplitBranches(n, ExploredActions, depth + 1, maxDepth)) == 4 * NodesUpTo(maxDepth - depth - 1)
    decreases n, 0
  {
    RegularIsSplittable(n, depth, maxDepth);
    EachBranchNodes(n, ExploredActions, depth, maxDepth);
  }

  /** Each regular branch listed in `dirs` contributes a complete subtree one level down. */
  lemma {:induction false} EachBranchNodes(n: Node, dirs: seq<char>, depth: nat, maxDepth: nat)
    requires depth < maxDepth
    requires forall i :: 0 <= i < |dirs| ==> dirs[i] in n.childs && RegularChild(n.childs[dirs[i]], depth + 1, maxDepth)
    requires BranchesSplittable(n, dirs)
    ensures Nodes(SplitBranches(n, dirs, depth + 1, maxDepth)) == |dirs| * NodesUpTo(maxDepth - depth - 1)
    decreases n, 0, |dirs|
  {
    if |dirs| > 0 {
      var rest := dirs[1..];
      assert forall i :: 0 <= i < |rest| ==> rest[i] == dirs[i + 1];
      SubtreeNodes(n.childs[dirs[0]], depth + 1, maxDepth);
      EachBranchNodes(n, rest, depth, maxDepth);
      MulSucc(|rest|, NodesUpTo(maxDepth - depth - 1));
    }
  }

  lemma MulSucc(a: nat, k: nat)
    ensures (a + 1) * k == k + a * k
  {
  }

  /** Flatland's tree for max depth D >= 1 flattens to Σ_{i=0..D} 4^i nodes. */
  lemma TreeNodes(root: Node, maxDepth: nat)
    requires maxDepth >= 1 && Regular(root, 0, maxDepth)
    ensures BranchesSplittable(root, ExploredActions)
    ensures Nodes(SplitTree(root, maxDepth)) == NodesUpTo(maxDepth)
  {
    BranchNodes(root, 0, maxDepth);
    NodesUpToStep(maxDepth - 1);
  }

  /** The root's own features lead each group. */
  lemma TreeStartsAtRoot(root: Node, maxDepth: int)
    requires BranchesSplittable(root, ExploredActions)
    ensures var g := SplitTree(root, maxDepth);
            && g.data[..6] == SplitNode(root.features).data
            && g.distance[0] == root.features.minToTarget
            && g.agent[..4] == SplitNode(root.features).agent
  {
  }

  /** How `normalize_observation` rescales each group; `np.clip` on the agent group is exact. */
  datatype Normalisers = Normalisers(data: Scaling, distance: Scaling)

  /** `normalize_observation`: data, distance and agent groups, each normalised, one after another. */
  function NormalizeObservation(root: Node, maxDepth: int, norm: Normalisers): (v: seq<Value>)
    requires BranchesSplittable(root, ExploredActions)
    ensures var n := Nodes(SplitTree(root, maxDepth));
            && |v| == ObservationDim * n
            && (forall i :: 7 * n <= i < 11 * n ==> v[i].Num? && -1.0 <= v[i].x <= 1.0)
  {
    var g := SplitTree(root, maxDepth);
    NormObsClip(g.data, norm.data) + NormObsClip(g.distance, norm.distance) + ClipAll(g.agent)
  }

  /** The one-hot part of `normalize_observation_with_agent_id`; indexing past the end raises. */
  function OneHot(numAgents: nat, handle: nat): (v: seq<Value>)
    requires handle < numAgents
    ensures |v| == numAgents
    ensures v[handle] == Num(1.0)
    ensures forall i :: 0 <= i < numAgents && i != handle ==> v[i] == Num(0.0)
  {
    seq(numAgents, i => if i == handle then Num(1.0) else Num(0.0))
  }

  /** `normalize_observation_with_agent_id` */
  function NormalizeWithAgentId(root: Node, maxDepth: int, norm: Normalisers, handle: nat, numAgents: nat): (v: seq<Value>)
    requires BranchesSplittable(root, ExploredActions) && handle < numAgents
    ensures |v| == |NormalizeObservation(root, maxDepth, norm)| + numAgents
    ensures v[..|v| - numAgents] == NormalizeObservation(root, maxDepth, norm)
    ensures v[|v| - numAgents..] == OneHot(numAgents, handle)
  {
    NormalizeObservation(root, maxDepth, norm) + OneHot(numAgents, handle)
  }

  /** The configuration `TreeObsForRailEnvRLLibWrapper` and `TreeObservation` hold. */
  datatype Wrapper = Wrapper(maxDepth: nat, norm: Normalisers, concatAgentId: bool, numAgents: nat)

  /** What the wrapper needs of a tree it flattens for `handle`. */
  predicate Flattens(w: Wrapper, tree: Node, handle: nat)
  {
    BranchesSplittable(tree, ExploredActions) && (w.concatAgentId ==> handle < w.numAgents)
  }

  /** The observation of one agent's tree. */
  function Flatten(w: Wrapper, tree: Node, handle: nat): seq<Value>
    requires Flattens(w, tree, handle)
  {
    if w.concatAgentId then NormalizeWithAgentId(tree, w.maxDepth, w.norm, handle, w.numAgents)
    else NormalizeObservation(tree, w.maxDepth, w.norm)
  }

  /**
   * `TreeObsForRailEnvRLLibWrapper.get`, given what the underlying builder
   * returned for `handle`: no tree, no observation.
   */
  function Get(w: Wrapper, tree: Option<Node>, handle: nat): (r: Option<seq<Value>>)
    requires tree.Some? ==> Flattens(w, tree.value, handle)
    ensures r.Some? <==> tree.Some?
    ensures r.Some? ==> r.value == Flatten(w, tree.value, handle)
  {
    match tree
    case None => None
    case Some(t) => Some(Flatten(w, t, handle))
  }

  /** What `get_many` needs of the underlying builder's trees. */
  predicate AllFlatten(w: Wrapper, trees: map<nat, Option<Node>>)
  {
    forall k :: k in trees && trees[k].Some? ==> Flattens(w, trees[k].value, k)
  }

  /**
   * `TreeObsForRailEnvRLLibWrapper.get_many`, given the underlying builder's
   * trees: the handles with a tree, each flattened.
   */
  function GetMany(w: Wrapper, trees: map<nat, Option<Node>>): (r: map<nat, seq<Value>>)
    requires AllFlatten(w, trees)
  {
    map k | k in trees && trees[k].Some? :: Flatten(w, trees[k].value, k)
  }

  /** `get_many` agrees with `get` handle by handle, and drops exactly the handles without a tree. */
  lemma GetManyIsEachGet(w: Wrapper, trees: map<nat, Option<Node>>, k: nat)
    requires AllFlatten(w, trees) && k in trees
    ensures k in GetMany(w, trees) <==> Get(w, trees[k], k).Some?
    ensures k in GetMany(w, trees) ==> GetMany(w, trees)[k] == Get(w, trees[k], k).value
  {
  }

  /** `TreeObservation.observation_space`: the length of the flat observation vector. */
  method ObservationSpace(w: Wrapper) returns (dim: nat)
    ensures dim == ObservationDim * NodesUpTo(w.maxDepth) + (if w.concatAgentId then w.numAgents else 0)
  {
    var nrNodes := 0;
    var i := 0;
    while i < w.maxDepth + 1
      invariant 0 <= i <= w.maxDepth + 1
      invariant nrNodes == if i == 0 then 0 else NodesUpTo(i - 1)
    {
      nrNodes := nrNodes + Pow4(i);
      i := i + 1;
    }
    dim := ObservationDim * nrNodes;
    if w.concatAgentId {
      dim := dim + w.numAgents;
    }
  }

  /** For a tree of the shape Flatland builds, the observation fills the declared space exactly. */
  lemma GetFillsObservationSpace(w: Wrapper, tree: Node, handle: nat)
    requires w.maxDepth >= 1 && Regular(tree, 0, w.maxDepth)
    requires w.concatAgentId ==> handle < w.numAgents
    ensures Flattens(w, tree, handle)
    ensures |Flatten(w, tree, handle)| == ObservationDim * NodesUpTo(w.maxDepth) + (if w.concatAgentId then w.numAgents else 0)
  {
    TreeNodes(tree, w.maxDepth);
  }
}
