/**
 * The observation tree Flatland's `TreeObsForRailEnv` hands to the tree
 * flatteners: a node of eleven features and a dictionary of children keyed by
 * the branch characters 'L', 'F', 'R', 'B', each child either another node or
 * the float `-inf` that marks a branch that cannot be taken.
 */
module ObsTree {

  /** A feature value: a float that may be infinite. */
  datatype Value = NegInf | Num(x: real) | PosInf

  /** The features of `TreeObsForRailEnv.Node` that the flatteners read, in the order they lay them out. */
  datatype Features = Features(
    ownTarget: Value,          // dist_own_target_encountered
    otherTarget: Value,        // dist_other_target_encountered
    otherAgent: Value,         // dist_other_agent_encountered
    potentialConflict: Value,  // dist_potential_conflict
    unusableSwitch: Value,     // dist_unusable_switch
    nextBranch: Value,         // dist_to_next_branch
    minToTarget: Value,        // dist_min_to_target
    sameDirection: Value,      // num_agents_same_direction
    oppositeDirection: Value,  // num_agents_opposite_direction
    malfunctioning: Value,     // num_agents_malfunctioning
    speedMin: Value)           // speed_min_fractional

  datatype Child = Sub(node: Node) | Missing

  datatype Node = Node(features: Features, childs: map<char, Child>)

  /** `TreeObsForRailEnv.tree_explored_actions_char`: the order in which branches are stored. */
  const ExploredActions: seq<char> := ['L', 'F', 'R', 'B']

  /** `TreeObsForRailEnv.observation_dim`: features per node. */
  const ObservationDim: nat := 11

  function Pow4(k: nat): (p: nat)
    ensures p >= 1
  {
    if k == 0 then 1 else 4 * Pow4(k - 1)
  }

  /** Σ_{i=0..depth} 4^i: the nodes of a complete 4-ary tree of the given height. */
  function NodesUpTo(depth: nat): (n: nat)
    ensures n >= 1
  {
    if depth == 0 then 1 else NodesUpTo(depth - 1) + Pow4(depth)
  }

  /** The closed form `(4 ** (h + 1) - 1) / (4 - 1)` used for padding. */
  function FullCount(h: nat): nat
  {
    (Pow4(h + 1) - 1) / 3
  }

  /** The closed form agrees with the sum, so it counts the nodes of a complete tree of height h. */
  lemma {:induction false} FullCountIsSum(h: nat)
    ensures FullCount(h) == NodesUpTo(h)
    ensures Pow4(h + 1) - 1 == 3 * NodesUpTo(h)
  {
    if h > 0 {
      FullCountIsSum(h - 1);
    }
  }

  /** A complete tree one level higher is a root over four complete subtrees. */
  lemma {:induction false} NodesUpToStep(h: nat)
    ensures NodesUpTo(h + 1) == 1 + 4 * NodesUpTo(h)
  {
    if h > 0 {
      NodesUpToStep(h - 1);
    }
  }

  /**
   * The shape `TreeObsForRailEnv` builds for max depth `maxDepth`: a node at
   * depth `depth` below the maximum has all four branches, each a node or
   * missing, and a node at the maximum has its children cleared.
   */
  predicate Regular(n: Node, depth: nat, maxDepth: nat)
    decreases n
  {
    && depth <= maxDepth
    && (depth == maxDepth ==> |n.childs| == 0)
    && (depth < maxDepth ==>
          && HasBranches(n)
          && RegularChild(n.childs['L'], depth + 1, maxDepth)
          && RegularChild(n.childs['F'], depth + 1, maxDepth)
          && RegularChild(n.childs['R'], depth + 1, maxDepth)
          && RegularChild(n.childs['B'], depth + 1, maxDepth))
  }

  predicate RegularChild(c: Child, depth: nat, maxDepth: nat)
    decreases c
  {
    c.Sub? ==> Regular(c.node, depth, maxDepth)
  }

  predicate HasBranches(n: Node)
  {
    'L' in n.childs && 'F' in n.childs && 'R' in n.childs && 'B' in n.childs
  }

  /** A regular tree without a missing branch: every node above the maximum has four node children. */
  predicate Complete(n: Node, depth: nat, maxDepth: nat)
    decreases n
  {
    && Regular(n, depth, maxDepth)
    && (depth < maxDepth ==>
          && n.childs['L'].Sub? && Complete(n.childs['L'].node, depth + 1, maxDepth)
          && n.childs['F'].Sub? && Complete(n.childs['F'].node, depth + 1, maxDepth)
          && n.childs['R'].Sub? && Complete(n.childs['R'].node, depth + 1, maxDepth)
          && n.childs['B'].Sub? && Complete(n.childs['B'].node, depth + 1, maxDepth))
  }

  /** The nodes reachable through the four branches, counted in the order of `ExploredActions`. */
  function Size(n: Node): (k: nat)
    ensures k >= 1
    decreases n, 1
  {
    1 + BranchSize(n, 'L') + BranchSize(n, 'F') + BranchSize(n, 'R') + BranchSize(n, 'B')
  }

  function BranchSize(n: Node, ch: char): nat
    decreases n, 0
  {
    if ch in n.childs && n.childs[ch].Sub? then Size(n.childs[ch].node) else 0
  }

  /** A tree of Flatland's shape has at most the nodes of a complete tree of the remaining height. */
  lemma {:induction false} SizeBound(n: Node, depth: nat, maxDepth: nat)
    requires Regular(n, depth, maxDepth)
    ensures Size(n) <= NodesUpTo(maxDepth - depth)
    decreases n, 1
  {
    if depth < maxDepth {
      BranchBound(n, 'L', depth, maxDepth);
      BranchBound(n, 'F', depth, maxDepth);
      BranchBound(n, 'R', depth, maxDepth);
      BranchBound(n, 'B', depth, maxDepth);
      NodesUpToStep(maxDepth - depth - 1);
    } else {
      assert n.childs == map[];
    }
  }

  lemma {:induction false} BranchBound(n: Node, ch: char, depth: nat, maxDepth: nat)
    requires depth < maxDepth && Regular(n, depth, maxDepth) && ch in ExploredActions
    ensures BranchSize(n, ch) <= NodesUpTo(maxDepth - depth - 1)
    decreases n, 0
  {
    assert ch in n.childs && RegularChild(n.childs[ch], depth + 1, maxDepth);
    if n.childs[ch].Sub? {
      SizeBound(n.childs[ch].node, depth + 1, maxDepth);
    }
  }

  /** Without a missing branch it has exactly that many. */
  lemma {:induction false} CompleteSize(n: Node, depth: nat, maxDepth: nat)
    requires Complete(n, depth, maxDepth)
    ensures Size(n) == NodesUpTo(maxDepth - depth)
    decreases n, 1
  {
    if depth < maxDepth {
      CompleteBranch(n, 'L', depth, maxDepth);
      CompleteBranch(n, 'F', depth, maxDepth);
      CompleteBranch(n, 'R', depth, maxDepth);
      CompleteBranch(n, 'B', depth, maxDepth);
      NodesUpToStep(maxDepth - depth - 1);
    } else {
      assert n.childs == map[];
    }
  }

  lemma {:induction false} CompleteBranch(n: Node, ch: char, depth: nat, maxDepth: nat)
    requires depth < maxDepth && Complete(n, depth, maxDepth) && ch in ExploredActions
    ensures BranchSize(n, ch) == NodesUpTo(maxDepth - depth - 1)
    decreases n, 0
  {
    assert ch in n.childs && n.childs[ch].Sub? && Complete(n.childs[ch].node, depth + 1, maxDepth);
    CompleteSize(n.childs[ch].node, depth + 1, maxDepth);
  }

  /** `np.clip(v, -1, 1)` */
  function Clip(v: Value): (r: Value)
    ensures r.Num? && -1.0 <= r.x <= 1.0
    ensures v.Num? && -1.0 <= v.x <= 1.0 ==> r == v
    ensures (v.Num? && v.x > 1.0) || v.PosInf? ==> r == Num(1.0)
    ensures (v.Num? && v.x < -1.0) || v.NegInf? ==> r == Num(-1.0)
  {
    match v
    case NegInf => Num(-1.0)
    case PosInf => Num(1.0)
    case Num(x) => if x < -1.0 then Num(-1.0) else if x > 1.0 then Num(1.0) else v
  }

  /**
   * `norm_obs_clip` (not part of this model) is taken as an element-wise map
   * whose scale may depend on the whole group it normalises.
   */
  type Scaling = (seq<Value>, Value) -> Value

  function NormObsClip(group: seq<Value>, scale: Scaling): (r: seq<Value>)
    ensures |r| == |group|
    ensures forall i :: 0 <= i < |group| ==> r[i] == scale(group, group[i])
  {
    seq(|group|, i requires 0 <= i < |group| => scale(group, group[i]))
  }

  /** `np.clip` over a group: every entry becomes a number in [-1, 1], and entries already there are kept. */
  function ClipAll(group: seq<Value>): (r: seq<Value>)
    ensures |r| == |group|
    ensures forall i :: 0 <= i < |r| ==> r[i].Num? && -1.0 <= r[i].x <= 1.0
    ensures forall i :: 0 <= i < |group| && group[i].Num? && -1.0 <= group[i].x <= 1.0 ==> r[i] == group[i]
    ensures forall i :: 0 <= i < |group| ==> r[i] == Clip(group[i])
  {
    seq(|group|, i requires 0 <= i < |group| => Clip(group[i]))
  }
}
