/**
 * The "fixed_tree" observation: Flatland's observation tree as a list of node
 * feature vectors in depth-first post-order (children in the order forward,
 * stop, left, right, then the node itself), padded with rows of `-inf` to the
 * node count of a complete tree of the configured depth.
 */
module FixedTreeObs {
  import opened ObsTree
  import opened Flatland
  import TreeObs

  /** `RailEnvActions.to_char` for the four actions the wrapper explores. */
  function ActionChar(action: nat): (ch: char)
    requires action < 4
    ensures ch in ExploredActions
  {
    match action
    case 0 => 'B'   // DO_NOTHING
    case 1 => 'L'   // MOVE_LEFT
    case 2 => 'F'   // MOVE_FORWARD
    case 3 => 'R'   // MOVE_RIGHT
  }

  /** `_available_actions`: MOVE_FORWARD, DO_NOTHING, MOVE_LEFT, MOVE_RIGHT. */
  const AvailableActions: seq<nat> := [2, 0, 1, 3]

  /** `_get_node_feature_vector`: the node's six distances, its distance to target and its four agent features. */
  function FeatureVector(f: Features, norm: TreeObs.Normalisers): (v: seq<Value>)
    ensures |v| == ObservationDim
    ensures forall i :: 7 <= i < ObservationDim ==> v[i].Num? && -1.0 <= v[i].x <= 1.0
  {
    var data := [f.ownTarget, f.otherTarget, f.otherAgent, f.potentialConflict, f.unusableSwitch, f.nextBranch];
    var distance := [f.minToTarget];
    var agent := [f.sameDirection, f.oppositeDirection, f.malfunctioning, f.speedMin];
    NormObsClip(data, norm.data) + NormObsClip(distance, norm.distance) + ClipAll(agent)
  }

  /**
   * A node's vector is the "tree" observation of that node alone, with the
   * same normalisation: slots 0-5 the six normalised data features, slot 6 the
   * normalised distance to target, slots 7-10 the four agent features clipped.
   */
  lemma FeatureVectorIsSplitNode(f: Features, norm: TreeObs.Normalisers)
    ensures var g := TreeObs.SplitNode(f);
            var v := FeatureVector(f, norm);
            && |g.data| == 6 && |g.distance| == 1 && |g.agent| == 4
            && v[..6] == NormObsClip(g.data, norm.data)
            && v[6..7] == NormObsClip(g.distance, norm.distance)
            && v[7..] == ClipAll(g.agent)
            && (forall i :: 0 <= i < 4 ==> v[7 + i] == Clip(g.agent[i]))
            && v == NormObsClip(g.data, norm.data) + NormObsClip(g.distance, norm.distance) + ClipAll(g.agent)
  {
    var g := TreeObs.SplitNode(f);
    var v := FeatureVector(f, norm);
    var a, b, c := NormObsClip(g.data, norm.data), NormObsClip(g.distance, norm.distance), ClipAll(g.agent);
    assert v == a + b + c && |a| == 6 && |b| == 1;
    assert v[..6] == a && v[6..7] == b && v[7..] == c;
  }

  /**
   * The rows `dfs` appends for `n`: the rows of each branch it explores, in
   * the order of `AvailableActions`, then the node's own vector.
   */
  function PostOrder(n: Node, norm: TreeObs.Normalisers): (rows: seq<seq<Value>>)
    ensures |rows| >= 1 && rows[|rows| - 1] == FeatureVector(n.features, norm)
    decreases n, 2
  {
    Explore(n, AvailableActions, norm) + [FeatureVector(n.features, norm)]
  }

  /** The rows of the branches for `actions`, in that order. */
  function Explore(n: Node, actions: seq<nat>, norm: TreeObs.Normalisers): seq<seq<Value>>
    requires forall i :: 0 <= i < |actions| ==> actions[i] < 4
    decreases n, 1, |actions|
  {
    if |actions| == 0 then []
    else Explore(n, actions[..|actions| - 1], norm) + Branch(n, actions[|actions| - 1], norm)
  }

  /**
   * A branch is followed when exactly one key equals the action's character
   * (for a dictionary: when that key is present) and it holds a node rather
   * than the float `-inf`.
   */
  function Branch(n: Node, action: nat, norm: TreeObs.Normalisers): seq<seq<Value>>
    requires action < 4
    decreases n, 0
  {
    var ch := ActionChar(action);
    if ch in n.childs && n.childs[ch].Sub? then PostOrder(n.childs[ch].node, norm) else []
  }

  /** One row per node reachable through the four branches; `-inf` branches add none. */
  lemma {:induction false} PostOrderRows(n: Node, norm: TreeObs.Normalisers)
    ensures |PostOrder(n, norm)| == Size(n)
    decreases n, 1
  {
    var a := AvailableActions;
    BranchRows(n, 2, norm);
    BranchRows(n, 0, norm);
    BranchRows(n, 1, norm);
    BranchRows(n, 3, norm);
    assert a[..0] == [];
    ExploreStep(n, a, 0, norm);
    ExploreStep(n, a, 1, norm);
    ExploreStep(n, a, 2, norm);
    ExploreStep(n, a, 3, norm);
    assert a[..4] == a;
  }

  /** Exploring one more action appends that branch's rows. */
  lemma ExploreStep(n: Node, actions: seq<nat>, k: nat, norm: TreeObs.Normalisers)
    requires k < |actions| && forall i :: 0 <= i < |actions| ==> actions[i] < 4
    ensures |Explore(n, actions[..k + 1], norm)| == |Explore(n, actions[..k], norm)| + |Branch(n, actions[k], norm)|
  {
    assert actions[..k + 1][..k] == actions[..k];
  }

  lemma {:induction false} BranchRows(n: Node, action: nat, norm: TreeObs.Normalisers)
    requires action < 4
    ensures |Branch(n, action, norm)| == BranchSize(n, ActionChar(action))
    decreases n, 0
  {
    var ch := ActionChar(action);
    if ch in n.childs && n.childs[ch].Sub? {
      PostOrderRows(n.childs[ch].node, norm);
    }
  }

  /** For a tree of Flatland's shape the rows fit the padded table, filling it when no branch is missing. */
  lemma RowsFit(n: Node, maxDepth: nat, norm: TreeObs.Normalisers)
    requires Regular(n, 0, maxDepth)
    ensures |PostOrder(n, norm)| <= NodesUpTo(maxDepth)
    ensures Complete(n, 0, maxDepth) ==> |PostOrder(n, norm)| == NodesUpTo(maxDepth)
  {
    PostOrderRows(n, norm);
    SizeBound(n, 0, maxDepth);
    if Complete(n, 0, maxDepth) {
      CompleteSize(n, 0, maxDepth);
    }
  }

  /** The list `dfs` appends to, shared with its caller. */
  class RowList {
    var rows: seq<seq<Value>>

    constructor()
      ensures rows == []
    {
      rows := [];
    }
  }

  /** The table `_build_pairs` returns: the rows first, `-inf` below them. */
  ghost predicate Padded(a: array2<Value>, rows: seq<seq<Value>>)
    reads a
  {
    && |rows| <= a.Length0
    && a.Length1 == ObservationDim
    && (forall i :: 0 <= i < |rows| ==> |rows[i]| == ObservationDim)
    && (forall i, j :: 0 <= i < |rows| && 0 <= j < ObservationDim ==> a[i, j] == rows[i][j])
    && (forall i, j :: |rows| <= i < a.Length0 && 0 <= j < ObservationDim ==> a[i, j] == NegInf)
  }

  predicate FeatureRows(rows: seq<seq<Value>>)
  {
    forall i :: 0 <= i < |rows| ==> |rows[i]| == ObservationDim
  }

  lemma {:induction false} PostOrderWidth(n: Node, norm: TreeObs.Normalisers)
    ensures FeatureRows(PostOrder(n, norm))
    decreases n, 2
  {
    ExploreWidth(n, AvailableActions, norm);
  }

  lemma {:induction false} ExploreWidth(n: Node, actions: seq<nat>, norm: TreeObs.Normalisers)
    requires forall i :: 0 <= i < |actions| ==> actions[i] < 4
    ensures FeatureRows(Explore(n, actions, norm))
    decreases n, 1, |actions|
  {
    if |actions| > 0 {
      ExploreWidth(n, actions[..|actions| - 1], norm);
      var ch := ActionChar(actions[|actions| - 1]);
      if ch in n.childs && n.childs[ch].Sub? {
        PostOrderWidth(n.childs[ch].node, norm);
      }
    }
  }

  class FixedTreeObsWrapper {
    const maxDepth: nat
    const norm: TreeObs.Normalisers
    /** Σ_{i=0..maxDepth} 4^i: the rows of every observation. */
    const maxNrNodes: nat

    /** `__init__`: accumulates the node count of a complete tree of depth `maxDepth`. */
    constructor(maxDepth: nat, norm: TreeObs.Normalisers)
      ensures this.maxDepth == maxDepth && this.norm == norm
      ensures maxNrNodes == NodesUpTo(maxDepth)
    {
      var count := 0;
      var i := 0;
      while i < maxDepth + 1
        invariant 0 <= i <= maxDepth + 1
        invariant count == if i == 0 then 0 else NodesUpTo(i - 1)
      {
        count := count + Pow4(i);
        i := i + 1;
      }
      this.maxDepth := maxDepth;
      this.norm := norm;
      maxNrNodes := count;
    }

    /** `dfs`: appends the rows of `n` in post-order to `out`. */
    method Dfs(n: Node, out: RowList)
      modifies out
      ensures out.rows == old(out.rows) + PostOrder(n, norm)
      decreases n
    {
      ghost var start := out.rows;
      var i := 0;
      while i < |AvailableActions|
        invariant 0 <= i <= |AvailableActions|
        invariant out.rows == start + Explore(n, AvailableActions[..i], norm)
      {
        var action := AvailableActions[i];
        var ch := ActionChar(action);
        assert AvailableActions[..i + 1][..i] == AvailableActions[..i];
        if ch in n.childs && n.childs[ch].Sub? {
          Dfs(n.childs[ch].node, out);
        }
        i := i + 1;
      }
      assert AvailableActions[..4] == AvailableActions;
      out.rows := out.rows + [FeatureVector(n.features, norm)];
    }

    /** `_build_pairs`: the post-order rows of `n` over a `maxNrNodes` by 11 table of `-inf`. */
    method BuildPairs(n: Node) returns (a: array2<Value>)
      requires |PostOrder(n, norm)| <= maxNrNodes
      ensures fresh(a) && a.Length0 == maxNrNodes
      ensures Padded(a, PostOrder(n, norm))
    {
      var nodeObservations := new RowList();
      Dfs(n, nodeObservations);
      var rows := nodeObservations.rows;
      PostOrderWidth(n, norm);
      a := new Value[maxNrNodes, ObservationDim]((_, _) => NegInf);
      var i := 0;
      while i < |rows|
        invariant 0 <= i <= |rows|
        invariant forall r, j :: 0 <= r < i && 0 <= j < ObservationDim ==> a[r, j] == rows[r][j]
        invariant forall r, j :: i <= r < maxNrNodes && 0 <= j < ObservationDim ==> a[r, j] == NegInf
      {
        CopyRow(a, i, rows[i]);
        i := i + 1;
      }
    }

    /** Row `i` of `a` becomes `row`; nothing else changes. */
    static method CopyRow(a: array2<Value>, i: nat, row: seq<Value>)
      requires i < a.Length0 && a.Length1 == |row|
      modifies a
      ensures forall j :: 0 <= j < |row| ==> a[i, j] == row[j]
      ensures forall r, j :: 0 <= r < a.Length0 && r != i && 0 <= j < a.Length1 ==> a[r, j] == old(a[r, j])
    {
      var j := 0;
      while j < |row|
        invariant 0 <= j <= |row|
        invariant forall k :: 0 <= k < j ==> a[i, k] == row[k]
        invariant forall r, k :: 0 <= r < a.Length0 && r != i && 0 <= k < a.Length1 ==> a[r, k] == old(a[r, k])
      {
        a[i, j] := row[j];
        j := j + 1;
      }
    }

    /** What `get_many` needs of the underlying builder's trees: each present tree fits the table. */
    predicate Fits(trees: map<nat, Option<Node>>)
    {
      forall k :: k in trees && trees[k].Some? ==> |PostOrder(trees[k].value, norm)| <= maxNrNodes
    }

    /** `get_many`, given the underlying builder's trees: a table for each handle that has a tree. */
    method GetMany(trees: map<nat, Option<Node>>) returns (r: map<nat, array2<Value>>)
      requires Fits(trees)
      ensures r.Keys == set k | k in trees && trees[k].Some?
      ensures forall k :: k in r ==> fresh(r[k]) && r[k].Length0 == maxNrNodes && Padded(r[k], PostOrder(trees[k].value, norm))
    {
      r := map[];
      var todo := trees.Keys;
      while todo != {}
        invariant todo <= trees.Keys
        invariant r.Keys == set k | k in trees && k !in todo && trees[k].Some?
        invariant forall k :: k in r ==> fresh(r[k]) && r[k].Length0 == maxNrNodes && Padded(r[k], PostOrder(trees[k].value, norm))
        decreases todo
      {
        var k :| k in todo;
        if trees[k].Some? {
          var a := BuildPairs(trees[k].value);
          r := r[k := a];
        }
        todo := todo - {k};
      }
    }
  }

  /** Every tree of Flatland's shape for the wrapper's depth can be flattened by `get_many`. */
  lemma RegularTreesFit(w: FixedTreeObsWrapper, trees: map<nat, Option<Node>>)
    requires w.maxNrNodes == NodesUpTo(w.maxDepth)
    requires forall k :: k in trees && trees[k].Some? ==> Regular(trees[k].value, 0, w.maxDepth)
    ensures w.Fits(trees)
  {
    forall k | k in trees && trees[k].Some?
      ensures |PostOrder(trees[k].value, w.norm)| <= w.maxNrNodes
    {
      RowsFit(trees[k].value, w.maxDepth, w.norm);
    }
  }
}
