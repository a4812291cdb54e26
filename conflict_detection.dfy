/**
 * Conflict detection of the conflict-priority shortest-path observation:
 * the per-tick prediction tables, the shortest-path step, and the walk along
 * an agent's shortest path that reports the first other agent met head-on
 * (or already done) at the predicted tick or the tick just before or after.
 */
module ConflictDetection {
  import opened Flatland

  /** `_reverse_dir`: the opposite heading. */
  function ReverseDir(d: Direction): (r: Direction)
    ensures r != d
    ensures (r - d) % 4 == 2
  {
    (d + 2) % 4
  }

  lemma ReverseDirInvolution(d: Direction)
    ensures ReverseDir(ReverseDir(d)) == d
  {
  }

  // ---------------------------------------------------------------------------
  // The shortest-path step (`get_shortest_path_position`)
  // ---------------------------------------------------------------------------

  predicate Legal(env: Env, p: Position, heading: Direction, m: Direction)
  {
    env.rail(p, heading)[m]
  }

  /** The (inf/NaN-replaced) distance to target after taking the legal move `m` from `p`. */
  function MoveDistance(env: Env, handle: nat, p: Position, heading: Direction, m: Direction): nat
    requires WellFormed(env) && handle < |env.agents| && InGrid(env, p) && Legal(env, p, heading, m)
  {
    EffectiveDistance(env, handle, NewPosition(p, m), m)
  }

  /**
   * After examining the moves below k, `best` is the move the `<=` scan keeps:
   * none if no move below k is legal, otherwise a legal move whose distance is
   * no larger than any legal move's, and strictly smaller than that of every
   * legal move with a higher index (ties go to the highest index).
   */
  ghost predicate BestBelow(env: Env, handle: nat, p: Position, heading: Direction, k: nat, best: Option<Direction>)
    requires WellFormed(env) && handle < |env.agents| && InGrid(env, p)
  {
    match best
    case None => forall m: Direction :: m < k ==> !Legal(env, p, heading, m)
    case Some(b) =>
      && b < k
      && Legal(env, p, heading, b)
      && forall m: Direction :: m < k && Legal(env, p, heading, m) ==>
           && MoveDistance(env, handle, p, heading, b) <= MoveDistance(env, handle, p, heading, m)
           && (b < m ==> MoveDistance(env, handle, p, heading, b) < MoveDistance(env, handle, p, heading, m))
  }

  function ScanMoves(env: Env, handle: nat, p: Position, heading: Direction, k: nat, best: Option<Direction>): (r: Option<Direction>)
    requires WellFormed(env) && handle < |env.agents| && InGrid(env, p) && k <= 4
    requires BestBelow(env, handle, p, heading, k, best)
    ensures BestBelow(env, handle, p, heading, 4, r)
    decreases 4 - k
  {
    if k == 4 then best
    else if Legal(env, p, heading, k)
            && (best.None? || MoveDistance(env, handle, p, heading, k) <= MoveDistance(env, handle, p, heading, best.value))
    then ScanMoves(env, handle, p, heading, k + 1, Some(k))
    else ScanMoves(env, handle, p, heading, k + 1, best)
  }

  /**
   * The move `get_shortest_path_position` picks from `p` facing `heading`:
   * none exactly when no move is legal; otherwise a legal move of least
   * distance, the highest-indexed one among equals.
   */
  function ShortestPathMove(env: Env, handle: nat, p: Position, heading: Direction): (r: Option<Direction>)
    requires WellFormed(env) && handle < |env.agents| && InGrid(env, p)
    ensures r.None? <==> forall m: Direction :: !Legal(env, p, heading, m)
    ensures r.Some? ==> Legal(env, p, heading, r.value)
    ensures r.Some? ==> forall m: Direction :: Legal(env, p, heading, m) ==>
              MoveDistance(env, handle, p, heading, r.value) <= MoveDistance(env, handle, p, heading, m)
    ensures r.Some? ==> forall m: Direction :: r.value < m && Legal(env, p, heading, m) ==>
              MoveDistance(env, handle, p, heading, r.value) < MoveDistance(env, handle, p, heading, m)
  {
    ScanMoves(env, handle, p, heading, 0, None)
  }

  method ShortestPathPosition(env: Env, handle: nat, position: Position, direction: Direction)
    returns (spPos: Option<Position>, spMove: Option<Direction>)
    requires WellFormed(env) && handle < |env.agents| && InGrid(env, position)
    ensures spMove == ShortestPathMove(env, handle, position, direction)
    ensures spPos == if spMove.Some? then Some(NewPosition(position, spMove.value)) else None
  {
    var minDist: Option<nat> := None;  // None stands for np.inf
    spPos, spMove := None, None;
    for movement := 0 to 4
      invariant BestBelow(env, handle, position, direction, movement, spMove)
      invariant ScanMoves(env, handle, position, direction, movement, spMove) == ShortestPathMove(env, handle, position, direction)
      invariant spMove.None? ==> minDist.None? && spPos.None?
      invariant spMove.Some? ==> && Legal(env, position, direction, spMove.value)
                                 && minDist == Some(MoveDistance(env, handle, position, direction, spMove.value))
                                 && spPos == Some(NewPosition(position, spMove.value))
    {
      if env.rail(position, direction)[movement] {
        var pos := NewPosition(position, movement);
        var distance := EffectiveDistance(env, handle, pos, movement);
        if minDist.None? || distance <= minDist.value {
          minDist := Some(distance);
          spMove := Some(movement);
          spPos := Some(pos);
        }
      }
    }
  }

  // ---------------------------------------------------------------------------
  // Prediction tables (`predicted_pos`, `predicted_dir`)
  // ---------------------------------------------------------------------------

  datatype PredictedStep = PredictedStep(pos: Position, dir: Direction)

  /** Every requested handle has an entry, and every present prediction covers ticks 0..maxDepth. */
  predicate PredictionsCover(handles: seq<nat>, predictions: map<nat, Option<seq<PredictedStep>>>, maxDepth: nat)
  {
    forall i :: 0 <= i < |handles| ==>
      handles[i] in predictions && (predictions[handles[i]].Some? ==> |predictions[handles[i]].value| > maxDepth)
  }

  /** Positions in `handles` whose prediction is not None, in increasing order. */
  function PredictedIndices(handles: seq<nat>, predictions: map<nat, Option<seq<PredictedStep>>>): (r: seq<nat>)
    requires forall i :: 0 <= i < |handles| ==> handles[i] in predictions
    ensures forall k :: 0 <= k < |r| ==> r[k] < |handles| && predictions[handles[r[k]]].Some?
    ensures forall k, m :: 0 <= k < m < |r| ==> r[k] < r[m]
  {
    if handles == [] then []
    else
      var n := |handles| - 1;
      PredictedIndices(handles[..n], predictions) + (if predictions[handles[n]].Some? then [n] else [])
  }

  /** Every position with a prediction is among `PredictedIndices`. */
  lemma {:induction false} PredictedIndicesComplete(handles: seq<nat>, predictions: map<nat, Option<seq<PredictedStep>>>)
    requires forall i :: 0 <= i < |handles| ==> handles[i] in predictions
    ensures forall i :: 0 <= i < |handles| && predictions[handles[i]].Some? ==> i in PredictedIndices(handles, predictions)
  {
    if handles != [] {
      var n := |handles| - 1;
      PredictedIndicesComplete(handles[..n], predictions);
      assert forall i :: 0 <= i < n ==> handles[..n][i] == handles[i];
    }
  }

  /** The handles, in order, whose prediction is not None: exactly the predicted ones. */
  function Predicted(handles: seq<nat>, predictions: map<nat, Option<seq<PredictedStep>>>): (r: seq<nat>)
    requires forall i :: 0 <= i < |handles| ==> handles[i] in predictions
    ensures |r| <= |handles|
    ensures forall i :: 0 <= i < |r| ==> r[i] in handles && predictions[r[i]].Some?
    ensures forall i :: 0 <= i < |handles| && predictions[handles[i]].Some? ==> handles[i] in r
  {
    if handles == [] then []
    else
      var last := handles[|handles| - 1];
      Predicted(handles[..|handles| - 1], predictions) + (if predictions[last].Some? then [last] else [])
  }

  /**
   * `Predicted` keeps the order of `handles`: its entries are the handles at
   * the increasing positions `PredictedIndices` picks, which are all the
   * positions with a prediction.
   */
  lemma {:induction false} PredictedInOrder(handles: seq<nat>, predictions: map<nat, Option<seq<PredictedStep>>>)
    requires forall i :: 0 <= i < |handles| ==> handles[i] in predictions
    ensures var r, idx := Predicted(handles, predictions), PredictedIndices(handles, predictions);
            |r| == |idx| && forall k :: 0 <= k < |r| ==> r[k] == handles[idx[k]]
  {
    if handles != [] {
      var n := |handles| - 1;
      var init := handles[..n];
      PredictedInOrder(init, predictions);
      var r0, idx0 := Predicted(init, predictions), PredictedIndices(init, predictions);
      var tail, tailIdx := if predictions[handles[n]].Some? then [handles[n]] else [],
                           if predictions[handles[n]].Some? then [n] else [];
      var r, idx := Predicted(handles, predictions), PredictedIndices(handles, predictions);
      assert r == r0 + tail && idx == idx0 + tailIdx;
      forall k | 0 <= k < |r|
        ensures r[k] == handles[idx[k]]
      {
        if k < |r0| {
          assert r[k] == r0[k] == init[idx0[k]];
          assert idx[k] == idx0[k] < n;
        }
      }
    }
  }

  function PosRow(width: int, handles: seq<nat>, predictions: map<nat, Option<seq<PredictedStep>>>, t: nat): seq<int>
    requires PredictionsCover(handles, predictions, t)
  {
    if handles == [] then []
    else
      var last := handles[|handles| - 1];
      PosRow(width, handles[..|handles| - 1], predictions, t)
        + (if predictions[last].Some? then [CellIndex(width, predictions[last].value[t].pos)] else [])
  }

  function DirRow(handles: seq<nat>, predictions: map<nat, Option<seq<PredictedStep>>>, t: nat): seq<Direction>
    requires PredictionsCover(handles, predictions, t)
  {
    if handles == [] then []
    else
      var last := handles[|handles| - 1];
      DirRow(handles[..|handles| - 1], predictions, t)
        + (if predictions[last].Some? then [predictions[last].value[t].dir] else [])
  }

  /**
   * Every tick's rows list exactly the agents that have a prediction, in
   * handle order: entry i of tick t belongs to the i-th predicted agent,
   * whatever its handle, so rows of all ticks have the same length.
   */
  lemma {:induction false} RowsFollowPredictedAgents(width: int, handles: seq<nat>, predictions: map<nat, Option<seq<PredictedStep>>>, t: nat)
    requires PredictionsCover(handles, predictions, t)
    ensures |PosRow(width, handles, predictions, t)| == |Predicted(handles, predictions)|
    ensures |DirRow(handles, predictions, t)| == |Predicted(handles, predictions)|
    ensures forall i :: 0 <= i < |Predicted(handles, predictions)| ==>
              && PosRow(width, handles, predictions, t)[i] == CellIndex(width, predictions[Predicted(handles, predictions)[i]].value[t].pos)
              && DirRow(handles, predictions, t)[i] == predictions[Predicted(handles, predictions)[i]].value[t].dir
  {
    if handles != [] {
      RowsFollowPredictedAgents(width, handles[..|handles| - 1], predictions, t);
    }
  }

  /** When the handles are 0..n-1 and all of them are predicted, row index and handle coincide. */
  lemma {:induction false} PredictedIsIdentity(n: nat, predictions: map<nat, Option<seq<PredictedStep>>>)
    requires forall h :: 0 <= h < n ==> h in predictions && predictions[h].Some?
    ensures Predicted(seq(n, i => i), predictions) == seq(n, i => i)
  {
    if n > 0 {
      var hs := seq(n, i => i);
      assert hs[..n - 1] == seq(n - 1, i => i);
      PredictedIsIdentity(n - 1, predictions);
    }
  }

  datatype Tables = Tables(pos: seq<seq<int>>, dir: seq<seq<Direction>>)

  /**
   * The table-building loop of `get_many`: for every tick 0..maxDepth, the
   * cells and headings of every requested agent that has a prediction.
   */
  method BuildTables(width: int, handles: seq<nat>, predictions: map<nat, Option<seq<PredictedStep>>>, maxDepth: nat)
    returns (tables: Tables)
    requires PredictionsCover(handles, predictions, maxDepth)
    ensures |tables.pos| == maxDepth + 1 && |tables.dir| == maxDepth + 1
    ensures forall t :: 0 <= t <= maxDepth ==>
              && tables.pos[t] == PosRow(width, handles, predictions, t)
              && tables.dir[t] == DirRow(handles, predictions, t)
  {
    var predictedPos: seq<seq<int>> := [];
    var predictedDir: seq<seq<Direction>> := [];
    for t := 0 to maxDepth + 1
      invariant |predictedPos| == t && |predictedDir| == t
      invariant forall k :: 0 <= k < t ==>
                  predictedPos[k] == PosRow(width, handles, predictions, k) && predictedDir[k] == DirRow(handles, predictions, k)
    {
      var posList, dirList := BuildRow(width, handles, predictions, t);
      predictedPos := predictedPos + [posList];
      predictedDir := predictedDir + [dirList];
    }
    tables := Tables(predictedPos, predictedDir);
  }

  /** The inner loop for tick t: the cell index and heading of each requested agent that has a prediction. */
  method BuildRow(width: int, handles: seq<nat>, predictions: map<nat, Option<seq<PredictedStep>>>, t: nat)
    returns (posList: seq<int>, dirList: seq<Direction>)
    requires PredictionsCover(handles, predictions, t)
    ensures posList == PosRow(width, handles, predictions, t) && dirList == DirRow(handles, predictions, t)
  {
    posList, dirList := [], [];
    for i := 0 to |handles|
      invariant PredictionsCover(handles[..i], predictions, t)
      invariant posList == PosRow(width, handles[..i], predictions, t)
      invariant dirList == DirRow(handles[..i], predictions, t)
    {
      var a := handles[i];
      assert handles[..i + 1][..i] == handles[..i];
      if predictions[a].None? {
        continue;
      }
      posList := posList + [CellIndex(width, predictions[a].value[t].pos)];
      dirList := dirList + [predictions[a].value[t].dir];
    }
    assert handles[..|handles|] == handles;
  }

  // ---------------------------------------------------------------------------
  // One tick: who stands on the examined cell (`detect_conflicts` loop body)
  // ---------------------------------------------------------------------------

  /**
   * The prediction rows fit the lookups `detect_conflicts` makes: one heading
   * per cell, the evaluating handle is a valid index for `np.delete`, and
   * every row index is also an index into the agent list.
   */
  predicate TablesFit(env: Env, tables: Tables, handle: nat)
  {
    && |tables.pos| == |tables.dir|
    && forall t :: 0 <= t < |tables.pos| ==>
         |tables.pos[t]| == |tables.dir[t]| && handle < |tables.pos[t]| <= |env.agents|
  }

  /** `int_position in np.delete(row, handle, 0)`: some agent other than row index `handle` is on the cell. */
  predicate OccupiedByOther(row: seq<int>, cell: int, handle: nat)
    requires handle < |row|
  {
    cell in row[..handle] + row[handle + 1..]
  }

  /**
   * Row entry `ca` is on the cell and either meets the walker head-on (a
   * different heading, and the walker's first cell admits travel in the
   * reverse of that heading) or is an agent that is already done.
   */
  predicate Qualifies(env: Env, cellTransitions: Transitions, row: seq<int>, dirs: seq<Direction>, cell: int, heading: Direction, ca: nat)
    requires |row| == |dirs| <= |env.agents| && ca < |row|
  {
    && row[ca] == cell
    && ((heading != dirs[ca] && cellTransitions[ReverseDir(dirs[ca])]) || env.agents[ca].status == Done)
  }

  /** The lowest row index at or after `from` that qualifies. */
  function FirstQualifying(env: Env, cellTransitions: Transitions, row: seq<int>, dirs: seq<Direction>, cell: int, heading: Direction, from: nat): (r: Option<nat>)
    requires |row| == |dirs| <= |env.agents| && from <= |row|
    ensures r.Some? ==> from <= r.value < |row| && Qualifies(env, cellTransitions, row, dirs, cell, heading, r.value)
    ensures r.Some? ==> forall j :: from <= j < r.value ==> !Qualifies(env, cellTransitions, row, dirs, cell, heading, j)
    ensures r.None? ==> forall j :: from <= j < |row| ==> !Qualifies(env, cellTransitions, row, dirs, cell, heading, j)
    decreases |row| - from
  {
    if from == |row| then None
    else if Qualifies(env, cellTransitions, row, dirs, cell, heading, from) then Some(from)
    else FirstQualifying(env, cellTransitions, row, dirs, cell, heading, from + 1)
  }

  datatype Conflict = Conflict(distance: nat, agent: nat)

  /**
   * The `for ca in np.where(...)` loop: keeps `potential` if one was found at
   * an earlier distance, otherwise records the first qualifying occupant at
   * distance `totDist`.
   */
  method ScanOccupants(env: Env, cellTransitions: Transitions, row: seq<int>, dirs: seq<Direction>, cell: int, heading: Direction,
                       totDist: nat, potential: Option<Conflict>)
    returns (r: Option<Conflict>)
    requires |row| == |dirs| <= |env.agents|
    requires potential.Some? ==> potential.value.distance < totDist
    ensures potential.Some? ==> r == potential
    ensures potential.None? ==>
              r == match FirstQualifying(env, cellTransitions, row, dirs, cell, heading, 0)
                   case Some(ca) => Some(Conflict(totDist, ca))
                   case None => None
  {
    r := potential;
    for ca := 0 to |row|
      invariant potential.Some? ==> r == potential
      invariant potential.None? && r.None? ==>
                  forall j :: 0 <= j < ca ==> !Qualifies(env, cellTransitions, row, dirs, cell, heading, j)
      invariant potential.None? && r.Some? ==>
                  && r.value.distance == totDist && r.value.agent < ca
                  && Qualifies(env, cellTransitions, row, dirs, cell, heading, r.value.agent)
                  && forall j :: 0 <= j < r.value.agent ==> !Qualifies(env, cellTransitions, row, dirs, cell, heading, j)
    {
      if row[ca] == cell {
        if heading != dirs[ca] && cellTransitions[ReverseDir(dirs[ca])] && (r.None? || totDist < r.value.distance) {
          r := Some(Conflict(totDist, ca));
        }
        if env.agents[ca].status == Done && (r.None? || totDist < r.value.distance) {
          r := Some(Conflict(totDist, ca));
        }
      }
    }
  }

  datatype Fault =
    | MissingTick(tick: nat)  // `predicted_pos[predicted_time]` raises KeyError
    | DeadEnd                 // the walk reached (None, None) and the loop went on

  /** The snapshot `detect_conflicts` reads: the environment, whether a predictor is configured, the tables. */
  datatype Snapshot = Snapshot(env: Env, hasPredictor: bool, tables: Tables)

  /** The fixed arguments of one `detect_conflicts` call. */
  datatype Query = Query(handle: nat, timePerCell: int, cellTransitions: Transitions)

  /** The tables are only consulted when a predictor is configured. */
  ghost predicate Ready(s: Snapshot, q: Query)
  {
    && WellFormed(s.env)
    && q.handle < |s.env.agents|
    && q.timePerCell >= 1
    && (s.hasPredictor ==> TablesFit(s.env, s.tables, q.handle))
  }

  function OccupantAt(s: Snapshot, q: Query, t: nat, cell: int, heading: Direction): Option<nat>
    requires Ready(s, q) && s.hasPredictor && t < |s.tables.pos|
  {
    FirstQualifying(s.env, q.cellTransitions, s.tables.pos[t], s.tables.dir[t], cell, heading, 0)
  }

  /** The walker's state: a cell and heading, or (None, None) once no move was legal. */
  datatype Walk = At(pos: Position, dir: Direction) | Lost

  function NextWalk(env: Env, handle: nat, w: Walk): (n: Walk)
    requires WellFormed(env) && handle < |env.agents| && (w.At? ==> InGrid(env, w.pos))
    ensures n.At? ==> InGrid(env, n.pos)
  {
    match w
    case Lost => Lost
    case At(p, d) =>
      match ShortestPathMove(env, handle, p, d)
      case None => Lost
      case Some(m) => At(NewPosition(p, m), m)
  }

  function WalkAfter(env: Env, handle: nat, w: Walk, n: nat): (r: Walk)
    requires WellFormed(env) && handle < |env.agents| && (w.At? ==> InGrid(env, w.pos))
    ensures r.At? ==> InGrid(env, r.pos)
    decreases n
  {
    if n == 0 then w else WalkAfter(env, handle, NextWalk(env, handle, w), n - 1)
  }

  /**
   * The body of one iteration at distance `totDist`: fails on a lost walk or
   * a tick missing from the table; otherwise, while `totDist` is inside the
   * horizon, the qualifying occupant at the predicted tick, or else at the
   * tick before, or else at the tick after, each consulted only when no
   * other agent stands on the cell at the tick before it in that order.
   */
  function Examine(s: Snapshot, q: Query, totDist: nat, w: Walk): Result<Option<nat>, Fault>
    requires Ready(s, q) && s.hasPredictor && (w.At? ==> InGrid(s.env, w.pos))
  {
    var depth := |s.tables.pos|;
    if w.Lost? then Failure(DeadEnd)
    else if totDist >= depth then Success(None)
    else
      var predictedTime := Tick(totDist, q.timePerCell);
      if predictedTime >= depth then Failure(MissingTick(predictedTime))
      else
        var preStep := if predictedTime - 1 > 0 then predictedTime - 1 else 0;
        var postStep := if depth - 1 < predictedTime + 1 then depth - 1 else predictedTime + 1;
        var cell := CellIndex(s.env.width, w.pos);
        if OccupiedByOther(s.tables.pos[predictedTime], cell, q.handle) then
          Success(OccupantAt(s, q, predictedTime, cell, w.dir))
        else if OccupiedByOther(s.tables.pos[preStep], cell, q.handle) then
          Success(OccupantAt(s, q, preStep, cell, w.dir))
        else if OccupiedByOther(s.tables.pos[postStep], cell, q.handle) then
          Success(OccupantAt(s, q, postStep, cell, w.dir))
        else
          Success(None)
  }

  /**
   * `int(tot_dist * time_per_cell)`, the tick at which the agent reaches the
   * cell `totDist` cells ahead, written as repeated addition.
   */
  function Tick(totDist: nat, timePerCell: int): (t: int)
    ensures timePerCell >= 1 ==> t >= totDist
    ensures timePerCell == 1 ==> t == totDist
  {
    if totDist == 0 then 0 else Tick(totDist - 1, timePerCell) + timePerCell
  }

  /** What one iteration finds: a fault, or the row index of a qualifying occupant, or nothing. */
  type Finding = Result<Option<nat>, Fault>

  /**
   * What the iterations of the `detect_conflicts` loop find, from the loop
   * head on: `guardTime` is the `predicted_time` the guard tests, computed in
   * the previous iteration (or before the loop).
   */
  function Findings(s: Snapshot, q: Query, totDist: nat, guardTime: nat, w: Walk): seq<Finding>
    requires Ready(s, q) && totDist <= guardTime + 1 && (w.At? ==> InGrid(s.env, w.pos))
    decreases |s.tables.pos| + 1 - totDist
  {
    if !s.hasPredictor || guardTime >= |s.tables.pos| then []
    else
      [Examine(s, q, totDist, w)] + Findings(s, q, totDist + 1, Tick(totDist, q.timePerCell), NextWalk(s.env, q.handle, w))
  }

  /**
   * Iteration n examines distance totDist + n at the cell reached after n
   * steps along the shortest path: the loop walks the agent's shortest path
   * one cell per iteration.
   */
  lemma {:induction false} FindingAt(s: Snapshot, q: Query, totDist: nat, guardTime: nat, w: Walk, n: nat)
    requires Ready(s, q) && s.hasPredictor && totDist <= guardTime + 1 && (w.At? ==> InGrid(s.env, w.pos))
    requires n < |Findings(s, q, totDist, guardTime, w)|
    ensures Findings(s, q, totDist, guardTime, w)[n] == Examine(s, q, totDist + n, WalkAfter(s.env, q.handle, w, n))
    decreases n
  {
    if n > 0 {
      var next := NextWalk(s.env, q.handle, w);
      FindingAt(s, q, totDist + 1, Tick(totDist, q.timePerCell), next, n - 1);
      assert Findings(s, q, totDist, guardTime, w)[n] == Findings(s, q, totDist + 1, Tick(totDist, q.timePerCell), next)[n - 1];
    }
  }

  lemma FindingsFollowPath(s: Snapshot, q: Query, totDist: nat, guardTime: nat, w: Walk)
    requires Ready(s, q) && s.hasPredictor && totDist <= guardTime + 1 && (w.At? ==> InGrid(s.env, w.pos))
    ensures forall n :: 0 <= n < |Findings(s, q, totDist, guardTime, w)| ==>
              Findings(s, q, totDist, guardTime, w)[n] == Examine(s, q, totDist + n, WalkAfter(s.env, q.handle, w, n))
  {
    forall n | 0 <= n < |Findings(s, q, totDist, guardTime, w)| {
      FindingAt(s, q, totDist, guardTime, w, n);
    }
  }


  /**
   * The outcome of the loop over its findings, the first at distance
   * `totDist`: a fault ends the loop; otherwise a conflict found at an
   * earlier distance wins over later ones.
   */
  function Outcome(findings: seq<Finding>, totDist: nat): Result<Option<Conflict>, Fault>
    decreases |findings|
  {
    if findings == [] then Success(None)
    else
      var rest := Outcome(findings[1..], totDist + 1);
      if findings[0].Failure? then Failure(findings[0].error)
      else if rest.Failure? then rest
      else if findings[0].value.Some? then Success(Some(Conflict(totDist, findings[0].value.value)))
      else rest
  }

  /** The loop fails exactly when some iteration raised, and then with the first fault raised. */
  lemma {:induction false} OutcomeFailsAtFirstFault(findings: seq<Finding>, totDist: nat)
    ensures Outcome(findings, totDist).Failure? <==> exists i :: 0 <= i < |findings| && findings[i].Failure?
    ensures Outcome(findings, totDist).Failure? ==>
              exists i :: && 0 <= i < |findings| && findings[i] == Failure(Outcome(findings, totDist).error)
                          && forall j :: 0 <= j < i ==> findings[j].Success?
    decreases |findings|
  {
    if findings != [] {
      OutcomeFailsAtFirstFault(findings[1..], totDist + 1);
      assert forall j :: 1 <= j < |findings| ==> findings[j] == findings[1..][j - 1];
      if Outcome(findings, totDist).Failure? && findings[0].Success? {
        var i :| && 0 <= i < |findings[1..]| && findings[1..][i] == Failure(Outcome(findings, totDist).error)
                 && forall j :: 0 <= j < i ==> findings[1..][j].Success?;
        assert findings[i + 1] == Failure(Outcome(findings, totDist).error);
      }
    }
  }

  /**
   * A conflict the loop reports comes from the first iteration that found an
   * occupant, at that iteration's distance, and no iteration raised.
   */
  lemma {:induction false} OutcomeReportsFirstFinding(findings: seq<Finding>, totDist: nat)
    requires Outcome(findings, totDist).Success? && Outcome(findings, totDist).value.Some?
    ensures var c := Outcome(findings, totDist).value.value;
            && totDist <= c.distance < totDist + |findings|
            && findings[c.distance - totDist] == Success(Some(c.agent))
            && forall j :: 0 <= j < c.distance - totDist ==> findings[j] == Success(None)
    decreases |findings|
  {
    var rest := Outcome(findings[1..], totDist + 1);
    if findings[0].value.None? {
      OutcomeReportsFirstFinding(findings[1..], totDist + 1);
      assert forall j :: 1 <= j < |findings| ==> findings[j] == findings[1..][j - 1];
    }
  }

  /** When the loop reports nothing, every iteration found nothing. */
  lemma {:induction false} OutcomeNoneMeansClear(findings: seq<Finding>, totDist: nat)
    requires Outcome(findings, totDist) == Success(None)
    ensures forall j :: 0 <= j < |findings| ==> findings[j] == Success(None)
    decreases |findings|
  {
    if findings != [] {
      OutcomeNoneMeansClear(findings[1..], totDist + 1);
      assert forall j :: 1 <= j < |findings| ==> findings[j] == findings[1..][j - 1];
    }
  }

  /** With one tick per cell the predicted tick is the distance itself, so no table lookup can miss. */
  lemma {:induction false} UnitSpeedNeverMissesTick(s: Snapshot, q: Query, totDist: nat, guardTime: nat, w: Walk)
    requires Ready(s, q) && totDist <= guardTime + 1 && (w.At? ==> InGrid(s.env, w.pos))
    ensures q.timePerCell == 1 ==> forall n :: 0 <= n < |Findings(s, q, totDist, guardTime, w)| ==>
              !Findings(s, q, totDist, guardTime, w)[n].Failure? || Findings(s, q, totDist, guardTime, w)[n].error == DeadEnd
    decreases |s.tables.pos| + 1 - totDist
  {
    if s.hasPredictor && guardTime < |s.tables.pos| {
      UnitSpeedNeverMissesTick(s, q, totDist + 1, Tick(totDist, q.timePerCell), NextWalk(s.env, q.handle, w));
    }
  }

  /** `detect_conflicts(tot_dist, time_per_cell, position, cell_transitions, handle, direction)` */
  function Detect(s: Snapshot, q: Query, totDist: nat, position: Position, direction: Direction): (r: Result<Option<Conflict>, Fault>)
    requires Ready(s, q) && InGrid(s.env, position)
    ensures !s.hasPredictor || |s.tables.pos| == 0 ==> r == Success(None)
  {
    Outcome(Findings(s, q, totDist, Tick(totDist, q.timePerCell), At(position, direction)), totDist)
  }

  /**
   * A conflict `detect_conflicts` reports lies at least `totDist` and less
   * than the prediction depth cells ahead along the shortest path, its agent
   * qualifies at the tick examined there, and no cell before it on the path
   * produced one.
   */
  lemma DetectReportsEarliest(s: Snapshot, q: Query, totDist: nat, position: Position, direction: Direction)
    requires Ready(s, q) && s.hasPredictor && InGrid(s.env, position)
    requires Detect(s, q, totDist, position, direction).Success? && Detect(s, q, totDist, position, direction).value.Some?
    ensures var c := Detect(s, q, totDist, position, direction).value.value;
            && totDist <= c.distance < |s.tables.pos|
            && Examine(s, q, c.distance, WalkAfter(s.env, q.handle, At(position, direction), c.distance - totDist))
               == Success(Some(c.agent))
            && forall n :: 0 <= n < c.distance - totDist ==>
                 Examine(s, q, totDist + n, WalkAfter(s.env, q.handle, At(position, direction), n)) == Success(None)
  {
    var findings := Findings(s, q, totDist, Tick(totDist, q.timePerCell), At(position, direction));
    FindingsFollowPath(s, q, totDist, Tick(totDist, q.timePerCell), At(position, direction));
    OutcomeReportsFirstFinding(findings, totDist);
    var c := Outcome(findings, totDist).value.value;
    var k := c.distance - totDist;
    assert findings[k] == Examine(s, q, totDist + k, WalkAfter(s.env, q.handle, At(position, direction), k));
  }

  /** When `detect_conflicts` reports nothing, no cell it examined along the shortest path produced a conflict. */
  lemma DetectNoneMeansClear(s: Snapshot, q: Query, totDist: nat, position: Position, direction: Direction)
    requires Ready(s, q) && s.hasPredictor && InGrid(s.env, position)
    requires Detect(s, q, totDist, position, direction) == Success(None)
    ensures forall n :: 0 <= n < |Findings(s, q, totDist, Tick(totDist, q.timePerCell), At(position, direction))| ==>
              Examine(s, q, totDist + n, WalkAfter(s.env, q.handle, At(position, direction), n)) == Success(None)
  {
    OutcomeNoneMeansClear(Findings(s, q, totDist, Tick(totDist, q.timePerCell), At(position, direction)), totDist);
    FindingsFollowPath(s, q, totDist, Tick(totDist, q.timePerCell), At(position, direction));
  }

  /** With one tick per cell, the only fault `detect_conflicts` can meet is a dead end. */
  lemma DetectUnitSpeed(s: Snapshot, q: Query, totDist: nat, position: Position, direction: Direction)
    requires Ready(s, q) && InGrid(s.env, position) && q.timePerCell == 1
    ensures Detect(s, q, totDist, position, direction).Failure? ==> Detect(s, q, totDist, position, direction).error == DeadEnd
  {
    UnitSpeedNeverMissesTick(s, q, totDist, Tick(totDist, q.timePerCell), At(position, direction));
    OutcomeFailsAtFirstFault(Findings(s, q, totDist, Tick(totDist, q.timePerCell), At(position, direction)), totDist);
  }

  /** A result found earlier takes precedence over what the remaining iterations find, unless they fail. */
  function Combine(found: Option<Conflict>, rest: Result<Option<Conflict>, Fault>): Result<Option<Conflict>, Fault>
  {
    if rest.Failure? then rest else if found.Some? then Success(found) else rest
  }

  /**
   * What one iteration leaves: the fault it raised, or the conflict kept from
   * an earlier distance, or the one it found at this distance.
   */
  function AfterCell(here: Finding, potential: Option<Conflict>, totDist: nat): Result<Option<Conflict>, Fault>
  {
    if here.Failure? then Failure(here.error)
    else if potential.Some? then Success(potential)
    else if here.value.Some? then Success(Some(Conflict(totDist, here.value.value)))
    else Success(None)
  }

  /** What the rest of the loop returns from a distance, cell and heading, given the conflict kept so far. */
  ghost function Pending(s: Snapshot, q: Query, totDist: nat, guardTime: nat, w: Walk, potential: Option<Conflict>): Result<Option<Conflict>, Fault>
    requires Ready(s, q) && totDist <= guardTime + 1 && (w.At? ==> InGrid(s.env, w.pos))
  {
    Combine(potential, Outcome(Findings(s, q, totDist, guardTime, w), totDist))
  }

  /** Once the tick leaves the tables, nothing is left to examine. */
  lemma FindingsEnd(s: Snapshot, q: Query, totDist: nat, guardTime: nat, w: Walk)
    requires Ready(s, q) && totDist <= guardTime + 1 && (w.At? ==> InGrid(s.env, w.pos))
    requires !s.hasPredictor || guardTime >= |s.tables.pos|
    ensures Findings(s, q, totDist, guardTime, w) == []
  {
  }

  /** One unfolding of the loop: the first iteration's finding, then the rest of the walk. */
  lemma FindingsStep(s: Snapshot, q: Query, totDist: nat, guardTime: nat, w: Walk, potential: Option<Conflict>)
    requires Ready(s, q) && totDist <= guardTime + 1 && (w.At? ==> InGrid(s.env, w.pos))
    requires s.hasPredictor && guardTime < |s.tables.pos|
    ensures var rest := Outcome(Findings(s, q, totDist + 1, Tick(totDist, q.timePerCell), NextWalk(s.env, q.handle, w)), totDist + 1);
            var step := AfterCell(Examine(s, q, totDist, w), potential, totDist);
            Combine(potential, Outcome(Findings(s, q, totDist, guardTime, w), totDist))
            == if step.Failure? then step else Combine(step.value, rest)
  {
    var xs := Findings(s, q, totDist, guardTime, w);
    assert xs[1..] == Findings(s, q, totDist + 1, Tick(totDist, q.timePerCell), NextWalk(s.env, q.handle, w));
  }

  /**
   * The body of the `detect_conflicts` loop at one distance: raises on a lost
   * walk or a missing tick, otherwise scans the occupants of the first of the
   * predicted tick, the tick before and the tick after that has another
   * agent on the cell.
   */
  method ExamineCell(s: Snapshot, q: Query, totDist: nat, walk: Walk, potential: Option<Conflict>)
    returns (r: Result<Option<Conflict>, Fault>)
    requires Ready(s, q) && s.hasPredictor && (walk.At? ==> InGrid(s.env, walk.pos))
    requires potential.Some? ==> potential.value.distance < totDist
    ensures r == AfterCell(Examine(s, q, totDist, walk), potential, totDist)
  {
    var depth := |s.tables.pos|;
    var predictedTime := Tick(totDist, q.timePerCell);
    if walk.Lost? {
      return Failure(DeadEnd);
    }
    var potentialConflict := potential;
    var intPosition := CellIndex(s.env.width, walk.pos);
    if totDist < depth {
      if predictedTime >= depth {
        return Failure(MissingTick(predictedTime));
      }
      var preStep := if predictedTime - 1 > 0 then predictedTime - 1 else 0;
      var postStep := if depth - 1 < predictedTime + 1 then depth - 1 else predictedTime + 1;
      if OccupiedByOther(s.tables.pos[predictedTime], intPosition, q.handle) {
        potentialConflict := ScanOccupants(s.env, q.cellTransitions, s.tables.pos[predictedTime], s.tables.dir[predictedTime],
                                           intPosition, walk.dir, totDist, potentialConflict);
      } else if OccupiedByOther(s.tables.pos[preStep], intPosition, q.handle) {
        potentialConflict := ScanOccupants(s.env, q.cellTransitions, s.tables.pos[preStep], s.tables.dir[preStep],
                                           intPosition, walk.dir, totDist, potentialConflict);
      } else if OccupiedByOther(s.tables.pos[postStep], intPosition, q.handle) {
        potentialConflict := ScanOccupants(s.env, q.cellTransitions, s.tables.pos[postStep], s.tables.dir[postStep],
                                           intPosition, walk.dir, totDist, potentialConflict);
      }
    }
    r := Success(potentialConflict);
  }

  /** `position, direction = self.get_shortest_path_position(...)`: one more cell along the shortest path. */
  method Advance(env: Env, handle: nat, walk: Walk) returns (next: Walk)
    requires WellFormed(env) && handle < |env.agents| && walk.At? && InGrid(env, walk.pos)
    ensures next == NextWalk(env, handle, walk)
  {
    var nextPos, nextMove := ShortestPathPosition(env, handle, walk.pos, walk.dir);
    next := if nextMove.Some? then At(nextPos.value, nextMove.value) else Lost;
  }

  /**
   * One pass of the loop in `detect_conflicts`: examine the current cell,
   * then move one cell along the shortest path.
   */
  method WalkStep(s: Snapshot, q: Query, totDist: nat, predictedTime: nat, walk: Walk, potential: Option<Conflict>)
    returns (r: Result<(Option<Conflict>, Walk), Fault>)
    requires Ready(s, q) && s.hasPredictor && predictedTime < |s.tables.pos| && totDist <= predictedTime + 1
    requires walk.At? ==> InGrid(s.env, walk.pos)
    requires potential.Some? ==> potential.value.distance < totDist
    ensures r.Failure? ==> Pending(s, q, totDist, predictedTime, walk, potential) == Failure(r.error)
    ensures r.Success? ==>
              && (r.value.1.At? ==> InGrid(s.env, r.value.1.pos))
              && (r.value.0.Some? ==> r.value.0.value.distance <= totDist)
              && Pending(s, q, totDist, predictedTime, walk, potential)
                 == Pending(s, q, totDist + 1, Tick(totDist, q.timePerCell), r.value.1, r.value.0)
  {
    FindingsStep(s, q, totDist, predictedTime, walk, potential);
    var step := ExamineCell(s, q, totDist, walk, potential);
    if step.Failure? {
      return Failure(step.error);
    }
    var next := Advance(s.env, q.handle, walk);
    return Success((step.value, next));
  }

  /**
   * `detect_conflicts`: walks the shortest path from the given cell and
   * heading, one cell and one tick at a time, until the tick leaves the
   * prediction tables, and reports the first conflict found.
   */
  method DetectConflicts(s: Snapshot, q: Query, totDist0: nat, position: Position, direction: Direction)
    returns (r: Result<Option<Conflict>, Fault>)
    requires Ready(s, q) && InGrid(s.env, position)
    ensures r == Detect(s, q, totDist0, position, direction)
  {
    r := WalkPath(s, q, totDist0, Tick(totDist0, q.timePerCell), At(position, direction), None);
  }

  /** The `while` loop of `detect_conflicts`, entered at distance totDist with the conflict kept so far. */
  method WalkPath(s: Snapshot, q: Query, totDist0: nat, predictedTime0: nat, walk0: Walk, potential0: Option<Conflict>)
    returns (r: Result<Option<Conflict>, Fault>)
    requires Ready(s, q) && totDist0 <= predictedTime0 + 1 && (walk0.At? ==> InGrid(s.env, walk0.pos))
    requires potential0.Some? ==> potential0.value.distance < totDist0
    ensures r == Pending(s, q, totDist0, predictedTime0, walk0, potential0)
  {
    var depth := |s.tables.pos|;
    var potentialConflict := potential0;
    var totDist: nat := totDist0;
    var predictedTime: nat := predictedTime0;
    var walk := walk0;
    while s.hasPredictor && predictedTime < depth
      invariant totDist <= predictedTime + 1
      invariant walk.At? ==> InGrid(s.env, walk.pos)
      invariant potentialConflict.Some? ==> potentialConflict.value.distance < totDist
      invariant Pending(s, q, totDist, predictedTime, walk, potentialConflict)
                == Pending(s, q, totDist0, predictedTime0, walk0, potential0)
      decreases depth + 1 - totDist
    {
      var step := WalkStep(s, q, totDist, predictedTime, walk, potentialConflict);
      if step.Failure? {
        return Failure(step.error);
      }
      potentialConflict, walk := step.value.0, step.value.1;
      predictedTime := Tick(totDist, q.timePerCell);
      totDist := totDist + 1;
    }
    FindingsEnd(s, q, totDist, predictedTime, walk);
    r := Success(potentialConflict);
  }
}
