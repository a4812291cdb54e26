/**
 * The conflict-priority shortest-path observation: for every agent, up to two
 * candidate moves from the cell it is considered to stand on, each with its
 * distance to target and whether following it meets another agent; the
 * conflicts found form two graphs whose colouring sets each agent's priority
 * bits.
 */
module ConflictObservation {
  import opened Flatland
  import opened ConflictDetection

  /** `len(self._directions) + 3`: a one-hot heading, the distance fraction, the conflict bit, the priority bit. */
  const PathSize: nat := 7

  /** `self._path_size * 2`: room for two candidate moves. */
  const ObsSize: nat := 14

  /** A legal move from the agent's cell, its distance to target, and the row index of the agent it conflicts with. */
  datatype Candidate = Candidate(move: Direction, distance: nat, conflict: Option<nat>)

  datatype ObsFault =
    | Detection(fault: Fault)   // `detect_conflicts` raised
    | TooManyMoves(count: nat)  // a third candidate does not fit the 14-slot array (numpy broadcast error)
    | NoDistanceScale           // a move is legal but the largest finite distance is 0: its fraction is not a number
    | Uncoloured(handle: nat)   // the colouring has no entry for an observed agent (KeyError)

  /** The observation tuple: 14 integer slots and whether the agent has left its start. */
  datatype PriorityObs = PriorityObs(features: seq<int>, departed: int)

  /** The snapshot fits `detect_conflicts` for `handle`: the environment is well formed and the tables fit. */
  ghost predicate Fits(s: Snapshot, handle: nat)
  {
    && WellFormed(s.env)
    && handle < |s.env.agents|
    && (s.hasPredictor ==> TablesFit(s.env, s.tables, handle))
  }

  /**
   * The builder's snapshot is usable for `handle`: the environment is well
   * formed, and the tables fit wherever `get` consults them, which is only for
   * an agent that has not been removed.
   */
  ghost predicate Usable(s: Snapshot, handle: nat)
  {
    && WellFormed(s.env)
    && handle < |s.env.agents|
    && (s.env.agents[handle].status != DoneRemoved ==> Fits(s, handle))
  }

  /** The arguments `get` passes to `detect_conflicts` for move `m` out of `p`. */
  function MoveQuery(env: Env, handle: nat, p: Position, m: Direction): Query
    requires handle < |env.agents|
  {
    Query(handle, env.agents[handle].timePerCell, env.rail(NewPosition(p, m), m))
  }

  function ConflictAgent(found: Option<Conflict>): Option<nat>
  {
    match found
    case None => None
    case Some(c) => Some(c.agent)
  }

  /**
   * What `get` learns about one move out of the agent's cell: nothing when
   * the rail does not allow it, otherwise the distance to target of the cell
   * it enters and what `detect_conflicts` reports from there.
   */
  datatype MoveInfo = Illegal | LegalMove(distance: nat, found: Result<Option<Conflict>, Fault>)

  function MoveAt(s: Snapshot, handle: nat, p: Position, heading: Direction, m: Direction): MoveInfo
    requires Fits(s, handle) && InGrid(s.env, p)
  {
    if !Legal(s.env, p, heading, m) then Illegal
    else
      var pos := NewPosition(p, m);
      LegalMove(EffectiveDistance(s.env, handle, pos, m), Detect(s, MoveQuery(s.env, handle, p, m), 1, pos, m))
  }

  /** The four moves, indexed by direction. */
  function Moves(s: Snapshot, handle: nat, p: Position, heading: Direction): (r: seq<MoveInfo>)
    requires Fits(s, handle) && InGrid(s.env, p)
    ensures |r| == 4
    ensures forall m: Direction :: r[m] == MoveAt(s, handle, p, heading, m)
  {
    [MoveAt(s, handle, p, heading, 0), MoveAt(s, handle, p, heading, 1),
     MoveAt(s, handle, p, heading, 2), MoveAt(s, handle, p, heading, 3)]
  }

  /** A legal move's distance never exceeds the largest finite distance. */
  lemma MovesBounded(s: Snapshot, handle: nat, p: Position, heading: Direction)
    requires Fits(s, handle) && InGrid(s.env, p)
    ensures forall m: Direction :: Moves(s, handle, p, heading)[m].LegalMove? ==>
              Moves(s, handle, p, heading)[m].distance <= MaxDistance(s.env)
  {
    forall m: Direction | Legal(s.env, p, heading, m) {
      EffectiveDistanceBounded(s.env, handle, NewPosition(p, m), m);
    }
  }

  /**
   * The candidates for moves k..3, in direction order: one per legal move,
   * or the first fault `detect_conflicts` raised.
   */
  function CandidatesOf(moves: seq<MoveInfo>, k: nat): (r: Result<seq<Candidate>, Fault>)
    requires |moves| == 4 && k <= 4
    ensures r.Success? ==> |r.value| <= 4 - k
    decreases 4 - k
  {
    if k == 4 then Success([])
    else match moves[k]
      case Illegal => CandidatesOf(moves, k + 1)
      case LegalMove(distance, found) =>
        if found.Failure? then Failure(found.error)
        else
          var rest := CandidatesOf(moves, k + 1);
          if rest.Failure? then rest
          else Success([Candidate(k, distance, ConflictAgent(found.value))] + rest.value)
  }

  /** Every candidate is a legal move from k on, with that move's distance and reported conflict. */
  lemma {:induction false} CandidatesAreLegalMoves(moves: seq<MoveInfo>, k: nat)
    requires |moves| == 4 && k <= 4
    requires CandidatesOf(moves, k).Success?
    ensures var c := CandidatesOf(moves, k).value;
            forall i :: 0 <= i < |c| ==>
              && k <= c[i].move
              && moves[c[i].move].LegalMove?
              && moves[c[i].move].distance == c[i].distance
              && moves[c[i].move].found.Success?
              && c[i].conflict == ConflictAgent(moves[c[i].move].found.value)
    decreases 4 - k
  {
    if k < 4 {
      CandidatesAreLegalMoves(moves, k + 1);
      if moves[k].LegalMove? {
        var c := CandidatesOf(moves, k).value;
        var rest := CandidatesOf(moves, k + 1).value;
        assert c == [c[0]] + rest;
        assert forall i :: 1 <= i < |c| ==> c[i] == rest[i - 1];
      }
    }
  }

  /** The candidates come in strictly increasing direction order. */
  lemma {:induction false} CandidatesAscend(moves: seq<MoveInfo>, k: nat)
    requires |moves| == 4 && k <= 4
    requires CandidatesOf(moves, k).Success?
    ensures var c := CandidatesOf(moves, k).value;
            && (forall i :: 0 <= i < |c| ==> k <= c[i].move)
            && (forall i, j :: 0 <= i < j < |c| ==> c[i].move < c[j].move)
    decreases 4 - k
  {
    if k < 4 {
      CandidatesAscend(moves, k + 1);
      if moves[k].LegalMove? {
        var c := CandidatesOf(moves, k).value;
        var rest := CandidatesOf(moves, k + 1).value;
        assert c == [c[0]] + rest;
        assert forall i :: 1 <= i < |c| ==> c[i] == rest[i - 1];
      }
    }
  }

  /** Every legal move from k on has a candidate. */
  lemma {:induction false} CandidatesCoverLegalMoves(moves: seq<MoveInfo>, k: nat)
    requires |moves| == 4 && k <= 4
    requires CandidatesOf(moves, k).Success?
    ensures forall m: Direction :: k <= m && moves[m].LegalMove? ==>
              exists i :: 0 <= i < |CandidatesOf(moves, k).value| && CandidatesOf(moves, k).value[i].move == m
    decreases 4 - k
  {
    if k < 4 {
      CandidatesCoverLegalMoves(moves, k + 1);
      var c := CandidatesOf(moves, k).value;
      var rest := CandidatesOf(moves, k + 1).value;
      forall m: Direction | k <= m && moves[m].LegalMove?
        ensures exists i :: 0 <= i < |c| && c[i].move == m
      {
        if !moves[k].LegalMove? {
          assert m != k;
        } else if m == k {
          assert c[0].move == m;
        } else {
          assert c == [c[0]] + rest;
          var i :| 0 <= i < |rest| && rest[i].move == m;
          assert c[i + 1].move == m;
        }
      }
    }
  }

  /**
   * The candidates fail exactly when some legal move's detection fails, and
   * then with the fault of the lowest such move.
   */
  lemma {:induction false} CandidatesFailAtFirstFault(moves: seq<MoveInfo>, k: nat)
    requires |moves| == 4 && k <= 4
    ensures CandidatesOf(moves, k).Failure? <==>
              exists m: Direction :: k <= m && moves[m].LegalMove? && moves[m].found.Failure?
    ensures forall m: Direction ::
              (&& k <= m && moves[m].LegalMove? && moves[m].found.Failure?
               && forall n: Direction :: k <= n < m && moves[n].LegalMove? ==> moves[n].found.Success?)
              ==> CandidatesOf(moves, k) == Failure(moves[m].found.error)
    decreases 4 - k
  {
    if k < 4 {
      CandidatesFailAtFirstFault(moves, k + 1);
      var kd: Direction := k;
      if moves[k].LegalMove? && moves[k].found.Failure? {
        assert k <= kd && moves[kd].LegalMove? && moves[kd].found.Failure?;
      }
    }
  }

  /** One pass of `get`'s loop over the moves, up to the call of `detect_conflicts`. */
  method InspectMove(s: Snapshot, handle: nat, p: Position, heading: Direction, m: Direction) returns (move: MoveInfo)
    requires Fits(s, handle) && InGrid(s.env, p)
    ensures move == MoveAt(s, handle, p, heading, m)
  {
    if !s.env.rail(p, heading)[m] {
      return Illegal;
    }
    var pos := NewPosition(p, m);
    var distance := EffectiveDistance(s.env, handle, pos, m);
    var cellTransitions := s.env.rail(pos, m);
    var found := DetectConflicts(s, Query(handle, s.env.agents[handle].timePerCell, cellTransitions), 1, pos, m);
    return LegalMove(distance, found);
  }

  /** The candidates already gathered followed by those still to come. */
  function Prepend(steps: seq<Candidate>, rest: Result<seq<Candidate>, Fault>): Result<seq<Candidate>, Fault>
  {
    if rest.Failure? then rest else Success(steps + rest.value)
  }

  /** One move of `get`'s loop: skip an illegal move, stop at a fault, or gather the candidate. */
  lemma CandidatesStep(moves: seq<MoveInfo>, k: nat, steps: seq<Candidate>)
    requires |moves| == 4 && k < 4
    ensures moves[k].Illegal? ==> Prepend(steps, CandidatesOf(moves, k)) == Prepend(steps, CandidatesOf(moves, k + 1))
    ensures moves[k].LegalMove? && moves[k].found.Failure? ==> CandidatesOf(moves, k) == Failure(moves[k].found.error)
    ensures moves[k].LegalMove? && moves[k].found.Success? ==>
              Prepend(steps, CandidatesOf(moves, k))
              == Prepend(steps + [Candidate(k, moves[k].distance, ConflictAgent(moves[k].found.value))], CandidatesOf(moves, k + 1))
  {
    if moves[k].LegalMove? && moves[k].found.Success? {
      var c := Candidate(k, moves[k].distance, ConflictAgent(moves[k].found.value));
      if CandidatesOf(moves, k + 1).Success? {
        assert steps + ([c] + CandidatesOf(moves, k + 1).value) == (steps + [c]) + CandidatesOf(moves, k + 1).value;
      }
    }
  }

  /** Before the first move nothing has been gathered; after the last, nothing is left to come. */
  lemma PrependNothing(steps: seq<Candidate>, rest: Result<seq<Candidate>, Fault>)
    ensures Prepend([], rest) == rest
    ensures Prepend(steps, Success([])) == Success(steps)
  {
    if rest.Success? {
      assert [] + rest.value == rest.value;
    }
    assert steps + [] == steps;
  }

  /** The row indices of the conflicting agents, in candidate order. */
  function Conflicts(cs: seq<Candidate>): (r: seq<nat>)
    ensures |r| <= |cs|
  {
    if cs == [] then []
    else (if cs[0].conflict.Some? then [cs[0].conflict.value] else []) + Conflicts(cs[1..])
  }

  lemma {:induction false} ConflictsAreReported(cs: seq<Candidate>)
    ensures forall a :: a in Conflicts(cs) <==> exists i :: 0 <= i < |cs| && cs[i].conflict == Some(a)
  {
    if cs != [] {
      ConflictsAreReported(cs[1..]);
      assert forall i :: 1 <= i < |cs| ==> cs[i] == cs[1..][i - 1];
      forall a | exists i :: 0 <= i < |cs| && cs[i].conflict == Some(a)
        ensures a in Conflicts(cs)
      {
        var i :| 0 <= i < |cs| && cs[i].conflict == Some(a);
        if i > 0 {
          assert cs[1..][i - 1].conflict == Some(a);
        }
      }
    }
  }

  /** What the first candidate (the lowest legal direction) contributes to the shortest-path conflict map. */
  function ShortestPathConflicts(cs: seq<Candidate>): (r: seq<nat>)
    ensures |r| <= 1
    ensures r == [] <==> cs == [] || cs[0].conflict.None?
    ensures r != [] ==> Some(r[0]) == cs[0].conflict
  {
    if cs == [] then [] else Conflicts(cs[..1])
  }

  /** What the later candidates contribute to the other-path conflict map. */
  function OtherConflicts(cs: seq<Candidate>): seq<nat>
  {
    if cs == [] then [] else Conflicts(cs[1..])
  }

  /** Together the two maps receive one entry per conflicting candidate, so at most one per legal move. */
  lemma ConflictsSplit(cs: seq<Candidate>)
    ensures ShortestPathConflicts(cs) + OtherConflicts(cs) == Conflicts(cs)
    ensures |ShortestPathConflicts(cs)| + |OtherConflicts(cs)| <= |cs|
  {
    if cs != [] {
      assert cs[..1][1..] == [];
      assert Conflicts(cs[..1]) == (if cs[0].conflict.Some? then [cs[0].conflict.value] else []);
    }
  }

  lemma {:induction false} ConflictsAppend(cs: seq<Candidate>, c: Candidate)
    ensures Conflicts(cs + [c]) == Conflicts(cs) + if c.conflict.Some? then [c.conflict.value] else []
  {
    if cs != [] {
      assert (cs + [c])[1..] == cs[1..] + [c];
      ConflictsAppend(cs[1..], c);
    } else {
      assert [c][1..] == [];
    }
  }

  /**
   * Appending a candidate: the first one goes to the shortest-path list, any
   * later one to the other-path list.
   */
  lemma SplitAppend(cs: seq<Candidate>, c: Candidate)
    ensures ShortestPathConflicts(cs + [c])
            == if cs == [] && c.conflict.Some? then [c.conflict.value] else ShortestPathConflicts(cs)
    ensures OtherConflicts(cs + [c])
            == if cs != [] && c.conflict.Some? then OtherConflicts(cs) + [c.conflict.value] else OtherConflicts(cs)
  {
    if cs != [] {
      assert (cs + [c])[..1] == cs[..1];
      assert (cs + [c])[1..] == cs[1..] + [c];
      ConflictsAppend(cs[1..], c);
      if c.conflict.None? {
        assert Conflicts(cs[1..]) + [] == Conflicts(cs[1..]);
      }
    } else {
      assert [c][1..] == [] && [c][..1] == [c];
      assert Conflicts([c][1..]) == [];
    }
  }

  /** `sorted(possible_steps, key=lambda step: step[1])` for at most two steps: stable, ascending distance. */
  function SortByDistance(cs: seq<Candidate>): (r: seq<Candidate>)
    requires |cs| <= 2
    ensures |r| == |cs| && multiset(r) == multiset(cs)
    ensures forall i, j :: 0 <= i < j < |r| ==> r[i].distance <= r[j].distance
    ensures |cs| == 2 && cs[0].distance <= cs[1].distance ==> r == cs
  {
    if |cs| == 2 && cs[1].distance < cs[0].distance then
      assert cs == [cs[0], cs[1]];
      [cs[1], cs[0]]
    else cs
  }

  function Zeros(n: nat): (r: seq<int>)
    ensures |r| == n && forall i :: 0 <= i < n ==> r[i] == 0
  {
    seq(n, _ => 0)
  }

  /**
   * The seven slots of one step, as stored in the integer array: the one-hot
   * heading, the distance fraction truncated to an integer, the conflict
   * bit and the priority bit (the negated conflict bit).
   */
  function StepSlots(c: Candidate, maxDistance: nat): (v: seq<int>)
    requires maxDistance > 0
    ensures |v| == PathSize
    ensures forall i :: 0 <= i < 4 ==> v[i] == if i == c.move then 1 else 0
    ensures c.distance <= maxDistance ==> v[4] == if c.distance == maxDistance then 1 else 0
    ensures v[5] == (if c.conflict.Some? then 1 else 0) && v[6] == 1 - v[5]
  {
    var oneHot := seq(4, i => if i == c.move then 1 else 0);
    oneHot + [c.distance / maxDistance, if c.conflict.Some? then 1 else 0, if c.conflict.Some? then 0 else 1]
  }

  /** The slots of the steps, in order, padded with zeros to 14. */
  function Layout(steps: seq<Candidate>, maxDistance: nat): (v: seq<int>)
    requires |steps| <= 2 && (|steps| > 0 ==> maxDistance > 0)
    ensures |v| == ObsSize
  {
    if |steps| == 0 then Zeros(14)
    else if |steps| == 1 then StepSlots(steps[0], maxDistance) + Zeros(7)
    else StepSlots(steps[0], maxDistance) + StepSlots(steps[1], maxDistance)
  }

  /** Writing step i's slots over the layout of the steps before it gives the layout of the steps up to i. */
  lemma LayoutExtend(steps: seq<Candidate>, i: nat, maxDistance: nat)
    requires i < |steps| <= 2 && maxDistance > 0
    ensures var before := Layout(steps[..i], maxDistance);
            before[..PathSize * i] + StepSlots(steps[i], maxDistance) + before[PathSize * (i + 1)..]
            == Layout(steps[..i + 1], maxDistance)
  {
    var before := Layout(steps[..i], maxDistance);
    if i == 0 {
      assert before[7..] == Zeros(7);
    } else {
      assert steps[..1] == [steps[0]] && steps[..2] == [steps[0], steps[1]];
      assert before[..7] == StepSlots(steps[0], maxDistance);
    }
  }

  /** The loop that writes each step's slots into the zero-filled array. */
  method FillSlots(steps: seq<Candidate>, maxDistance: nat) returns (obs: seq<int>)
    requires |steps| <= 2 && (|steps| > 0 ==> maxDistance > 0)
    ensures obs == Layout(steps, maxDistance)
  {
    obs := Zeros(ObsSize);
    assert steps[..0] == [];
    for i := 0 to |steps|
      invariant obs == Layout(steps[..i], maxDistance)
    {
      LayoutExtend(steps, i, maxDistance);
      obs := obs[..PathSize * i] + StepSlots(steps[i], maxDistance) + obs[PathSize * (i + 1)..];
    }
    assert steps[..|steps|] == steps;
  }

  /**
   * The end of `get`: the candidates sorted by distance and laid out in the
   * 14-slot array, with the departure flag.
   */
  method BuildObservation(status: Status, possibleSteps: seq<Candidate>, maxDistance: nat)
    returns (r: Result<Option<PriorityObs>, ObsFault>)
    ensures r == Assess(status, Success(possibleSteps), maxDistance).value.obs
  {
    if |possibleSteps| > 2 {
      return Failure(TooManyMoves(|possibleSteps|));
    }
    if |possibleSteps| > 0 && maxDistance == 0 {
      return Failure(NoDistanceScale);
    }
    var sorted := SortByDistance(possibleSteps);
    var obs := FillSlots(sorted, maxDistance);
    r := Success(Some(PriorityObs(obs, if status == ReadyToDepart then 0 else 1)));
  }

  /** Slots 7i..7i+6 hold step i; slots past the last step are 0. */
  lemma LayoutPlacesSteps(steps: seq<Candidate>, maxDistance: nat)
    requires |steps| <= 2 && (|steps| > 0 ==> maxDistance > 0)
    ensures forall i :: 0 <= i < |steps| ==>
              Layout(steps, maxDistance)[PathSize * i .. PathSize * (i + 1)] == StepSlots(steps[i], maxDistance)
    ensures forall k :: PathSize * |steps| <= k < ObsSize ==> Layout(steps, maxDistance)[k] == 0
  {
  }

  /**
   * What `get` computes for one agent: the shortest-path and other-path
   * conflicts it appends to the two maps, and the observation (none for an
   * agent that has been removed).
   */
  datatype Evaluation = Evaluation(spConflicts: seq<nat>, otherConflicts: seq<nat>, obs: Result<Option<PriorityObs>, ObsFault>)

  /** The evaluation of an agent that stands somewhere, from its candidates. */
  function Assess(status: Status, found: Result<seq<Candidate>, Fault>, maxDistance: nat): (r: Result<Evaluation, Fault>)
    ensures r.Success? <==> found.Success?
    ensures r.Success? && r.value.obs.Success? ==>
              && r.value.obs.value.Some?
              && |r.value.obs.value.value.features| == ObsSize
              && r.value.obs.value.value.departed == (if status == ReadyToDepart then 0 else 1)
    ensures r.Success? ==> |r.value.spConflicts| <= 1
  {
    if found.Failure? then Failure(found.error)
    else
      var cs := found.value;
      var obs :=
        if |cs| > 2 then Failure(TooManyMoves(|cs|))
        else if |cs| > 0 && maxDistance == 0 then Failure(NoDistanceScale)
        else Success(Some(PriorityObs(Layout(SortByDistance(cs), maxDistance),
                                      if status == ReadyToDepart then 0 else 1)));
      Success(Evaluation(ShortestPathConflicts(cs), OtherConflicts(cs), obs))
  }

  function Evaluate(s: Snapshot, handle: nat): (r: Result<Evaluation, Fault>)
    requires Usable(s, handle)
    ensures r.Success? && r.value.obs.Success? ==>
              (r.value.obs.value.None? <==> s.env.agents[handle].status == DoneRemoved)
    ensures r.Success? && r.value.obs.Success? && r.value.obs.value.Some? ==>
              && |r.value.obs.value.value.features| == ObsSize
              && r.value.obs.value.value.departed == (if s.env.agents[handle].status == ReadyToDepart then 0 else 1)
    ensures r.Success? ==> |r.value.spConflicts| <= 1
  {
    var agent := s.env.agents[handle];
    match VirtualPosition(agent)
    case None => Success(Evaluation([], [], Success(None)))
    case Some(vp) => Assess(agent.status, CandidatesOf(Moves(s, handle, vp, agent.direction), 0), MaxDistance(s.env))
  }

  /** An agent that stands nowhere has no conflicts and no observation. */
  lemma EvaluateRemoved(s: Snapshot, handle: nat)
    requires Usable(s, handle) && s.env.agents[handle].status == DoneRemoved
    ensures Evaluate(s, handle) == Success(Evaluation([], [], Success(None)))
  {
  }

  /** An agent that stands on `vp` is assessed from the candidates among its moves out of `vp`. */
  lemma EvaluateStanding(s: Snapshot, handle: nat, vp: Position)
    requires Usable(s, handle) && VirtualPosition(s.env.agents[handle]) == Some(vp)
    ensures var agent := s.env.agents[handle];
            Evaluate(s, handle) == Assess(agent.status, CandidatesOf(Moves(s, handle, vp, agent.direction), 0), MaxDistance(s.env))
  {
  }

  /** Appending nothing to an entry leaves the map as it was. */
  lemma AppendNothing(m: map<nat, seq<nat>>, h: nat)
    requires h in m
    ensures m[h := m[h] + []] == m
  {
    assert m[h] + [] == m[h];
  }

  /** The moves out of the cell an agent stands on. */
  function AgentMoves(s: Snapshot, handle: nat): (r: seq<MoveInfo>)
    requires Usable(s, handle) && VirtualPosition(s.env.agents[handle]).Some?
    ensures |r| == 4
  {
    var agent := s.env.agents[handle];
    Moves(s, handle, VirtualPosition(agent).value, agent.direction)
  }

  /**
   * The 14 slots `v` hold `steps` in order: each step occupies its seven
   * slots, its distance slot is 1 exactly at the largest finite distance, and
   * the slots past the last step are 0.
   */
  predicate LaysOut(v: seq<int>, steps: seq<Candidate>, maxDistance: nat)
  {
    && |v| == ObsSize && |steps| <= 2 && (|steps| > 0 ==> maxDistance > 0)
    && (forall i :: 0 <= i < |steps| ==> v[PathSize * i .. PathSize * (i + 1)] == StepSlots(steps[i], maxDistance))
    && (forall i :: 0 <= i < |steps| ==> v[PathSize * i + 4] == if steps[i].distance == maxDistance then 1 else 0)
    && (forall k :: PathSize * |steps| <= k < ObsSize ==> v[k] == 0)
  }

  /** An observation assessed from candidates `cs` lays out `cs` sorted by distance. */
  lemma AssessLaysOutSteps(status: Status, cs: seq<Candidate>, maxDistance: nat)
    requires Assess(status, Success(cs), maxDistance).value.obs.Success?
    requires forall i :: 0 <= i < |cs| ==> cs[i].distance <= maxDistance
    ensures |cs| <= 2 && (|cs| > 0 ==> maxDistance > 0)
    ensures multiset(SortByDistance(cs)) == multiset(cs)
    ensures LaysOut(Assess(status, Success(cs), maxDistance).value.obs.value.value.features, SortByDistance(cs), maxDistance)
  {
    var steps := SortByDistance(cs);
    var v := Assess(status, Success(cs), maxDistance).value.obs.value.value.features;
    assert |cs| <= 2 && (|cs| > 0 ==> maxDistance > 0) && v == Layout(steps, maxDistance);
    LayoutPlacesSteps(steps, maxDistance);
    forall i | 0 <= i < |steps|
      ensures v[PathSize * i + 4] == if steps[i].distance == maxDistance then 1 else 0
    {
      assert steps[i] in multiset(cs);
      assert v[PathSize * i .. PathSize * (i + 1)][4] == v[PathSize * i + 4];
    }
  }

  /** With no legal move the observation is 14 zeros, whatever the distance scale. */
  lemma AssessWithoutMoves(status: Status, maxDistance: nat)
    ensures Assess(status, Success([]), maxDistance).value.obs
            == Success(Some(PriorityObs(Zeros(ObsSize), if status == ReadyToDepart then 0 else 1)))
  {
  }

  /**
   * An observation lists the agent's legal moves sorted by distance, each
   * with its one-hot heading, a distance slot that is 1 exactly at the
   * largest finite distance, and complementary conflict and priority bits;
   * its shortest-path conflict is that of the lowest legal direction.
   */
  lemma EvaluateDescribesMoves(s: Snapshot, handle: nat)
    requires Usable(s, handle) && VirtualPosition(s.env.agents[handle]).Some?
    requires Evaluate(s, handle).Success? && Evaluate(s, handle).value.obs.Success?
    ensures CandidatesOf(AgentMoves(s, handle), 0).Success?
    ensures var moves := AgentMoves(s, handle);
            var cs := CandidatesOf(moves, 0).value;
            var steps := SortByDistance(cs);
            var maxDistance := MaxDistance(s.env);
            var v := Evaluate(s, handle).value.obs.value.value.features;
            && |cs| <= 2 && (|cs| > 0 ==> maxDistance > 0)
            && multiset(steps) == multiset(cs)
            && (forall i :: 0 <= i < |steps| ==>
                  moves[steps[i].move].LegalMove? && steps[i].distance == moves[steps[i].move].distance)
            && LaysOut(v, steps, maxDistance)
            && Evaluate(s, handle).value.spConflicts == ShortestPathConflicts(cs)
  {
    var agent := s.env.agents[handle];
    var vp := VirtualPosition(agent).value;
    MovesBounded(s, handle, vp, agent.direction);
    EvaluateStanding(s, handle, vp);
    AssessDescribesMoves(agent.status, AgentMoves(s, handle), MaxDistance(s.env));
  }

  /** The same, for any four moves whose legal distances are within the scale. */
  lemma AssessDescribesMoves(status: Status, moves: seq<MoveInfo>, maxDistance: nat)
    requires |moves| == 4
    requires forall m: Direction :: moves[m].LegalMove? ==> moves[m].distance <= maxDistance
    requires var r := Assess(status, CandidatesOf(moves, 0), maxDistance);
             r.Success? && r.value.obs.Success?
    ensures CandidatesOf(moves, 0).Success?
    ensures var cs := CandidatesOf(moves, 0).value;
            var steps := SortByDistance(cs);
            var e := Assess(status, CandidatesOf(moves, 0), maxDistance).value;
            && |cs| <= 2 && (|cs| > 0 ==> maxDistance > 0)
            && multiset(steps) == multiset(cs)
            && (forall i :: 0 <= i < |steps| ==>
                  moves[steps[i].move].LegalMove? && steps[i].distance == moves[steps[i].move].distance)
            && LaysOut(e.obs.value.value.features, steps, maxDistance)
            && e.spConflicts == ShortestPathConflicts(cs)
  {
    var cs := CandidatesOf(moves, 0).value;
    var steps := SortByDistance(cs);
    CandidatesAreLegalMoves(moves, 0);
    AssessLaysOutSteps(status, cs, maxDistance);
    forall i | 0 <= i < |steps|
      ensures moves[steps[i].move].LegalMove? && steps[i].distance == moves[steps[i].move].distance
    {
      assert steps[i] in multiset(cs);
    }
  }

  /** The priority bits written back: slot 6 from the shortest-path colouring, slot 13 from the other-path one. */
  function WithPriorities(o: PriorityObs, spPriority: int, otherPriority: int): (r: PriorityObs)
    requires |o.features| == ObsSize
    ensures |r.features| == ObsSize && r.departed == o.departed
    ensures r.features[6] == spPriority && r.features[13] == otherPriority
    ensures forall k :: 0 <= k < ObsSize && k != 6 && k != 13 ==> r.features[k] == o.features[k]
  {
    PriorityObs(o.features[6 := spPriority][13 := otherPriority], o.departed)
  }

  /**
   * `GreedyGraphColoring.color(colors=[1, 0], nodes, neighbors)`: a level per
   * node, given the nodes and the conflict map as neighbour lists.
   */
  type Colouring = (seq<nat>, map<nat, seq<nat>>) -> map<nat, int>

  /** `obs_dict.keys()`: the handles without repeats, in first-occurrence order. */
  function Nodes(handles: seq<nat>): (r: seq<nat>)
    ensures forall h :: h in r <==> h in handles
    ensures forall i, j :: 0 <= i < j < |r| ==> r[i] != r[j]
    ensures forall i, j, k :: 0 <= i < j < |r| && 0 <= k < |handles| && handles[k] == r[j] ==> r[i] in handles[..k]
  {
    if handles == [] then []
    else
      var init := handles[..|handles| - 1];
      var rest := Nodes(init);
      var last := handles[|handles| - 1];
      assert forall h :: h in handles <==> h in init || h == last;
      assert forall k :: 0 <= k < |init| ==> handles[..k] == init[..k];
      if last in rest then rest else rest + [last]
  }

  /** `{handle: [] for handle in handles}` */
  function EmptyLists(handles: seq<nat>): (m: map<nat, seq<nat>>)
    ensures forall h :: h in m <==> h in handles
    ensures forall h :: h in m ==> m[h] == []
  {
    map h | h in handles :: []
  }

  ghost predicate AllUsable(s: Snapshot, handles: seq<nat>)
  {
    forall i :: 0 <= i < |handles| ==> Usable(s, handles[i])
  }

  /** The first i handles are usable, and the first i + 1 are those followed by handle i. */
  lemma PrefixUsable(s: Snapshot, handles: seq<nat>, i: nat)
    requires i < |handles| && AllUsable(s, handles)
    ensures AllUsable(s, handles[..i]) && AllUsable(s, handles[..i + 1])
    ensures handles[..i + 1][..i] == handles[..i] && handles[..i + 1][i] == handles[i]
    ensures handles[..i + 1] == handles[..i] + [handles[i]]
  {
    assert forall j :: 0 <= j <= i ==> handles[..i + 1][j] == handles[j];
  }

  /** `get` completed: an observation was built, and it has the 14 slots. */
  predicate Complete(e: Evaluation)
  {
    e.obs.Success? && (e.obs.value.Some? ==> |e.obs.value.value.features| == ObsSize)
  }

  /** What `get(handle)` delivers: an evaluation whose observation was built, or the fault it raised. */
  function Observed(s: Snapshot, handle: nat): (r: Result<Evaluation, ObsFault>)
    requires Usable(s, handle)
    ensures r.Success? ==> Complete(r.value)
  {
    match Evaluate(s, handle)
    case Failure(f) => Failure(Detection(f))
    case Success(e) => if e.obs.Failure? then Failure(e.obs.error) else Success(e)
  }

  /** `get` returned `o`, as `Evaluate` describes it: `o` is the delivered observation or its fault. */
  lemma ObservedIsGet(s: Snapshot, handle: nat, o: Result<Option<PriorityObs>, ObsFault>)
    requires Usable(s, handle)
    requires Evaluate(s, handle).Failure? ==> o == Failure(Detection(Evaluate(s, handle).error))
    requires Evaluate(s, handle).Success? ==> o == Evaluate(s, handle).value.obs
    ensures o.Failure? ==> Observed(s, handle) == Failure(o.error)
    ensures o.Success? ==> Evaluate(s, handle).Success? && Observed(s, handle) == Success(Evaluate(s, handle).value)
  {
  }

  /** What `get` delivers for each handle, in order. */
  function Outcomes(s: Snapshot, handles: seq<nat>): (rs: seq<Result<Evaluation, ObsFault>>)
    requires AllUsable(s, handles)
    ensures |rs| == |handles|
  {
    seq(|handles|, i requires 0 <= i < |handles| => Observed(s, handles[i]))
  }

  lemma OutcomeAt(s: Snapshot, handles: seq<nat>, i: nat)
    requires AllUsable(s, handles) && i < |handles|
    ensures Outcomes(s, handles)[i] == Observed(s, handles[i])
  {
  }

  /** The outcomes of a prefix of the handles are a prefix of the outcomes. */
  lemma OutcomesPrefix(s: Snapshot, handles: seq<nat>, i: nat)
    requires i <= |handles| && AllUsable(s, handles) && AllUsable(s, handles[..i])
    ensures Outcomes(s, handles[..i]) == Outcomes(s, handles)[..i]
  {
    assert forall j :: 0 <= j < i ==> handles[..i][j] == handles[j];
  }

  /** Results taken in turn: all their values, or the first failure. */
  function Collected(rs: seq<Result<Evaluation, ObsFault>>): (r: Result<seq<Evaluation>, ObsFault>)
    ensures r.Success? ==> |r.value| == |rs|
  {
    if rs == [] then Success([])
    else
      var before := Collected(rs[..|rs| - 1]);
      if before.Failure? then before
      else match rs[|rs| - 1]
        case Failure(f) => Failure(f)
        case Success(e) => Success(before.value + [e])
  }

  /** Every value of a successful collection is the value at that position. */
  lemma {:induction false} CollectedAt(rs: seq<Result<Evaluation, ObsFault>>, i: nat)
    requires Collected(rs).Success? && i < |rs|
    ensures rs[i] == Success(Collected(rs).value[i])
  {
    var n := |rs| - 1;
    if i < n {
      CollectedAt(rs[..n], i);
    }
  }

  /** Once a prefix fails, the whole collection fails the same way. */
  lemma {:induction false} CollectedKeepsFault(rs: seq<Result<Evaluation, ObsFault>>, i: nat)
    requires i <= |rs| && Collected(rs[..i]).Failure?
    ensures Collected(rs) == Collected(rs[..i])
    decreases |rs| - i
  {
    if i < |rs| {
      assert rs[..i + 1][..i] == rs[..i];
      CollectedKeepsFault(rs, i + 1);
    } else {
      assert rs[..i] == rs;
    }
  }

  /** A failed collection fails with the first failure, every result before it a success. */
  lemma {:induction false} CollectedFirstFault(rs: seq<Result<Evaluation, ObsFault>>)
    requires Collected(rs).Failure?
    ensures exists i :: 0 <= i < |rs| && rs[i] == Failure(Collected(rs).error)
                        && forall j :: 0 <= j < i ==> rs[j].Success?
  {
    var n := |rs| - 1;
    var init := rs[..n];
    if Collected(init).Failure? {
      assert Collected(rs) == Collected(init);
      CollectedFirstFault(init);
      var i :| 0 <= i < n && init[i] == Failure(Collected(init).error) && forall j :: 0 <= j < i ==> init[j].Success?;
      assert rs[i] == init[i];
      assert forall j :: 0 <= j < i ==> rs[j] == init[j];
    } else {
      forall j | 0 <= j < n
        ensures rs[j].Success?
      {
        CollectedAt(init, j);
        assert rs[j] == init[j];
      }
      assert rs[n] == Failure(Collected(rs).error);
    }
  }

  /**
   * `get` run for each handle in turn: the evaluations, or the fault of the
   * first handle whose `get` raises.
   */
  function EvaluateAll(s: Snapshot, handles: seq<nat>): (r: Result<seq<Evaluation>, ObsFault>)
    requires AllUsable(s, handles)
    ensures r.Success? ==> |r.value| == |handles| && forall i :: 0 <= i < |handles| ==> Complete(r.value[i])
  {
    EvaluateAllComplete(s, handles);
    Collected(Outcomes(s, handles))
  }

  lemma EvaluateAllComplete(s: Snapshot, handles: seq<nat>)
    requires AllUsable(s, handles)
    ensures var r := Collected(Outcomes(s, handles));
            r.Success? ==> forall i :: 0 <= i < |handles| ==> Complete(r.value[i])
  {
    var rs := Outcomes(s, handles);
    if Collected(rs).Success? {
      forall i | 0 <= i < |handles|
        ensures Complete(Collected(rs).value[i])
      {
        CollectedAt(rs, i);
        OutcomeAt(s, handles, i);
      }
    }
  }

  /** Once a prefix of the handles raises, the whole run raises the same fault. */
  lemma EvaluateAllKeepsFault(s: Snapshot, handles: seq<nat>, i: nat)
    requires i <= |handles| && AllUsable(s, handles) && AllUsable(s, handles[..i])
    requires EvaluateAll(s, handles[..i]).Failure?
    ensures EvaluateAll(s, handles) == EvaluateAll(s, handles[..i])
  {
    OutcomesPrefix(s, handles, i);
    CollectedKeepsFault(Outcomes(s, handles), i);
  }

  /** Running one more handle: the run so far, extended by what `get` delivers for it. */
  lemma EvaluateAllSnoc(s: Snapshot, handles: seq<nat>, i: nat)
    requires i < |handles| && AllUsable(s, handles) && AllUsable(s, handles[..i]) && AllUsable(s, handles[..i + 1])
    requires EvaluateAll(s, handles[..i]).Success?
    ensures Observed(s, handles[i]).Failure? ==> EvaluateAll(s, handles[..i + 1]) == Failure(Observed(s, handles[i]).error)
    ensures Observed(s, handles[i]).Success? ==>
              EvaluateAll(s, handles[..i + 1]) == Success(EvaluateAll(s, handles[..i]).value + [Observed(s, handles[i]).value])
  {
    var rs := Outcomes(s, handles[..i + 1]);
    OutcomesPrefix(s, handles[..i + 1], i);
    assert handles[..i + 1][..i] == handles[..i];
    OutcomeAt(s, handles[..i + 1], i);
  }

  /** A completed run holds, at each position, what `get` delivered for that handle. */
  lemma EvaluateAllAt(s: Snapshot, handles: seq<nat>, i: nat)
    requires AllUsable(s, handles) && EvaluateAll(s, handles).Success? && i < |handles|
    ensures Observed(s, handles[i]) == Success(EvaluateAll(s, handles).value[i])
  {
    CollectedAt(Outcomes(s, handles), i);
    OutcomeAt(s, handles, i);
  }

  /**
   * A run that raises raises the fault of some handle's `get`, and every
   * handle before that one completed.
   */
  lemma EvaluateAllFirstFault(s: Snapshot, handles: seq<nat>)
    requires AllUsable(s, handles) && EvaluateAll(s, handles).Failure?
    ensures exists i :: 0 <= i < |handles| && Observed(s, handles[i]) == Failure(EvaluateAll(s, handles).error)
                        && forall j :: 0 <= j < i ==> Observed(s, handles[j]).Success?
  {
    var rs := Outcomes(s, handles);
    CollectedFirstFault(rs);
    var i :| 0 <= i < |rs| && rs[i] == Failure(Collected(rs).error) && forall j :: 0 <= j < i ==> rs[j].Success?;
    OutcomeAt(s, handles, i);
    forall j | 0 <= j < i
      ensures Observed(s, handles[j]).Success?
    {
      OutcomeAt(s, handles, j);
    }
  }

  /** The lists `get` appended to one of the maps, evaluation by evaluation. */
  function Lists(evals: seq<Evaluation>, shortestPath: bool): (r: seq<seq<nat>>)
    ensures |r| == |evals|
    ensures forall i :: 0 <= i < |evals| ==> r[i] == if shortestPath then evals[i].spConflicts else evals[i].otherConflicts
  {
    seq(|evals|, i requires 0 <= i < |evals| => if shortestPath then evals[i].spConflicts else evals[i].otherConflicts)
  }

  lemma ListsAppend(evals: seq<Evaluation>, e: Evaluation, shortestPath: bool)
    ensures Lists(evals + [e], shortestPath) == Lists(evals, shortestPath) + [if shortestPath then e.spConflicts else e.otherConflicts]
  {
  }

  /** The conflict map after `lists[i]` was appended to the entry of `handles[i]`, for each i in turn, starting from `m`. */
  function Collect(handles: seq<nat>, lists: seq<seq<nat>>, m: map<nat, seq<nat>>): (r: map<nat, seq<nat>>)
    requires |lists| == |handles|
    requires forall i :: 0 <= i < |handles| ==> handles[i] in m
    ensures r.Keys == m.Keys
  {
    if handles == [] then m
    else
      var n := |handles| - 1;
      var before := Collect(handles[..n], lists[..n], m);
      before[handles[n] := before[handles[n]] + lists[n]]
  }

  lemma CollectAppend(handles: seq<nat>, lists: seq<seq<nat>>, m: map<nat, seq<nat>>, h: nat, l: seq<nat>)
    requires |lists| == |handles| && h in m
    requires forall i :: 0 <= i < |handles| ==> handles[i] in m
    ensures Collect(handles + [h], lists + [l], m)
            == Collect(handles, lists, m)[h := Collect(handles, lists, m)[h] + l]
  {
    assert (handles + [h])[..|handles|] == handles;
    assert (lists + [l])[..|lists|] == lists;
  }

  /**
   * With each handle listed once, a handle's entry gains exactly its own
   * list, and entries of handles not listed are left alone.
   */
  lemma {:induction false} CollectFrom(handles: seq<nat>, lists: seq<seq<nat>>, m: map<nat, seq<nat>>)
    requires |lists| == |handles|
    requires forall i :: 0 <= i < |handles| ==> handles[i] in m
    requires forall i, j :: 0 <= i < j < |handles| ==> handles[i] != handles[j]
    ensures forall i :: 0 <= i < |handles| ==> Collect(handles, lists, m)[handles[i]] == m[handles[i]] + lists[i]
    ensures forall h :: h in m && h !in handles ==> Collect(handles, lists, m)[h] == m[h]
  {
    if handles != [] {
      var n := |handles| - 1;
      CollectFrom(handles[..n], lists[..n], m);
      forall i | 0 <= i < n
        ensures handles[i] in handles[..n] && handles[i] != handles[n]
      {
        assert handles[..n][i] == handles[i];
      }
    }
  }

  /** Starting from empty lists, each listed handle's entry is exactly its own list. */
  lemma CollectPerAgent(handles: seq<nat>, lists: seq<seq<nat>>)
    requires |lists| == |handles|
    requires forall i, j :: 0 <= i < j < |handles| ==> handles[i] != handles[j]
    ensures forall i :: 0 <= i < |handles| ==> Collect(handles, lists, EmptyLists(handles))[handles[i]] == lists[i]
  {
    CollectFrom(handles, lists, EmptyLists(handles));
    forall i | 0 <= i < |handles|
      ensures Collect(handles, lists, EmptyLists(handles))[handles[i]] == lists[i]
    {
      assert [] + lists[i] == lists[i];
    }
  }

  /**
   * `{handle: self.get(handle) for handle in handles}` from the evaluations:
   * a repeated handle's later observation overwrites the earlier one.
   */
  function ObsMap(handles: seq<nat>, evals: seq<Evaluation>): (r: map<nat, Option<PriorityObs>>)
    requires |evals| == |handles| && forall i :: 0 <= i < |evals| ==> Complete(evals[i])
    ensures r.Keys == set h | h in handles
    ensures forall h :: h in r && r[h].Some? ==> |r[h].value.features| == ObsSize
  {
    if handles == [] then map[]
    else
      var n := |handles| - 1;
      assert forall h :: h in handles <==> h in handles[..n] || h == handles[n];
      assert forall i :: 0 <= i < n ==> evals[..n][i] == evals[i];
      assert Complete(evals[n]);
      ObsMap(handles[..n], evals[..n])[handles[n] := evals[n].obs.value]
  }

  lemma ObsMapAppend(handles: seq<nat>, evals: seq<Evaluation>, h: nat, e: Evaluation)
    requires |evals| == |handles| && forall i :: 0 <= i < |evals| ==> Complete(evals[i])
    requires Complete(e)
    ensures ObsMap(handles + [h], evals + [e]) == ObsMap(handles, evals)[h := e.obs.value]
  {
    assert (handles + [h])[..|handles|] == handles;
    assert (evals + [e])[..|evals|] == evals;
  }

  /** One more handle observed: its lists appended to its entries of both maps, and its observation recorded. */
  lemma RecordNext(handles: seq<nat>, i: nat, evals: seq<Evaluation>, e: Evaluation)
    requires i < |handles| && |evals| == i && forall j :: 0 <= j < i ==> Complete(evals[j])
    requires Complete(e)
    ensures var sp := Collect(handles[..i], Lists(evals, true), EmptyLists(handles));
            Collect(handles[..i + 1], Lists(evals + [e], true), EmptyLists(handles))
              == sp[handles[i] := sp[handles[i]] + e.spConflicts]
    ensures var other := Collect(handles[..i], Lists(evals, false), EmptyLists(handles));
            Collect(handles[..i + 1], Lists(evals + [e], false), EmptyLists(handles))
              == other[handles[i] := other[handles[i]] + e.otherConflicts]
    ensures ObsMap(handles[..i + 1], evals + [e]) == ObsMap(handles[..i], evals)[handles[i] := e.obs.value]
  {
    assert handles[..i + 1] == handles[..i] + [handles[i]];
    ListsAppend(evals, e, true);
    ListsAppend(evals, e, false);
    CollectAppend(handles[..i], Lists(evals, true), EmptyLists(handles), handles[i], e.spConflicts);
    CollectAppend(handles[..i], Lists(evals, false), EmptyLists(handles), handles[i], e.otherConflicts);
    ObsMapAppend(handles[..i], evals, handles[i], e);
  }

  /**
   * A handle's entry is the observation of its own position when every later
   * occurrence of the same handle was evaluated the same way.
   */
  lemma {:induction false} ObsMapEntry(handles: seq<nat>, evals: seq<Evaluation>, i: nat)
    requires |evals| == |handles| && forall k :: 0 <= k < |evals| ==> Complete(evals[k])
    requires i < |handles|
    requires forall j :: i < j < |handles| && handles[j] == handles[i] ==> evals[j] == evals[i]
    ensures ObsMap(handles, evals)[handles[i]] == evals[i].obs.value
  {
    var n := |handles| - 1;
    if i < n && handles[i] != handles[n] {
      var hs, es := handles[..n], evals[..n];
      assert forall k :: 0 <= k < n ==> hs[k] == handles[k] && es[k] == evals[k];
      ObsMapEntry(hs, es, i);
    }
  }

  /** When equal handles have equal evaluations, each handle's entry is its own observation. */
  lemma ObsMapAt(handles: seq<nat>, evals: seq<Evaluation>)
    requires |evals| == |handles| && forall i :: 0 <= i < |evals| ==> Complete(evals[i])
    requires forall i, j :: 0 <= i < |handles| && 0 <= j < |handles| && handles[i] == handles[j] ==> evals[i] == evals[j]
    ensures forall i :: 0 <= i < |handles| ==> ObsMap(handles, evals)[handles[i]] == evals[i].obs.value
  {
    forall i | 0 <= i < |handles|
      ensures ObsMap(handles, evals)[handles[i]] == evals[i].obs.value
    {
      ObsMapEntry(handles, evals, i);
    }
  }

  /**
   * `obs_dict` of a completed run: every handle's entry is the observation
   * `get` delivers for that handle, even when the handle is listed twice.
   */
  lemma ObservationsAreEachGet(s: Snapshot, handles: seq<nat>)
    requires AllUsable(s, handles) && EvaluateAll(s, handles).Success?
    ensures var evals := EvaluateAll(s, handles).value;
            forall i :: 0 <= i < |handles| ==>
              Observed(s, handles[i]) == Success(evals[i]) && ObsMap(handles, evals)[handles[i]] == evals[i].obs.value
  {
    var evals := EvaluateAll(s, handles).value;
    forall i | 0 <= i < |handles|
      ensures Observed(s, handles[i]) == Success(evals[i])
    {
      EvaluateAllAt(s, handles, i);
    }
    ObsMapAt(handles, evals);
  }

  /** The observations after the priorities are written back. */
  function Prioritised(o: Option<PriorityObs>, sp: map<nat, int>, op: map<nat, int>, h: nat): Option<PriorityObs>
    requires o.Some? ==> |o.value.features| == ObsSize && h in sp && h in op
  {
    match o
    case None => None
    case Some(x) => Some(WithPriorities(x, sp[h], op[h]))
  }

  /** What `get`'s loop over the moves gathers: the candidates and the conflicts bound for each map. */
  datatype Gathered = Gathered(steps: seq<Candidate>, spFound: seq<nat>, otherFound: seq<nat>)

  /**
   * One pass of `get`'s loop once the move has been inspected: an illegal
   * move adds nothing, a fault ends the loop, and a legal move adds its
   * candidate, its conflict going to the shortest-path list when it is the
   * first candidate and to the other-path list otherwise.
   */
  method GatherMove(ghost moves: seq<MoveInfo>, k: Direction, move: MoveInfo, acc: Gathered) returns (r: Result<Gathered, Fault>)
    requires |moves| == 4 && moves[k] == move && |acc.steps| <= k
    requires acc.spFound == ShortestPathConflicts(acc.steps) && acc.otherFound == OtherConflicts(acc.steps)
    ensures r.Failure? ==> Prepend(acc.steps, CandidatesOf(moves, k)) == Failure(r.error)
    ensures r.Success? ==>
              && |r.value.steps| <= k + 1
              && Prepend(acc.steps, CandidatesOf(moves, k)) == Prepend(r.value.steps, CandidatesOf(moves, k + 1))
              && r.value.spFound == ShortestPathConflicts(r.value.steps)
              && r.value.otherFound == OtherConflicts(r.value.steps)
  {
    CandidatesStep(moves, k, acc.steps);
    if move.Illegal? {
      return Success(acc);
    }
    if move.found.Failure? {
      return Failure(move.found.error);
    }
    var conflict := ConflictAgent(move.found.value);
    var candidate := Candidate(k, move.distance, conflict);
    SplitAppend(acc.steps, candidate);
    var spFound, otherFound := acc.spFound, acc.otherFound;
    if conflict.Some? && |acc.steps| == 0 {
      spFound := spFound + [conflict.value];
    } else if conflict.Some? {
      otherFound := otherFound + [conflict.value];
    }
    return Success(Gathered(acc.steps + [candidate], spFound, otherFound));
  }

  /**
   * `get`'s loop over the four moves: the candidates in direction order and
   * the conflicts bound for each map, or the first detection fault.
   */
  method GatherCandidates(s: Snapshot, handle: nat, p: Position, heading: Direction) returns (r: Result<Gathered, Fault>)
    requires Fits(s, handle) && InGrid(s.env, p)
    ensures var expected := CandidatesOf(Moves(s, handle, p, heading), 0);
            && (r.Failure? <==> expected.Failure?)
            && (r.Failure? ==> r.error == expected.error)
            && (r.Success? ==>
                  && r.value.steps == expected.value
                  && r.value.spFound == ShortestPathConflicts(expected.value)
                  && r.value.otherFound == OtherConflicts(expected.value))
  {
    ghost var moves := Moves(s, handle, p, heading);
    var acc := Gathered([], [], []);
    PrependNothing([], CandidatesOf(moves, 0));
    for movement := 0 to 4
      invariant |acc.steps| <= movement
      invariant CandidatesOf(moves, 0) == Prepend(acc.steps, CandidatesOf(moves, movement))
      invariant acc.spFound == ShortestPathConflicts(acc.steps) && acc.otherFound == OtherConflicts(acc.steps)
    {
      var move := InspectMove(s, handle, p, heading, movement);
      var next := GatherMove(moves, movement, move, acc);
      if next.Failure? {
        return Failure(next.error);
      }
      acc := next.value;
    }
    PrependNothing(acc.steps, CandidatesOf(moves, 0));
    return Success(acc);
  }

  /** `h` has an observation but lacks a colour in one of the two colourings. */
  predicate LacksColour(obsDict: map<nat, Option<PriorityObs>>, spPriorities: map<nat, int>, otherPriorities: map<nat, int>, h: nat)
  {
    h in obsDict && obsDict[h].Some? && (h !in spPriorities || h !in otherPriorities)
  }

  /** `h` is the first of `nodes` that has an observation but lacks a colour. */
  ghost predicate FirstUncoloured(obsDict: map<nat, Option<PriorityObs>>, nodes: seq<nat>,
                                  spPriorities: map<nat, int>, otherPriorities: map<nat, int>, h: nat)
  {
    exists k :: 0 <= k < |nodes| && nodes[k] == h && LacksColour(obsDict, spPriorities, otherPriorities, nodes[k])
                && forall j :: 0 <= j < k ==> !LacksColour(obsDict, spPriorities, otherPriorities, nodes[j])
  }

  /**
   * The observations get the colours of their agents in slots 6 and 13,
   * for each node in turn; an observed agent without a colour in either
   * colouring raises.
   */
  method WritePriorities(obsDict: map<nat, Option<PriorityObs>>, nodes: seq<nat>, spPriorities: map<nat, int>, otherPriorities: map<nat, int>)
    returns (r: Result<map<nat, Option<PriorityObs>>, ObsFault>)
    requires forall h :: h in nodes ==> h in obsDict
    requires forall h :: h in obsDict && obsDict[h].Some? ==> |obsDict[h].value.features| == ObsSize
    ensures r.Success? <==>
              forall h :: h in nodes && obsDict[h].Some? ==> h in spPriorities && h in otherPriorities
    ensures r.Failure? ==>
              && r.error.Uncoloured? && r.error.handle in nodes && obsDict[r.error.handle].Some?
              && (r.error.handle !in spPriorities || r.error.handle !in otherPriorities)
              && FirstUncoloured(obsDict, nodes, spPriorities, otherPriorities, r.error.handle)
    ensures r.Success? ==>
              && r.value.Keys == obsDict.Keys
              && (forall h :: h in obsDict && h !in nodes ==> r.value[h] == obsDict[h])
              && forall h :: h in nodes ==> r.value[h] == Prioritised(obsDict[h], spPriorities, otherPriorities, h)
  {
    var result := obsDict;
    for k := 0 to |nodes|
      invariant result.Keys == obsDict.Keys
      invariant forall h :: h in obsDict && h !in nodes[..k] ==> result[h] == obsDict[h]
      invariant forall h :: h in nodes[..k] ==>
                  && (obsDict[h].Some? ==> h in spPriorities && h in otherPriorities)
                  && result[h] == Prioritised(obsDict[h], spPriorities, otherPriorities, h)
      invariant forall j :: 0 <= j < k ==> !LacksColour(obsDict, spPriorities, otherPriorities, nodes[j])
    {
      var h := nodes[k];
      if obsDict[h].Some? {
        if h !in spPriorities || h !in otherPriorities {
          assert LacksColour(obsDict, spPriorities, otherPriorities, nodes[k]);
          return Failure(Uncoloured(h));
        }
        result := result[h := Some(WithPriorities(obsDict[h].value, spPriorities[h], otherPriorities[h]))];
      }
      assert nodes[..k + 1] == nodes[..k] + [h];
    }
    assert nodes[..|nodes|] == nodes;
    return Success(result);
  }

  /**
   * `out` is `obs` with the two colours written into slots 6 and 13 of every
   * observation, each observed agent having a colour in both colourings.
   */
  ghost predicate Recoloured(obs: map<nat, Option<PriorityObs>>, spPriorities: map<nat, int>, otherPriorities: map<nat, int>,
                             out: map<nat, Option<PriorityObs>>)
    requires forall h :: h in obs && obs[h].Some? ==> |obs[h].value.features| == ObsSize
  {
    && out.Keys == obs.Keys
    && forall h :: h in obs ==>
         && (obs[h].Some? ==> h in spPriorities && h in otherPriorities)
         && out[h] == Prioritised(obs[h], spPriorities, otherPriorities, h)
  }

  /** The colours both colourings give, and the observations with those colours written in. */
  datatype Coloured = Coloured(obs: map<nat, Option<PriorityObs>>, spPriorities: map<nat, int>, otherPriorities: map<nat, int>)

  /**
   * The end of `get_many`: colour both conflict graphs over the observed
   * handles and write every agent's colours into its observation.
   */
  method Prioritise(handles: seq<nat>, obsDict: map<nat, Option<PriorityObs>>,
                    spConflictMap: map<nat, seq<nat>>, otherConflictMap: map<nat, seq<nat>>, colour: Colouring)
    returns (r: Result<Coloured, ObsFault>)
    requires obsDict.Keys == set h | h in handles
    requires forall h :: h in obsDict && obsDict[h].Some? ==> |obsDict[h].value.features| == ObsSize
    ensures var sp := colour(Nodes(handles), spConflictMap);
            var op := colour(Nodes(handles), otherConflictMap);
            && (r.Success? <==> forall h :: h in obsDict && obsDict[h].Some? ==> h in sp && h in op)
            && (r.Failure? ==> r.error.Uncoloured? && FirstUncoloured(obsDict, Nodes(handles), sp, op, r.error.handle))
            && (r.Success? ==>
                  && r.value.spPriorities == sp && r.value.otherPriorities == op
                  && Recoloured(obsDict, sp, op, r.value.obs))
  {
    var nodes := Nodes(handles);
    var spPriorities := colour(nodes, spConflictMap);
    var otherPriorities := colour(nodes, otherConflictMap);
    var written := WritePriorities(obsDict, nodes, spPriorities, otherPriorities);
    if written.Failure? {
      return Failure(written.error);
    }
    return Success(Coloured(written.value, spPriorities, otherPriorities));
  }

  /**
   * The state of `{handle: self.get(handle) for handle in handles}` after the
   * first i handles: their evaluations succeeded, the two maps hold the
   * conflicts collected from them, and the dictionary holds their observations.
   */
  ghost predicate Observing(s: Snapshot, handles: seq<nat>, i: nat, evals: seq<Evaluation>,
                            spMap: map<nat, seq<nat>>, otherMap: map<nat, seq<nat>>, obsDict: map<nat, Option<PriorityObs>>)
  {
    && i <= |handles|
    && AllUsable(s, handles[..i])
    && EvaluateAll(s, handles[..i]) == Success(evals)
    && spMap == Collect(handles[..i], Lists(evals, true), EmptyLists(handles))
    && otherMap == Collect(handles[..i], Lists(evals, false), EmptyLists(handles))
    && obsDict == ObsMap(handles[..i], evals)
  }

  /** Before the first round nothing is observed and the maps are the empty lists. */
  lemma ObservingStart(s: Snapshot, handles: seq<nat>, spMap: map<nat, seq<nat>>, otherMap: map<nat, seq<nat>>)
    requires spMap == EmptyLists(handles) && otherMap == EmptyLists(handles)
    ensures Observing(s, handles, 0, [], spMap, otherMap, map[])
  {
    assert handles[..0] == [];
  }

  class PriorityObsBuilder {
    const hasPredictor: bool
    /** `predictor.max_depth` */
    const predictorMaxDepth: nat
    var env: Env
    /** `predicted_pos` and `predicted_dir` */
    var tables: Tables
    var spConflictMap: map<nat, seq<nat>>
    var otherConflictMap: map<nat, seq<nat>>
    var prevSpConflictMap: map<nat, seq<nat>>
    var prevOtherConflictMap: map<nat, seq<nat>>
    var prevSpPriorities: map<nat, int>
    var prevOtherPriorities: map<nat, int>

    constructor(hasPredictor: bool, predictorMaxDepth: nat, env: Env)
      ensures this.hasPredictor == hasPredictor && this.predictorMaxDepth == predictorMaxDepth && this.env == env
      ensures tables == Tables([], [])
      ensures spConflictMap == map[] && otherConflictMap == map[]
      ensures prevSpConflictMap == map[] && prevOtherConflictMap == map[]
      ensures prevSpPriorities == map[] && prevOtherPriorities == map[]
    {
      this.hasPredictor := hasPredictor;
      this.predictorMaxDepth := predictorMaxDepth;
      this.env := env;
      tables := Tables([], []);
      spConflictMap, otherConflictMap := map[], map[];
      prevSpConflictMap, prevOtherConflictMap := map[], map[];
      prevSpPriorities, prevOtherPriorities := map[], map[];
    }

    /** `reset`: forget the conflict maps and priorities of the previous step. */
    method Reset()
      modifies this
      ensures env == old(env) && tables == old(tables)
      ensures spConflictMap == map[] && otherConflictMap == map[]
      ensures prevSpConflictMap == map[] && prevOtherConflictMap == map[]
      ensures prevSpPriorities == map[] && prevOtherPriorities == map[]
    {
      spConflictMap, otherConflictMap := map[], map[];
      prevSpConflictMap, prevOtherConflictMap := map[], map[];
      prevSpPriorities, prevOtherPriorities := map[], map[];
    }

    function Snap(): Snapshot
      reads this`env, this`tables
    {
      Snapshot(env, hasPredictor, tables)
    }

    /**
     * `get(handle)`: appends the agent's conflicts to the two maps and builds
     * its observation; a fault leaves the maps partly updated.
     */
    method Get(handle: nat) returns (r: Result<Option<PriorityObs>, ObsFault>)
      requires Usable(Snap(), handle)
      requires handle in spConflictMap && handle in otherConflictMap
      modifies this`spConflictMap, this`otherConflictMap
      ensures var e := Evaluate(old(Snap()), handle);
              && (e.Failure? ==> r == Failure(Detection(e.error)))
              && (e.Success? ==>
                    && r == e.value.obs
                    && spConflictMap == old(spConflictMap)[handle := old(spConflictMap)[handle] + e.value.spConflicts]
                    && otherConflictMap == old(otherConflictMap)[handle := old(otherConflictMap)[handle] + e.value.otherConflicts])
    {
      var s := Snap();
      var agent := env.agents[handle];
      var virtualPosition: Position;
      if agent.status == ReadyToDepart {
        virtualPosition := agent.initialPosition;
      } else if agent.status == Active {
        virtualPosition := agent.position.value;
      } else if agent.status == Done {
        virtualPosition := agent.target;
      } else {
        EvaluateRemoved(s, handle);
        AppendNothing(spConflictMap, handle);
        AppendNothing(otherConflictMap, handle);
        return Success(None);
      }
      assert VirtualPosition(agent) == Some(virtualPosition);
      var maxDistance := MaxDistance(env);
      EvaluateStanding(s, handle, virtualPosition);
      var gathered := GatherCandidates(s, handle, virtualPosition, agent.direction);
      if gathered.Failure? {
        return Failure(Detection(gathered.error));
      }
      spConflictMap := spConflictMap[handle := spConflictMap[handle] + gathered.value.spFound];
      otherConflictMap := otherConflictMap[handle := otherConflictMap[handle] + gathered.value.otherFound];
      r := BuildObservation(agent.status, gathered.value.steps, maxDistance);
    }

    /**
     * The table-building part of `get_many`: with a predictor, the tables are
     * rebuilt from the predictions, or emptied when there are none.
     */
    method PrepareTables(handles: seq<nat>, predictions: map<nat, Option<seq<PredictedStep>>>)
      requires forall i :: 0 <= i < |handles| ==> handles[i] < |env.agents|
      requires hasPredictor && |predictions| > 0 ==>
                 && PredictionsCover(handles, predictions, predictorMaxDepth)
                 && |Predicted(handles, predictions)| <= |env.agents|
                 && forall i :: 0 <= i < |handles| && env.agents[handles[i]].status != DoneRemoved ==>
                      handles[i] < |Predicted(handles, predictions)|
      modifies this`tables
      ensures hasPredictor && |predictions| > 0 ==>
                && |tables.pos| == predictorMaxDepth + 1 && |tables.dir| == predictorMaxDepth + 1
                && forall t :: 0 <= t <= predictorMaxDepth ==>
                     tables.pos[t] == PosRow(env.width, handles, predictions, t) && tables.dir[t] == DirRow(handles, predictions, t)
      ensures hasPredictor && |predictions| == 0 ==> tables == Tables([], [])
      ensures !hasPredictor ==> tables == old(tables)
      ensures WellFormed(env) ==> AllUsable(Snap(), handles)
    {
      if hasPredictor {
        if |predictions| > 0 {
          tables := BuildTables(env.width, handles, predictions, predictorMaxDepth);
          forall t | 0 <= t < |tables.pos|
            ensures |tables.pos[t]| == |tables.dir[t]| == |Predicted(handles, predictions)|
          {
            RowsFollowPredictedAgents(env.width, handles, predictions, t);
          }
        } else {
          tables := Tables([], []);
        }
      }
    }

    /**
     * One round of `{handle: self.get(handle) for handle in handles}`: `get`
     * for the handle at position i, with the runs before it completed.
     */
    method ObserveNext(handles: seq<nat>, i: nat, ghost evals: seq<Evaluation>)
      returns (o: Result<Option<PriorityObs>, ObsFault>, ghost e: Evaluation)
      requires i < |handles| && AllUsable(Snap(), handles) && AllUsable(Snap(), handles[..i])
      requires EvaluateAll(Snap(), handles[..i]) == Success(evals)
      requires handles[i] in spConflictMap && handles[i] in otherConflictMap
      modifies this`spConflictMap, this`otherConflictMap
      ensures AllUsable(Snap(), handles[..i + 1])
      ensures o.Failure? ==> EvaluateAll(Snap(), handles) == Failure(o.error)
      ensures o.Success? ==>
                && Complete(e) && o.value == e.obs.value
                && EvaluateAll(Snap(), handles[..i + 1]) == Success(evals + [e])
                && spConflictMap == old(spConflictMap)[handles[i] := old(spConflictMap)[handles[i]] + e.spConflicts]
                && otherConflictMap == old(otherConflictMap)[handles[i] := old(otherConflictMap)[handles[i]] + e.otherConflicts]
    {
      ghost var s := Snap();
      PrefixUsable(s, handles, i);
      EvaluateAllSnoc(s, handles, i);
      o := Get(handles[i]);
      ObservedIsGet(s, handles[i], o);
      if o.Failure? {
        EvaluateAllKeepsFault(s, handles, i + 1);
        e := Evaluation([], [], o);
        return;
      }
      e := Evaluate(s, handles[i]).value;
    }

    /** The same round, with the two maps stated as the lists collected over the handles observed so far. */
    method ObserveStep(handles: seq<nat>, i: nat, ghost evals: seq<Evaluation>)
      returns (o: Result<Option<PriorityObs>, ObsFault>, ghost e: Evaluation)
      requires i < |handles| && AllUsable(Snap(), handles) && AllUsable(Snap(), handles[..i])
      requires EvaluateAll(Snap(), handles[..i]) == Success(evals)
      requires spConflictMap == Collect(handles[..i], Lists(evals, true), EmptyLists(handles))
      requires otherConflictMap == Collect(handles[..i], Lists(evals, false), EmptyLists(handles))
      modifies this`spConflictMap, this`otherConflictMap
      ensures AllUsable(Snap(), handles[..i + 1])
      ensures o.Failure? ==> EvaluateAll(Snap(), handles) == Failure(o.error)
      ensures o.Success? ==>
                && Complete(e) && o.value == e.obs.value
                && EvaluateAll(Snap(), handles[..i + 1]) == Success(evals + [e])
                && spConflictMap == Collect(handles[..i + 1], Lists(evals + [e], true), EmptyLists(handles))
                && otherConflictMap == Collect(handles[..i + 1], Lists(evals + [e], false), EmptyLists(handles))
                && ObsMap(handles[..i + 1], evals + [e]) == ObsMap(handles[..i], evals)[handles[i] := o.value]
    {
      assert handles[i] in EmptyLists(handles);
      o, e := ObserveNext(handles, i, evals);
      if o.Success? {
        RecordNext(handles, i, evals, e);
      }
    }

    /** One round of the comprehension, stated as the loop state before and after it. */
    method ObserveRound(handles: seq<nat>, i: nat, ghost evals: seq<Evaluation>, obsDict: map<nat, Option<PriorityObs>>)
      returns (o: Result<Option<PriorityObs>, ObsFault>, ghost e: Evaluation, next: map<nat, Option<PriorityObs>>)
      requires i < |handles| && AllUsable(Snap(), handles)
      requires Observing(Snap(), handles, i, evals, spConflictMap, otherConflictMap, obsDict)
      modifies this`spConflictMap, this`otherConflictMap
      ensures o.Failure? ==> EvaluateAll(Snap(), handles) == Failure(o.error)
      ensures o.Success? ==> Observing(Snap(), handles, i + 1, evals + [e], spConflictMap, otherConflictMap, next)
    {
      o, e := ObserveStep(handles, i, evals);
      next := obsDict;
      if o.Success? {
        next := obsDict[handles[i] := o.value];
      }
    }

    /**
     * `{handle: self.get(handle) for handle in handles}`: observes every
     * handle in turn, appending to the two maps, and raises the first fault
     * `get` raises.
     */
    method ObserveAll(handles: seq<nat>) returns (r: Result<map<nat, Option<PriorityObs>>, ObsFault>)
      requires AllUsable(Snap(), handles)
      requires spConflictMap == EmptyLists(handles) && otherConflictMap == EmptyLists(handles)
      modifies this`spConflictMap, this`otherConflictMap
      ensures var all := EvaluateAll(Snap(), handles);
              && (r.Success? <==> all.Success?)
              && (r.Failure? ==> r.error == all.error)
              && (r.Success? ==>
                    && spConflictMap == Collect(handles, Lists(all.value, true), EmptyLists(handles))
                    && otherConflictMap == Collect(handles, Lists(all.value, false), EmptyLists(handles))
                    && r.value == ObsMap(handles, all.value))
    {
      ghost var s := Snap();
      var obsDict: map<nat, Option<PriorityObs>> := map[];
      ghost var evals: seq<Evaluation> := [];
      ObservingStart(s, handles, spConflictMap, otherConflictMap);
      for i := 0 to |handles|
        invariant Snap() == s
        invariant Observing(s, handles, i, evals, spConflictMap, otherConflictMap, obsDict)
      {
        var o, e, next := ObserveRound(handles, i, evals, obsDict);
        if o.Failure? {
          return Failure(o.error);
        }
        evals, obsDict := evals + [e], next;
      }
      assert handles[..|handles|] == handles;
      return Success(obsDict);
    }

    /**
     * `get_many(handles)`: rebuilds the prediction tables, observes every
     * handle in turn, colours the two conflict graphs and writes the colours
     * into slots 6 and 13, and keeps the maps and colours for the next step.
     */
    method GetMany(handles: seq<nat>, predictions: map<nat, Option<seq<PredictedStep>>>, colour: Colouring)
      returns (r: Result<map<nat, Option<PriorityObs>>, ObsFault>)
      requires WellFormed(env)
      requires forall i :: 0 <= i < |handles| ==> handles[i] < |env.agents|
      requires hasPredictor && |predictions| > 0 ==>
                 && PredictionsCover(handles, predictions, predictorMaxDepth)
                 && |Predicted(handles, predictions)| <= |env.agents|
                 && forall i :: 0 <= i < |handles| && env.agents[handles[i]].status != DoneRemoved ==>
                      handles[i] < |Predicted(handles, predictions)|
      modifies this
      ensures env == old(env)
      ensures hasPredictor && |predictions| > 0 ==>
                && |tables.pos| == predictorMaxDepth + 1 && |tables.dir| == predictorMaxDepth + 1
                && forall t :: 0 <= t <= predictorMaxDepth ==>
                     tables.pos[t] == PosRow(env.width, handles, predictions, t) && tables.dir[t] == DirRow(handles, predictions, t)
      ensures hasPredictor && |predictions| == 0 ==> tables == Tables([], [])
      ensures !hasPredictor ==> tables == old(tables)
      ensures AllUsable(Snap(), handles)
      ensures var all := EvaluateAll(Snap(), handles);
              && (all.Failure? ==> r == Failure(all.error))
              && (all.Success? ==>
                    var observed := ObsMap(handles, all.value);
                    var spMap := Collect(handles, Lists(all.value, true), EmptyLists(handles));
                    var otherMap := Collect(handles, Lists(all.value, false), EmptyLists(handles));
                    var sp := colour(Nodes(handles), spMap);
                    var op := colour(Nodes(handles), otherMap);
                    && spConflictMap == spMap && otherConflictMap == otherMap
                    && (r.Success? <==> forall h :: h in observed && observed[h].Some? ==> h in sp && h in op)
                    && (r.Failure? ==> r.error.Uncoloured? && FirstUncoloured(observed, Nodes(handles), sp, op, r.error.handle)))
              && (r.Success? ==>
                    && all.Success?
                    && spConflictMap == Collect(handles, Lists(all.value, true), EmptyLists(handles))
                    && otherConflictMap == Collect(handles, Lists(all.value, false), EmptyLists(handles))
                    && prevSpConflictMap == spConflictMap && prevOtherConflictMap == otherConflictMap
                    && prevSpPriorities == colour(Nodes(handles), spConflictMap)
                    && prevOtherPriorities == colour(Nodes(handles), otherConflictMap)
                    && Recoloured(ObsMap(handles, all.value), prevSpPriorities, prevOtherPriorities, r.value))
    {
      spConflictMap := EmptyLists(handles);
      otherConflictMap := EmptyLists(handles);
      PrepareTables(handles, predictions);
      r := ObserveAndPrioritise(handles, colour);
    }

    /**
     * The part of `get_many` after the tables are built: observes every
     * handle, colours the two conflict maps and stamps the priorities into the
     * observations, keeping the maps and priorities as the previous ones.
     */
    method ObserveAndPrioritise(handles: seq<nat>, colour: Colouring)
      returns (r: Result<map<nat, Option<PriorityObs>>, ObsFault>)
      requires AllUsable(Snap(), handles)
      requires spConflictMap == EmptyLists(handles) && otherConflictMap == EmptyLists(handles)
      modifies this`spConflictMap, this`otherConflictMap, this`prevSpConflictMap, this`prevOtherConflictMap
      modifies this`prevSpPriorities, this`prevOtherPriorities
      ensures var all := EvaluateAll(Snap(), handles);
              && (all.Failure? ==> r == Failure(all.error))
              && (all.Success? ==>
                    var observed := ObsMap(handles, all.value);
                    var spMap := Collect(handles, Lists(all.value, true), EmptyLists(handles));
                    var otherMap := Collect(handles, Lists(all.value, false), EmptyLists(handles));
                    var sp := colour(Nodes(handles), spMap);
                    var op := colour(Nodes(handles), otherMap);
                    && spConflictMap == spMap && otherConflictMap == otherMap
                    && (r.Success? <==> forall h :: h in observed && observed[h].Some? ==> h in sp && h in op)
                    && (r.Failure? ==> r.error.Uncoloured? && FirstUncoloured(observed, Nodes(handles), sp, op, r.error.handle)))
              && (r.Success? ==>
                    && all.Success?
                    && spConflictMap == Collect(handles, Lists(all.value, true), EmptyLists(handles))
                    && otherConflictMap == Collect(handles, Lists(all.value, false), EmptyLists(handles))
                    && prevSpConflictMap == spConflictMap && prevOtherConflictMap == otherConflictMap
                    && prevSpPriorities == colour(Nodes(handles), spConflictMap)
                    && prevOtherPriorities == colour(Nodes(handles), otherConflictMap)
                    && Recoloured(ObsMap(handles, all.value), prevSpPriorities, prevOtherPriorities, r.value))
    {
      ghost var s := Snap();
      ghost var all := EvaluateAll(s, handles);
      var obsDict := ObserveAll(handles);
      if obsDict.Failure? {
        return Failure(obsDict.error);
      }
      ghost var observed := ObsMap(handles, all.value);
      assert obsDict.value == observed;
      var coloured := Prioritise(handles, obsDict.value, spConflictMap, otherConflictMap, colour);
      if coloured.Failure? {
        return Failure(coloured.error);
      }
      assert Recoloured(observed, coloured.value.spPriorities, coloured.value.otherPriorities, coloured.value.obs);
      prevSpPriorities, prevOtherPriorities := coloured.value.spPriorities, coloured.value.otherPriorities;
      prevOtherConflictMap, prevSpConflictMap := otherConflictMap, spConflictMap;
      r := Success(coloured.value.obs);
      assert Snap() == s;
    }
  }
}
