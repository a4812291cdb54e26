/**
 * The "simple_meta" observation: five numbers per agent computed once, at the
 * start of an episode: its distance to target as a fraction of the largest
 * finite distance, how many agents share its start cell (and heading), and
 * how many conflicts a conflict detector reports for it (distinct and in
 * total), the last four each divided by their largest value over all agents.
 */
module SimpleMetaObs {
  import opened Flatland

  /** The agents whose start cell is `p` (the `agents_same_start` comprehension). */
  function AtStart(agents: seq<Agent>, p: Position): (r: seq<Agent>)
    ensures |r| <= |agents|
    ensures forall i :: 0 <= i < |r| ==> r[i].initialPosition == p
  {
    if |agents| == 0 then []
    else if agents[0].initialPosition == p then [agents[0]] + AtStart(agents[1..], p)
    else AtStart(agents[1..], p)
  }

  /** The agents starting with heading `d`. */
  function WithHeading(agents: seq<Agent>, d: Direction): (r: seq<Agent>)
    ensures |r| <= |agents|
    ensures forall i :: 0 <= i < |r| ==> r[i].initialDirection == d
  {
    if |agents| == 0 then []
    else if agents[0].initialDirection == d then [agents[0]] + WithHeading(agents[1..], d)
    else WithHeading(agents[1..], d)
  }

  /** An agent starting at `p` is among the agents at start `p`. */
  lemma {:induction false} InAtStart(agents: seq<Agent>, i: nat, p: Position)
    requires i < |agents| && agents[i].initialPosition == p
    ensures agents[i] in AtStart(agents, p)
  {
    if i > 0 {
      InAtStart(agents[1..], i - 1, p);
    }
  }

  lemma {:induction false} InWithHeading(agents: seq<Agent>, a: Agent, d: Direction)
    requires a in agents && a.initialDirection == d
    ensures a in WithHeading(agents, d)
  {
    if agents[0] != a {
      InWithHeading(agents[1..], a, d);
    }
  }

  predicate Handles(env: Env, handles: seq<nat>)
  {
    forall i :: 0 <= i < |handles| ==> handles[i] < |env.agents|
  }

  /** `nr_agents_same_start` */
  function SameStart(env: Env, handle: nat): nat
    requires handle < |env.agents|
  {
    |AtStart(env.agents, env.agents[handle].initialPosition)|
  }

  /** `nr_agents_same_start_and_dir` */
  function SameStartAndHeading(env: Env, handle: nat): nat
    requires handle < |env.agents|
  {
    var a := env.agents[handle];
    |WithHeading(AtStart(env.agents, a.initialPosition), a.initialDirection)|
  }

  /** Both counts include the agent itself, and sharing the heading as well is rarer than sharing the cell. */
  lemma SameStartCounts(env: Env, handle: nat)
    requires handle < |env.agents|
    ensures 1 <= SameStartAndHeading(env, handle) <= SameStart(env, handle) <= |env.agents|
  {
    var a := env.agents[handle];
    InAtStart(env.agents, handle, a.initialPosition);
    InWithHeading(AtStart(env.agents, a.initialPosition), a, a.initialDirection);
  }

  /**
   * `distance / max_distance` for the distance from the agent's start cell
   * and heading, infinity and NaN replaced by the largest finite distance;
   * the division is only defined when some finite distance is positive.
   */
  function StartFraction(env: Env, handle: nat): (r: real)
    requires WellFormed(env) && handle < |env.agents| && MaxDistance(env) > 0
    ensures 0.0 <= r <= 1.0
  {
    var a := env.agents[handle];
    assert AgentOnGrid(env, a);
    EffectiveDistanceBounded(env, handle, a.initialPosition, a.initialDirection);
    FractionAtMostOne(EffectiveDistance(env, handle, a.initialPosition, a.initialDirection), MaxDistance(env));
    EffectiveDistance(env, handle, a.initialPosition, a.initialDirection) as real / MaxDistance(env) as real
  }

  /** `get`: the distance fraction, the two same-start counts, and two zeros the caller fills in. */
  function Get(env: Env, handle: nat): (o: seq<real>)
    requires WellFormed(env) && handle < |env.agents| && MaxDistance(env) > 0
    ensures |o| == 5 && o[3] == 0.0 && o[4] == 0.0
    ensures 0.0 <= o[0] <= 1.0
    ensures 1.0 <= o[2] <= o[1]
  {
    SameStartCounts(env, handle);
    [StartFraction(env, handle), SameStart(env, handle) as real, SameStartAndHeading(env, handle) as real, 0.0, 0.0]
  }

  /** The largest of some counts (`max` over the observations). */
  function MaxOf(xs: seq<nat>): (m: nat)
    ensures forall i :: 0 <= i < |xs| ==> xs[i] <= m
    ensures |xs| > 0 ==> m in xs
  {
    if |xs| == 0 then 0
    else
      var rest := MaxOf(xs[1..]);
      assert forall i :: 1 <= i < |xs| ==> xs[i] == xs[1..][i - 1];
      if xs[0] >= rest then xs[0] else rest
  }

  /** The same-start counts hold for every handle at once. */
  lemma AllSameStartCounts(env: Env, handles: seq<nat>)
    requires Handles(env, handles)
    ensures forall i :: 0 <= i < |handles| ==>
              1 <= SameStartAndHeading(env, handles[i]) <= SameStart(env, handles[i]) <= |env.agents|
  {
    forall i | 0 <= i < |handles|
      ensures 1 <= SameStartAndHeading(env, handles[i]) <= SameStart(env, handles[i]) <= |env.agents|
    {
      SameStartCounts(env, handles[i]);
    }
  }

  /** The agents sharing each handle's start cell: at least the agent itself, at most all agents. */
  function StartCounts(env: Env, handles: seq<nat>): (xs: seq<nat>)
    requires Handles(env, handles)
    ensures |xs| == |handles|
    ensures forall i :: 0 <= i < |handles| ==> 1 <= xs[i] <= |env.agents|
    ensures forall i :: 0 <= i < |handles| ==> xs[i] == SameStart(env, handles[i])
  {
    AllSameStartCounts(env, handles);
    seq(|handles|, i requires 0 <= i < |handles| => SameStart(env, handles[i]))
  }

  /** The agents sharing each handle's start cell and heading: at least the agent itself, at most those sharing the cell. */
  function HeadingCounts(env: Env, handles: seq<nat>): (xs: seq<nat>)
    requires Handles(env, handles)
    ensures |xs| == |handles|
    ensures forall i :: 0 <= i < |handles| ==> 1 <= xs[i] <= SameStart(env, handles[i])
    ensures forall i :: 0 <= i < |handles| ==> xs[i] == SameStartAndHeading(env, handles[i])
  {
    AllSameStartCounts(env, handles);
    seq(|handles|, i requires 0 <= i < |handles| => SameStartAndHeading(env, handles[i]))
  }

  /** `len(set(c))`: the distinct entries of a conflict list. */
  function Distinct(c: seq<nat>): set<nat>
  {
    set x | x in c
  }

  lemma {:induction false} DistinctAtMostAll(c: seq<nat>)
    ensures |Distinct(c)| <= |c|
  {
    if |c| > 0 {
      DistinctAtMostAll(c[1..]);
      assert Distinct(c) == {c[0]} + Distinct(c[1..]);
    }
  }

  /** `max(agent_conflicts.values(), key=len)` has this length. */
  predicate IsLongest(conflicts: map<nat, seq<nat>>, longest: nat)
  {
    && (exists k :: k in conflicts && |conflicts[k]| == longest)
    && (forall k :: k in conflicts ==> |conflicts[k]| <= longest)
  }

  /** The `1e-7` that keeps the conflict denominator positive. */
  const Epsilon: real := 0.0000001

  /**
   * The loop body of the normalisation, on one observation: the two counts
   * divided by their maxima, and the distinct and total conflicts divided by
   * the conflict denominator; the distance fraction stays.
   */
  function Rescaled(raw: seq<real>, maxStart: real, maxHeading: real, c: seq<nat>, maxConflicts: real): (o: seq<real>)
    requires |raw| == 5 && maxStart != 0.0 && maxHeading != 0.0 && maxConflicts != 0.0
  {
    [raw[0], raw[1] / maxStart, raw[2] / maxHeading, |Distinct(c)| as real / maxConflicts, |c| as real / maxConflicts]
  }

  /**
   * With the maxima at least as large as what they divide, every rescaled
   * field lies in [0, 1], and the distinct conflicts never exceed the total.
   */
  lemma RescaledBounds(raw: seq<real>, maxStart: real, maxHeading: real, c: seq<nat>, longest: nat)
    requires |raw| == 5 && 0.0 <= raw[0] <= 1.0
    requires 0.0 < raw[1] <= maxStart && 0.0 < raw[2] <= maxHeading && |c| <= longest
    ensures var o := Rescaled(raw, maxStart, maxHeading, c, longest as real + Epsilon);
            && |o| == 5
            && 0.0 <= o[0] <= 1.0
            && 0.0 < o[1] <= 1.0
            && 0.0 < o[2] <= 1.0
            && 0.0 <= o[3] <= o[4] < 1.0
  {
    DistinctAtMostAll(c);
    var m := longest as real + Epsilon;
    DivMonotone(|Distinct(c)| as real, |c| as real, m);
    DivMonotone(|c| as real, longest as real, m);
    DivBelowOne(longest as real, m);
    DivAtMostOne(raw[1], maxStart);
    DivAtMostOne(raw[2], maxHeading);
  }

  lemma DivMonotone(a: real, b: real, m: real)
    requires 0.0 <= a <= b && m > 0.0
    ensures 0.0 <= a / m <= b / m
  {
  }

  lemma DivAtMostOne(a: real, m: real)
    requires 0.0 < a <= m
    ensures 0.0 < a / m <= 1.0
  {
  }

  lemma FractionAtMostOne(a: nat, m: nat)
    requires a <= m && m > 0
    ensures 0.0 <= a as real / m as real <= 1.0
  {
  }

  lemma DivBelowOne(a: real, m: real)
    requires 0.0 <= a < m
    ensures a / m < 1.0
  {
  }

  /** Each agent's counts are positive and at most the largest counts among `handles`. */
  lemma WithinMaxima(env: Env, handles: seq<nat>, handle: nat)
    requires Handles(env, handles) && handle in handles
    ensures 1 <= SameStartAndHeading(env, handle) <= MaxOf(HeadingCounts(env, handles))
    ensures 1 <= SameStart(env, handle) <= MaxOf(StartCounts(env, handles))
  {
    var i :| 0 <= i < |handles| && handles[i] == handle;
    SameStartCounts(env, handle);
    assert StartCounts(env, handles)[i] == SameStart(env, handle);
    assert HeadingCounts(env, handles)[i] == SameStartAndHeading(env, handle);
  }

  /**
   * The observation of `handle` after normalisation: `get`'s vector with the
   * same-start counts over their largest values among `handles`, and the
   * conflicts over the longest conflict list plus `1e-7`.
   */
  function Normalised(env: Env, handles: seq<nat>, conflicts: map<nat, seq<nat>>, longest: nat, handle: nat): seq<real>
    requires WellFormed(env) && MaxDistance(env) > 0 && Handles(env, handles)
    requires handle in handles && handle in conflicts
  {
    WithinMaxima(env, handles, handle);
    Rescaled(Get(env, handle), MaxOf(StartCounts(env, handles)) as real, MaxOf(HeadingCounts(env, handles)) as real,
             conflicts[handle], longest as real + Epsilon)
  }

  /** Every field of a normalised observation lies in [0, 1]; distinct conflicts never exceed the total. */
  lemma NormalisedBounds(env: Env, handles: seq<nat>, conflicts: map<nat, seq<nat>>, longest: nat, handle: nat)
    requires WellFormed(env) && MaxDistance(env) > 0 && Handles(env, handles)
    requires handle in handles && handle in conflicts && IsLongest(conflicts, longest)
    ensures var o := Normalised(env, handles, conflicts, longest, handle);
            && |o| == 5
            && 0.0 <= o[0] <= 1.0
            && 0.0 < o[1] <= 1.0
            && 0.0 < o[2] <= 1.0
            && 0.0 <= o[3] <= o[4] < 1.0
  {
    WithinMaxima(env, handles, handle);
    RescaledBounds(Get(env, handle), MaxOf(StartCounts(env, handles)) as real, MaxOf(HeadingCounts(env, handles)) as real,
                   conflicts[handle], longest);
  }

  datatype MetaFault =
    | NoHandles                     // `max` over no observations raises ValueError
    | NoConflictEntry(handle: nat)  // `agent_conflicts[h]` raises KeyError

  /** `ShortestPathConflictDetector.detect_conflicts` (not part of this model): the conflicts of each handle. */
  type ConflictDetector = (seq<nat>, map<nat, Option<Position>>, map<nat, Direction>) -> map<nat, seq<nat>>

  /** What `get_many` at the first step needs: indexable handles and a positive largest distance. */
  ghost predicate Computable(env: Env, handles: seq<nat>)
  {
    WellFormed(env) && MaxDistance(env) > 0 && Handles(env, handles)
  }

  /**
   * The virtual positions handed to the conflict detector (`get_position` for
   * each handle): a handle has none exactly when its agent has been removed
   * or is active off the grid.
   */
  function Positions(env: Env, handles: seq<nat>): (m: map<nat, Option<Position>>)
    requires Handles(env, handles)
    ensures m.Keys == set h | h in handles
    ensures forall h :: h in m ==>
              && h < |env.agents|
              && (m[h].None? <==> env.agents[h].status == DoneRemoved || (env.agents[h].status == Active && env.agents[h].position.None?))
    ensures forall h :: h in m ==> h < |env.agents| && m[h] == VirtualPosition(env.agents[h])
  {
    map h | h in handles :: VirtualPosition(env.agents[h])
  }

  function Headings(env: Env, handles: seq<nat>): (m: map<nat, Direction>)
    requires Handles(env, handles)
    ensures m.Keys == set h | h in handles
    ensures forall h :: h in m ==> h < |env.agents| && m[h] == env.agents[h].direction
  {
    map h | h in handles :: env.agents[h].direction
  }

  /** `get` for every handle, before normalisation. */
  function RawObs(env: Env, handles: seq<nat>): (m: map<nat, seq<real>>)
    requires Computable(env, handles)
    ensures m.Keys == set h | h in handles
    ensures forall h :: h in m ==> |m[h]| == 5
  {
    map h | h in handles :: Get(env, h)
  }

  /**
   * `obs` holds, for exactly the handles, their observations normalised with
   * these conflicts and this longest conflict list.
   */
  ghost predicate Describes(env: Env, handles: seq<nat>, conflicts: map<nat, seq<nat>>, longest: nat, obs: map<nat, array<real>>)
    reads set h | h in obs :: obs[h]
  {
    && Computable(env, handles)
    && (forall h :: h in handles ==> h in conflicts)
    && obs.Keys == (set h | h in handles)
    && forall h :: h in obs ==> obs[h][..] == Normalised(env, handles, conflicts, longest, h)
  }

  /**
   * `h` is the first handle, in the order of `handles` (and so of `obs`),
   * that has no conflict list: the one whose lookup raises.
   */
  predicate FirstMissing(handles: seq<nat>, conflicts: map<nat, seq<nat>>, h: nat)
  {
    exists k :: 0 <= k < |handles| && handles[k] == h && h !in conflicts
                && forall j :: 0 <= j < k ==> handles[j] in conflicts
  }

  /**
   * `get_many`: at the first step of an episode, the normalised observation of
   * every handle (each a fresh array), or the fault Python raises; at any
   * later step, an empty list for every handle.
   */
  method GetMany(env: Env, elapsedSteps: nat, handles: seq<nat>, detect: ConflictDetector)
    returns (r: Result<map<nat, array<real>>, MetaFault>)
    requires elapsedSteps == 0 ==> Computable(env, handles)
    ensures r.Success? ==> forall h :: h in r.value ==> fresh(r.value[h])
    ensures elapsedSteps > 0 ==>
              && r.Success? && r.value.Keys == set h | h in handles
              && forall h :: h in r.value ==> r.value[h].Length == 0
    ensures elapsedSteps == 0 ==>
              var conflicts := detect(handles, Positions(env, handles), Headings(env, handles));
              && (r.Failure? <==> |handles| == 0 || exists h :: h in handles && h !in conflicts)
              && (|handles| == 0 ==> r == Failure(NoHandles))
              && (r.Failure? && |handles| > 0 ==>
                    && r.error.NoConflictEntry? && r.error.handle in handles && r.error.handle !in conflicts
                    && FirstMissing(handles, conflicts, r.error.handle))
              && (r.Success? ==> exists longest :: IsLongest(conflicts, longest) && Describes(env, handles, conflicts, longest, r.value))
  {
    if elapsedSteps != 0 {
      r := EmptyLists(handles);
      return;
    }
    var conflicts := detect(handles, Positions(env, handles), Headings(env, handles));
    if |handles| == 0 {
      return Failure(NoHandles);
    }
    var missing := MissingEntry(handles, conflicts);
    if missing.Some? {
      return Failure(NoConflictEntry(missing.value));
    }
    var longest, obs := FirstStep(env, handles, conflicts);
    r := Success(obs);
  }

  /** The first-step branch once every handle has a conflict list. */
  method FirstStep(env: Env, handles: seq<nat>, conflicts: map<nat, seq<nat>>)
    returns (ghost longest: nat, obs: map<nat, array<real>>)
    requires Computable(env, handles) && |handles| > 0
    requires forall h :: h in handles ==> h in conflicts
    ensures forall h :: h in obs ==> fresh(obs[h])
    ensures IsLongest(conflicts, longest) && Describes(env, handles, conflicts, longest, obs)
  {
    var raw := RawObs(env, handles);
    obs := Observe(raw);
    assert handles[0] in conflicts;
    var l := Longest(conflicts);
    longest := l;
    WithinMaxima(env, handles, handles[0]);
    var maxStart := MaxOf(StartCounts(env, handles)) as real;
    var maxHeading := MaxOf(HeadingCounts(env, handles)) as real;
    NormaliseAll(raw, maxStart, maxHeading, conflicts, l as real + Epsilon, obs);
    forall h | h in obs
      ensures obs[h][..] == Normalised(env, handles, conflicts, longest, h)
    {
      assert raw[h] == Get(env, h);
    }
  }

  /** `{h: [] for h in handles}` */
  method EmptyLists(handles: seq<nat>) returns (r: Result<map<nat, array<real>>, MetaFault>)
    ensures r.Success? && r.value.Keys == set h | h in handles
    ensures forall h :: h in r.value ==> fresh(r.value[h]) && r.value[h].Length == 0
  {
    var m: map<nat, array<real>> := map[];
    for i := 0 to |handles|
      invariant m.Keys == set h | h in handles[..i]
      invariant forall h :: h in m ==> fresh(m[h]) && m[h].Length == 0
    {
      assert handles[..i + 1] == handles[..i] + [handles[i]];
      var empty := new real[0];
      m := m[handles[i] := empty];
    }
    assert handles[..|handles|] == handles;
    r := Success(m);
  }

  /** `{h: self.get(h) for h in handles}` as arrays: one fresh array per handle, no two shared. */
  method Observe(raw: map<nat, seq<real>>) returns (obs: map<nat, array<real>>)
    ensures obs.Keys == raw.Keys
    ensures forall h :: h in obs ==> fresh(obs[h]) && obs[h][..] == raw[h]
    ensures Separate(obs)
  {
    obs := map[];
    var todo := raw.Keys;
    while todo != {}
      invariant todo <= raw.Keys
      invariant obs.Keys == raw.Keys - todo
      invariant forall h :: h in obs ==> fresh(obs[h]) && obs[h][..] == raw[h]
      invariant Separate(obs)
      decreases todo
    {
      var h :| h in todo;
      var values := raw[h];
      var a := new real[|values|](j requires 0 <= j < |values| => values[j]);
      obs := obs[h := a];
      todo := todo - {h};
    }
  }

  /** No two handles share an observation array. */
  predicate Separate(obs: map<nat, array<real>>)
  {
    forall h1, h2 :: h1 in obs && h2 in obs && h1 != h2 ==> obs[h1] != obs[h2]
  }

  /** The length of the longest conflict list. */
  method Longest(conflicts: map<nat, seq<nat>>) returns (longest: nat)
    requires |conflicts| >= 1
    ensures IsLongest(conflicts, longest)
  {
    var k0 :| k0 in conflicts;
    longest := |conflicts[k0]|;
    var todo := conflicts.Keys - {k0};
    while todo != {}
      invariant todo <= conflicts.Keys
      invariant exists k :: k in conflicts && |conflicts[k]| == longest
      invariant forall k :: k in conflicts && k !in todo ==> |conflicts[k]| <= longest
      decreases todo
    {
      var k :| k in todo;
      if |conflicts[k]| > longest {
        longest := |conflicts[k]|;
      }
      todo := todo - {k};
    }
  }

  /** The first handle without a conflict list, the one whose lookup raises. */
  method MissingEntry(handles: seq<nat>, conflicts: map<nat, seq<nat>>) returns (missing: Option<nat>)
    ensures missing.None? <==> forall h :: h in handles ==> h in conflicts
    ensures missing.Some? ==> missing.value in handles && missing.value !in conflicts
    ensures missing.Some? ==> FirstMissing(handles, conflicts, missing.value)
  {
    for i := 0 to |handles|
      invariant forall j :: 0 <= j < i ==> handles[j] in conflicts
    {
      if handles[i] !in conflicts {
        return Some(handles[i]);
      }
    }
    return None;
  }

  /** The loop over `obs.items()`: every observation array rescaled in place. */
  method NormaliseAll(raw: map<nat, seq<real>>, maxStart: real, maxHeading: real, conflicts: map<nat, seq<nat>>,
                      maxConflicts: real, obs: map<nat, array<real>>)
    requires maxStart != 0.0 && maxHeading != 0.0 && maxConflicts != 0.0
    requires obs.Keys == raw.Keys && Separate(obs)
    requires forall h :: h in obs ==> h in conflicts && |raw[h]| == 5 && obs[h][..] == raw[h]
    modifies set h | h in obs :: obs[h]
    ensures forall h :: h in obs ==> obs[h][..] == Rescaled(raw[h], maxStart, maxHeading, conflicts[h], maxConflicts)
  {
    var todo := obs.Keys;
    while todo != {}
      invariant todo <= obs.Keys
      invariant forall h :: h in obs && h !in todo ==> obs[h][..] == Rescaled(raw[h], maxStart, maxHeading, conflicts[h], maxConflicts)
      invariant forall h :: h in todo ==> obs[h][..] == raw[h]
      decreases todo
    {
      var h :| h in todo;
      NormaliseOne(obs[h], maxStart, maxHeading, conflicts[h], maxConflicts);
      todo := todo - {h};
    }
  }

  /** One observation rescaled field by field. */
  method NormaliseOne(o: array<real>, maxStart: real, maxHeading: real, c: seq<nat>, maxConflicts: real)
    requires o.Length == 5 && maxStart != 0.0 && maxHeading != 0.0 && maxConflicts != 0.0
    modifies o
    ensures o[..] == Rescaled(old(o[..]), maxStart, maxHeading, c, maxConflicts)
  {
    o[1] := o[1] / maxStart;
    o[2] := o[2] / maxHeading;
    o[3] := |Distinct(c)| as real / maxConflicts;
    o[4] := |c| as real / maxConflicts;
  }
}
