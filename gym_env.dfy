/**
 * `FlatlandGymEnv`: the Gym wrapper that steps the Flatland simulator until
 * some agent has an observation or the episode is over, keeping per-agent
 * scores and step counts and masking agents that already finished.
 *
 * The simulator (`rail_env`) is an oracle: the results its coming `step`
 * calls return are a script held by the wrapper, and the action dictionaries
 * it receives are logged.
 */
module GymEnv {
  import opened Flatland

  /** `RailEnvActions`: 0 DO_NOTHING, 1 MOVE_LEFT, 2 MOVE_FORWARD, 3 MOVE_RIGHT, 4 STOP_MOVING. */
  type Action = a: int | 0 <= a < 5

  /** One entry of the simulator's `dones` dictionary, in the dictionary's order. */
  datatype AgentDone = AgentDone(agent: nat, done: bool)

  /**
   * What one `rail_env.step` returns: observations (None while an agent is
   * done or malfunctioning), rewards, the agents' done flags, the `'__all__'`
   * flag, and `rail_env.active_agents` afterwards.
   */
  datatype TickResult<O> = TickResult(
    obs: map<nat, Option<O>>,
    rewards: map<nat, int>,
    dones: seq<AgentDone>,
    allDone: bool,
    active: set<nat>)

  /** The dictionaries `o`, `r`, `d` built from one tick; `allDone` is `d['__all__']`. */
  datatype TickOut<O> = TickOut(obs: map<nat, O>, rewards: map<nat, int>, dones: map<nat, bool>, allDone: bool)

  /** `_agents_done`, `_agent_scores` and `_agent_steps`. */
  datatype Ledger = Ledger(agentsDone: seq<nat>, scores: map<nat, int>, steps: map<nat, nat>)

  datatype GymFault =
    | NoPreviousObs(agent: nat)  // `self._prev_obs[agent]` raises: no previous observations, or none for this agent
    | MissingReward(agent: nat)  // `rewards[agent]` raises KeyError
    | SimulatorStopped           // the script ran out before an observation or the end of the episode

  /** `defaultdict(float)` and `defaultdict(int)` reads: absent keys read as 0. */
  function Score(scores: map<nat, int>, a: nat): int
  {
    if a in scores then scores[a] else 0
  }

  function StepCount(steps: map<nat, nat>, a: nat): nat
  {
    if a in steps then steps[a] else 0
  }

  /** Dictionary keys are unique. */
  predicate DistinctAgents(dones: seq<AgentDone>)
  {
    forall i, j :: 0 <= i < j < |dones| ==> dones[i].agent != dones[j].agent
  }

  function Agents(dones: seq<AgentDone>): set<nat>
  {
    set e | e in dones :: e.agent
  }

  /** An agent is reported on a tick when it has an observation entry and is not already done. */
  predicate Reportable<O>(l: Ledger, t: TickResult<O>, a: nat)
  {
    a in t.obs && a !in l.agentsDone
  }

  /** The body of the loop over `dones.items()` for one agent. */
  function Entry<O>(l: Ledger, out: TickOut<O>, t: TickResult<O>, prev: Option<map<nat, O>>, e: AgentDone)
    : Result<(Ledger, TickOut<O>), GymFault>
  {
    var a := e.agent;
    if !Reportable(l, t, a) then Success((l, out))
    else if t.obs[a].None? && (prev.None? || a !in prev.value) then Failure(NoPreviousObs(a))
    else if a !in t.rewards then Failure(MissingReward(a))
    else
      var o := if t.obs[a].Some? then t.obs[a].value else prev.value[a];
      var reward := t.rewards[a];
      var l' := Ledger(if e.done then l.agentsDone + [a] else l.agentsDone,
                       l.scores[a := Score(l.scores, a) + reward],
                       l.steps[a := StepCount(l.steps, a) + 1]);
      Success((l', TickOut(out.obs[a := o], out.rewards[a := reward], out.dones[a := e.done], out.allDone)))
  }

  /**
   * The loop over the first n entries of `dones`: `o`, `r` and `d` (with
   * `d['__all__']`) and the updated ledger, or the first fault. `o` and `r`
   * have the same keys, all of them in `d`.
   */
  function Scan<O>(l: Ledger, t: TickResult<O>, prev: Option<map<nat, O>>, n: nat): (r: Result<(Ledger, TickOut<O>), GymFault>)
    requires n <= |t.dones|
    ensures r.Success? ==> Aligned(r.value.1) && r.value.1.allDone == t.allDone
  {
    if n == 0 then Success((l, TickOut(map[], map[], map[], t.allDone)))
    else
      match Scan(l, t, prev, n - 1)
      case Failure(f) => Failure(f)
      case Success(before) => Entry(before.0, before.1, t, prev, t.dones[n - 1])
  }

  /** Once an entry raises, the loop raises that fault. */
  lemma {:induction false} ScanKeepsFault<O>(l: Ledger, t: TickResult<O>, prev: Option<map<nat, O>>, i: nat, n: nat)
    requires i <= n <= |t.dones| && Scan(l, t, prev, i).Failure?
    ensures Scan(l, t, prev, n) == Scan(l, t, prev, i)
    decreases n - i
  {
    if i < n {
      ScanKeepsFault(l, t, prev, i + 1, n);
    }
  }

  /** `o`, `r` and `d` have the same agents. */
  predicate Aligned<O>(out: TickOut<O>)
  {
    out.obs.Keys == out.rewards.Keys == out.dones.Keys
  }

  /** The outcome of `step`: the ledger, the last tick's dictionaries and active agents, and how many ticks ran. */
  datatype Stepped<O> = Stepped(ledger: Ledger, last: TickOut<O>, active: set<nat>, ticks: nat)

  /** A tick stops the loop when it reports an observation or ends the episode. */
  predicate Stops<O>(out: TickOut<O>)
  {
    |out.obs| > 0 || out.allDone
  }

  function Later<O>(r: Result<Stepped<O>, GymFault>, k: nat): Result<Stepped<O>, GymFault>
  {
    match r
    case Failure(f) => Failure(f)
    case Success(s) => Success(s.(ticks := s.ticks + k))
  }

  /** The loop of `step` over the simulator's coming results. */
  function Run<O>(l: Ledger, prev: Option<map<nat, O>>, script: seq<TickResult<O>>): (r: Result<Stepped<O>, GymFault>)
    ensures r.Success? ==>
              && 1 <= r.value.ticks <= |script|
              && Stops(r.value.last)
              && Aligned(r.value.last)
    decreases |script|
  {
    if script == [] then Failure(SimulatorStopped)
    else
      match Scan(l, script[0], prev, |script[0].dones|)
      case Failure(f) => Failure(f)
      case Success(res) =>
        if Stops(res.1) then Success(Stepped(res.0, res.1, script[0].active, 1))
        else Later(Run(res.0, prev, script[1..]), 1)
  }

  /** `[{}, {}, ...]`: the empty action dictionaries sent on the internal ticks. */
  function NoActions(k: nat): (r: seq<map<nat, Action>>)
    ensures |r| == k && forall i :: 0 <= i < k ==> r[i] == map[]
  {
    seq(k, i => map[])
  }

  /** The info dictionary: one entry per agent in `o`. */
  datatype AgentInfo = AgentInfo(maxEpisodeSteps: nat, numAgents: nat, agentDone: bool, agentScore: int, agentStep: nat)

  datatype StepOutput<O> = StepOutput(obs: map<nat, O>, reward: map<nat, int>, done: map<nat, bool>, allDone: bool,
                                      info: map<nat, AgentInfo>)

  function Infos<O>(out: TickOut<O>, l: Ledger, active: set<nat>, maxEpisodeSteps: nat, numAgents: nat): (r: map<nat, AgentInfo>)
    requires Aligned(out)
    ensures r.Keys == out.obs.Keys
  {
    map a | a in out.obs :: AgentInfo(maxEpisodeSteps, numAgents, out.dones[a] && a !in active, Score(l.scores, a), StepCount(l.steps, a))
  }

  /** What `step` returns: `o`, `r`, `d` of the last tick and the info dictionary. */
  function Output<O>(s: Stepped<O>, maxEpisodeSteps: nat, numAgents: nat): StepOutput<O>
    requires Aligned(s.last)
  {
    StepOutput(s.last.obs, s.last.rewards, s.last.dones, s.last.allDone, Infos(s.last, s.ledger, s.active, maxEpisodeSteps, numAgents))
  }

  /** `'__all__'` or an agent handle: a key of the simulator's observation dictionary on reset. */
  datatype ObsKey = AgentKey(agent: nat) | AllAgents

  /** The arguments of one `rail_env.reset` call. */
  datatype ResetCall = ResetCall(regenerateRail: bool, regenerateSchedule: bool, randomSeed: Option<int>)

  class FlatlandGymEnv<O> {
    /** `rail_env._max_episode_steps` and `rail_env.get_num_agents()` */
    const maxEpisodeSteps: nat
    const numAgents: nat
    const regenerateRailOnReset: bool
    const regenerateScheduleOnReset: bool
    var agentsDone: seq<nat>
    var agentScores: map<nat, int>
    var agentSteps: map<nat, nat>
    var prevObs: Option<map<nat, O>>
    /** The simulator: the results of its coming `step` calls, and what it has been sent. */
    var script: seq<TickResult<O>>
    var sent: seq<map<nat, Action>>
    var resets: seq<ResetCall>

    constructor(maxEpisodeSteps: nat, numAgents: nat, regenerateRailOnReset: bool, regenerateScheduleOnReset: bool,
                script: seq<TickResult<O>>)
      ensures this.maxEpisodeSteps == maxEpisodeSteps && this.numAgents == numAgents
      ensures this.regenerateRailOnReset == regenerateRailOnReset && this.regenerateScheduleOnReset == regenerateScheduleOnReset
      ensures agentsDone == [] && agentScores == map[] && agentSteps == map[] && prevObs == None
      ensures this.script == script && sent == [] && resets == []
    {
      this.maxEpisodeSteps, this.numAgents := maxEpisodeSteps, numAgents;
      this.regenerateRailOnReset, this.regenerateScheduleOnReset := regenerateRailOnReset, regenerateScheduleOnReset;
      agentsDone, agentScores, agentSteps, prevObs := [], map[], map[], None;
      this.script, sent, resets := script, [], [];
    }

    function Book(): Ledger
      reads this`agentsDone, this`agentScores, this`agentSteps
    {
      Ledger(agentsDone, agentScores, agentSteps)
    }

    /**
     * The body of the loop over `dones.items()` for entry `e`: an agent with
     * an observation entry that is not done yet is reported in `o`, `r` and
     * `d` (its observation replaced by the previous one when None), its score
     * and step count grow, and it is appended to `_agents_done` when done.
     * A fault (no observation to fall back on, no reward) comes after that
     * append and before the score and step count change.
     */
    method RecordEntry(t: TickResult<O>, e: AgentDone, out: TickOut<O>) returns (r: Result<TickOut<O>, GymFault>)
      modifies this`agentsDone, this`agentScores, this`agentSteps
      ensures var x := Entry(old(Book()), out, t, prevObs, e);
              && (r.Success? <==> x.Success?)
              && (r.Failure? ==> r.error == x.error)
              && (r.Success? ==> r.value == x.value.1 && Book() == x.value.0)
    ensures r.Failure? ==>
              && agentsDone == old(agentsDone) + (if e.done then [e.agent] else [])
              && agentScores == old(agentScores) && agentSteps == old(agentSteps)
    {
      var agent, done := e.agent, e.done;
      if agent !in t.obs || agent in agentsDone {
        return Success(out);
      }
      if done {
        agentsDone := agentsDone + [agent];
      }
      var o: O;
      var seen := t.obs[agent];
      if seen.Some? {
        o := seen.value;
      } else if prevObs.Some? && agent in prevObs.value {
        o := prevObs.value[agent];
      } else {
        return Failure(NoPreviousObs(agent));
      }
      if agent !in t.rewards {
        return Failure(MissingReward(agent));
      }
      agentScores := agentScores[agent := Score(agentScores, agent) + t.rewards[agent]];
      agentSteps := agentSteps[agent := StepCount(agentSteps, agent) + 1];
      return Success(TickOut(out.obs[agent := o], out.rewards[agent := t.rewards[agent]], out.dones[agent := done], out.allDone));
    }

    /** The loop over `dones.items()` for one tick, building `o`, `r` and `d`. */
    method Record(t: TickResult<O>) returns (r: Result<TickOut<O>, GymFault>)
      modifies this`agentsDone, this`agentScores, this`agentSteps
      ensures var s := Scan(old(Book()), t, prevObs, |t.dones|);
              && (r.Success? <==> s.Success?)
              && (r.Failure? ==> r.error == s.error)
              && (r.Success? ==> r.value == s.value.1 && Book() == s.value.0)
    {
      var out := TickOut(map[], map[], map[], t.allDone);
      ghost var start := Book();
      for i := 0 to |t.dones|
        invariant Scan(start, t, prevObs, i) == Success((Book(), out))
      {
        var next := RecordEntry(t, t.dones[i], out);
        if next.Failure? {
          ScanKeepsFault(start, t, prevObs, i + 1, |t.dones|);
          return Failure(next.error);
        }
        out := next.value;
      }
      return Success(out);
    }

    /** One `rail_env.step(action_dict)` call and the loop over its `dones`. */
    method Advance(actions: map<nat, Action>) returns (r: Result<TickOut<O>, GymFault>, t: TickResult<O>)
      requires script != []
      modifies this`agentsDone, this`agentScores, this`agentSteps, this`script, this`sent
      ensures t == old(script)[0] && script == old(script)[1..] && sent == old(sent) + [actions]
      ensures var s := Scan(old(Book()), t, prevObs, |t.dones|);
              && (r.Success? <==> s.Success?)
              && (r.Failure? ==> r.error == s.error)
              && (r.Success? ==> r.value == s.value.1 && Book() == s.value.0)
    {
      t := script[0];
      script, sent := script[1..], sent + [actions];
      r := Record(t);
    }

    /**
     * The loop of `step(action_dict)`: steps the simulator until a tick
     * reports an observation or ends the episode, sending the caller's actions
     * on the first tick only.
     */
    method StepUntilObserved(actionDict: map<nat, Action>) returns (run: Result<Stepped<O>, GymFault>)
      modifies this`agentsDone, this`agentScores, this`agentSteps, this`script, this`sent
      ensures run == Run(old(Book()), prevObs, old(script))
      ensures run.Success? ==>
                && Book() == run.value.ledger
                && script == old(script)[run.value.ticks..]
                && sent == old(sent) + [actionDict] + NoActions(run.value.ticks - 1)
    {
      ghost var start, future := Book(), script;
      var actions := actionDict;
      var ticks := 0;
      var out := TickOut(map[], map[], map[], false);
      var active: set<nat> := {};
      var obsOrDone := false;
      while !obsOrDone
        invariant ticks <= |future| && script == future[ticks..]
        invariant ticks == 0 ==> actions == actionDict && sent == old(sent)
        invariant ticks > 0 ==> actions == map[] && sent == old(sent) + [actionDict] + NoActions(ticks - 1)
        invariant !obsOrDone ==> Run(start, prevObs, future) == Later(Run(Book(), prevObs, script), ticks)
        invariant obsOrDone ==> ticks > 0 && Run(start, prevObs, future) == Success(Stepped(Book(), out, active, ticks))
        decreases |script|
      {
        if script == [] {
          return Failure(SimulatorStopped);
        }
        RunAdvance(Run(start, prevObs, future), prevObs, future, ticks, Book());
        var recorded, t := Advance(actions);
        if recorded.Failure? {
          return Failure(recorded.error);
        }
        out, active := recorded.value, t.active;
        actions := map[];
        ticks := ticks + 1;
        obsOrDone := |out.obs| > 0 || out.allDone;
      }
      return Success(Stepped(Book(), out, active, ticks));
    }

    /**
     * `step(action_dict)`: the loop above, then the returned observations
     * become the previous ones and every reported agent gets its info entry.
     */
    method Step(actionDict: map<nat, Action>) returns (r: Result<StepOutput<O>, GymFault>)
      modifies this`agentsDone, this`agentScores, this`agentSteps, this`prevObs, this`script, this`sent
      ensures var run := Run(old(Book()), old(prevObs), old(script));
              && (r.Success? <==> run.Success?)
              && (r.Failure? ==> r.error == run.error)
              && (r.Success? ==>
                    var s := run.value;
                    && Book() == s.ledger
                    && prevObs == Some(s.last.obs)
                    && script == old(script)[s.ticks..]
                    && sent == old(sent) + [actionDict] + NoActions(s.ticks - 1)
                    && r.value == Output(s, maxEpisodeSteps, numAgents))
    {
      var run := StepUntilObserved(actionDict);
      if run.Failure? {
        return Failure(run.error);
      }
      prevObs := Some(run.value.last.obs);
      var last := run.value.last;
      var info := Infos(last, Book(), run.value.active, maxEpisodeSteps, numAgents);
      return Success(StepOutput(last.obs, last.rewards, last.dones, last.allDone, info));
    }

    /**
     * `reset(random_seed)`: forgets the done agents, scores, steps and previous
     * observations, resets the simulator, and returns its observations without
     * the `'__all__'` key. `initial` and `next` stand for what the simulator's
     * reset returns and what its later steps will return.
     */
    method Reset(randomSeed: Option<int>, initial: map<ObsKey, O>, next: seq<TickResult<O>>) returns (r: map<ObsKey, O>)
      modifies this`agentsDone, this`agentScores, this`agentSteps, this`prevObs, this`script, this`resets
      ensures agentsDone == [] && agentScores == map[] && agentSteps == map[] && prevObs == None
      ensures resets == old(resets) + [ResetCall(regenerateRailOnReset, regenerateScheduleOnReset, randomSeed)]
      ensures script == next
      ensures r.Keys == initial.Keys - {AllAgents}
      ensures forall k :: k in r ==> r[k] == initial[k]
    {
      prevObs := None;
      agentsDone, agentScores, agentSteps := [], map[], map[];
      resets := resets + [ResetCall(regenerateRailOnReset, regenerateScheduleOnReset, randomSeed)];
      script := next;
      r := map k | k in initial && k != AllAgents :: initial[k];
    }
  }

  /**
   * One more tick of the loop of `step`, after `ticks` ticks that neither
   * raised nor stopped it.
   */
  lemma RunAdvance<O>(goal: Result<Stepped<O>, GymFault>, prev: Option<map<nat, O>>, script: seq<TickResult<O>>, ticks: nat, l: Ledger)
    requires ticks < |script| && goal == Later(Run(l, prev, script[ticks..]), ticks)
    ensures var t := script[ticks];
            var s := Scan(l, t, prev, |t.dones|);
            && (s.Failure? ==> goal == Failure(s.error))
            && (s.Success? && Stops(s.value.1) ==> goal == Success(Stepped(s.value.0, s.value.1, t.active, ticks + 1)))
            && (s.Success? && !Stops(s.value.1) ==> goal == Later(Run(s.value.0, prev, script[ticks + 1..]), ticks + 1))
  {
    var rest := script[ticks..];
    assert rest[0] == script[ticks] && rest[1..] == script[ticks + 1..];
    RunFirstTick(l, prev, rest);
    var s := Scan(l, rest[0], prev, |rest[0].dones|);
    if s.Success? && !Stops(s.value.1) {
      LaterTwice(Run(s.value.0, prev, rest[1..]), 1, ticks);
    }
  }

  /** One unfolding of `Run`: the first tick raises, stops the loop, or hands over to the rest. */
  lemma RunFirstTick<O>(l: Ledger, prev: Option<map<nat, O>>, script: seq<TickResult<O>>)
    requires script != []
    ensures var s := Scan(l, script[0], prev, |script[0].dones|);
            && (s.Failure? ==> Run(l, prev, script) == Failure(s.error))
            && (s.Success? && Stops(s.value.1) ==> Run(l, prev, script) == Success(Stepped(s.value.0, s.value.1, script[0].active, 1)))
            && (s.Success? && !Stops(s.value.1) ==> Run(l, prev, script) == Later(Run(s.value.0, prev, script[1..]), 1))
  {
  }

  /** Shifting the tick count twice shifts it by the sum. */
  lemma LaterTwice<O>(r: Result<Stepped<O>, GymFault>, j: nat, k: nat)
    ensures Later(Later(r, j), k) == Later(r, j + k)
  {
  }

  /** Entry `e` was reported: its observation (or the previous one), reward and flag, one more step, the reward added. */
  ghost predicate ReportedAs<O>(l: Ledger, l': Ledger, out: TickOut<O>, t: TickResult<O>, prev: Option<map<nat, O>>, e: AgentDone)
  {
    var a := e.agent;
    && a in t.obs && a in t.rewards && a in out.obs && a in out.rewards && a in out.dones
    && (t.obs[a].Some? ==> out.obs[a] == t.obs[a].value)
    && (t.obs[a].None? ==> prev.Some? && a in prev.value && out.obs[a] == prev.value[a])
    && out.rewards[a] == t.rewards[a] && out.dones[a] == e.done
    && Score(l'.scores, a) == Score(l.scores, a) + t.rewards[a]
    && StepCount(l'.steps, a) == StepCount(l.steps, a) + 1
    && (a in l'.agentsDone <==> e.done)
  }

  /** Agent `a` is not reported and its score, step count and done mark are as before. */
  ghost predicate Untouched<O>(l: Ledger, l': Ledger, out: TickOut<O>, a: nat)
  {
    && a !in out.obs && a !in out.rewards && a !in out.dones
    && Score(l'.scores, a) == Score(l.scores, a) && StepCount(l'.steps, a) == StepCount(l.steps, a)
    && (a in l'.agentsDone <==> a in l.agentsDone)
  }

  /** Agent `a` keeps its entries in `o`, `r`, `d`, its score, step count and done mark. */
  ghost predicate Kept<O>(l: Ledger, l': Ledger, out: TickOut<O>, out': TickOut<O>, a: nat)
  {
    && (a in out'.obs <==> a in out.obs) && (a in out.obs ==> out'.obs[a] == out.obs[a])
    && (a in out'.rewards <==> a in out.rewards) && (a in out.rewards ==> out'.rewards[a] == out.rewards[a])
    && (a in out'.dones <==> a in out.dones) && (a in out.dones ==> out'.dones[a] == out.dones[a])
    && Score(l'.scores, a) == Score(l.scores, a) && StepCount(l'.steps, a) == StepCount(l.steps, a)
    && (a in l'.agentsDone <==> a in l.agentsDone)
  }

  /** The effect of one entry on its own agent. */
  lemma EntryOwn<O>(l: Ledger, out: TickOut<O>, t: TickResult<O>, prev: Option<map<nat, O>>, e: AgentDone)
    requires Entry(l, out, t, prev, e).Success? && e.agent !in out.obs && e.agent !in out.rewards && e.agent !in out.dones
    ensures var (l', out') := Entry(l, out, t, prev, e).value;
            && (Reportable(l, t, e.agent) ==> ReportedAs(l, l', out', t, prev, e))
            && (!Reportable(l, t, e.agent) ==> Untouched(l, l', out', e.agent))
  {
  }

  /** One entry leaves every other agent as it was, and only appends to `_agents_done`. */
  lemma EntryOther<O>(l: Ledger, out: TickOut<O>, t: TickResult<O>, prev: Option<map<nat, O>>, e: AgentDone, a: nat)
    requires Entry(l, out, t, prev, e).Success? && a != e.agent
    ensures var (l', out') := Entry(l, out, t, prev, e).value;
            Kept(l, l', out, out', a) && l.agentsDone <= l'.agentsDone
  {
  }

  /** An agent not among the first n entries of `dones` is untouched by them. */
  lemma {:induction false} ScanUnlisted<O>(l: Ledger, t: TickResult<O>, prev: Option<map<nat, O>>, n: nat, a: nat)
    requires n <= |t.dones| && Scan(l, t, prev, n).Success? && a !in Agents(t.dones[..n])
    ensures var (l', out) := Scan(l, t, prev, n).value;
            Untouched(l, l', out, a) && l.agentsDone <= l'.agentsDone
  {
    if n > 0 {
      assert t.dones[..n][n - 1] == t.dones[n - 1];
      assert Agents(t.dones[..n - 1]) <= Agents(t.dones[..n]) by {
        assert forall i :: 0 <= i < n - 1 ==> t.dones[..n - 1][i] == t.dones[..n][i];
      }
      ScanUnlisted(l, t, prev, n - 1, a);
      var (l1, out1) := Scan(l, t, prev, n - 1).value;
      EntryOther(l1, out1, t, prev, t.dones[n - 1], a);
    }
  }

  /**
   * One tick's loop over `dones`, with each agent listed once: the agent of
   * entry i is reported as `ReportedAs` says when it has an observation entry
   * and was not done, and is untouched otherwise.
   */
  lemma {:induction false} ScanListed<O>(l: Ledger, t: TickResult<O>, prev: Option<map<nat, O>>, n: nat, i: nat)
    requires i < n <= |t.dones| && DistinctAgents(t.dones) && Scan(l, t, prev, n).Success?
    ensures var (l', out) := Scan(l, t, prev, n).value;
            && (Reportable(l, t, t.dones[i].agent) ==> ReportedAs(l, l', out, t, prev, t.dones[i]))
            && (!Reportable(l, t, t.dones[i].agent) ==> Untouched(l, l', out, t.dones[i].agent))
  {
    var (l1, out1) := Scan(l, t, prev, n - 1).value;
    var e := t.dones[n - 1];
    if i == n - 1 {
      var init := t.dones[..n - 1];
      assert e.agent !in Agents(init) by {
        forall j | 0 <= j < n - 1
          ensures init[j].agent != e.agent
        {
          assert init[j] == t.dones[j];
        }
      }
      ScanUnlisted(l, t, prev, n - 1, e.agent);
      EntryOwn(l1, out1, t, prev, e);
    } else {
      ScanListed(l, t, prev, n - 1, i);
      EntryOther(l1, out1, t, prev, e, t.dones[i].agent);
    }
  }

  /** An agent already in `_agents_done` is skipped by a tick's loop, whatever `dones` lists. */
  lemma {:induction false} ScanSkipsDone<O>(l: Ledger, t: TickResult<O>, prev: Option<map<nat, O>>, n: nat, a: nat)
    requires n <= |t.dones| && Scan(l, t, prev, n).Success? && a in l.agentsDone
    ensures var (l', out) := Scan(l, t, prev, n).value;
            Untouched(l, l', out, a) && l.agentsDone <= l'.agentsDone
  {
    if n > 0 {
      ScanSkipsDone(l, t, prev, n - 1, a);
    }
  }

  /**
   * Once done and recorded, an agent is never reported again: not on any
   * tick of a `step`, and its score and step count stay as they were.
   */
  lemma {:induction false} RunSkipsDone<O>(l: Ledger, prev: Option<map<nat, O>>, script: seq<TickResult<O>>, a: nat)
    requires Run(l, prev, script).Success? && a in l.agentsDone
    ensures var s := Run(l, prev, script).value;
            && a !in s.last.obs && a !in s.last.rewards && a !in s.last.dones
            && a in s.ledger.agentsDone && l.agentsDone <= s.ledger.agentsDone
            && Score(s.ledger.scores, a) == Score(l.scores, a) && StepCount(s.ledger.steps, a) == StepCount(l.steps, a)
    decreases |script|
  {
    var t := script[0];
    ScanSkipsDone(l, t, prev, |t.dones|, a);
    var (l1, out1) := Scan(l, t, prev, |t.dones|).value;
    if !Stops(out1) {
      RunSkipsDone(l1, prev, script[1..], a);
    }
  }

  /**
   * A tick that reports no observation reports nothing at all and leaves the
   * ledger as it was: every entry of its `dones` was skipped.
   */
  lemma {:induction false} ScanQuiet<O>(l: Ledger, t: TickResult<O>, prev: Option<map<nat, O>>, n: nat)
    requires n <= |t.dones| && Scan(l, t, prev, n).Success? && |Scan(l, t, prev, n).value.1.obs| == 0
    ensures Scan(l, t, prev, n) == Success((l, TickOut(map[], map[], map[], t.allDone)))
  {
    if n > 0 {
      var before := Scan(l, t, prev, n - 1).value;
      var after := Scan(l, t, prev, n).value;
      assert before.1.obs.Keys <= after.1.obs.Keys;
      assert after.1.obs == map[];
      assert before.1.obs == map[];
      ScanQuiet(l, t, prev, n - 1);
      assert !Reportable(before.0, t, t.dones[n - 1].agent);
    }
  }

  /**
   * Every tick before the one `step` stops at reported nothing, did not end
   * the episode and left the ledger as it was.
   */
  lemma {:induction false} RunQuietBefore<O>(l: Ledger, prev: Option<map<nat, O>>, script: seq<TickResult<O>>)
    requires Run(l, prev, script).Success?
    ensures forall j :: 0 <= j < Run(l, prev, script).value.ticks - 1 ==>
              Scan(l, script[j], prev, |script[j].dones|) == Success((l, TickOut(map[], map[], map[], false)))
    decreases |script|
  {
    var t := script[0];
    var (l1, out1) := Scan(l, t, prev, |t.dones|).value;
    if !Stops(out1) {
      ScanQuiet(l, t, prev, |t.dones|);
      assert l1 == l && out1 == TickOut(map[], map[], map[], false);
      var rest := script[1..];
      RunQuietBefore(l, prev, rest);
      assert Run(l, prev, script).value.ticks == Run(l, prev, rest).value.ticks + 1;
      forall j | 1 <= j < Run(l, prev, script).value.ticks - 1
        ensures Scan(l, script[j], prev, |script[j].dones|) == Success((l, TickOut(map[], map[], map[], false)))
      {
        assert script[j] == rest[j - 1];
      }
    }
  }

  /**
   * `step` loops until a tick reports an observation or ends the episode:
   * each tick before the last one reported nothing, did not end the episode
   * and left the ledger as it was; the last tick, scanned from the starting
   * ledger, gives the returned dictionaries and ledger, and the returned
   * `'__all__'` flag and active agents are its own.
   */
  lemma {:induction false} RunStopsAtFirstStop<O>(l: Ledger, prev: Option<map<nat, O>>, script: seq<TickResult<O>>)
    requires Run(l, prev, script).Success?
    ensures var s := Run(l, prev, script).value;
            && (forall j :: 0 <= j < s.ticks - 1 ==> !script[j].allDone)
            && (forall j :: 0 <= j < s.ticks - 1 ==>
                  Scan(l, script[j], prev, |script[j].dones|) == Success((l, TickOut(map[], map[], map[], false))))
            && Scan(l, script[s.ticks - 1], prev, |script[s.ticks - 1].dones|) == Success((s.ledger, s.last))
            && s.last.allDone == script[s.ticks - 1].allDone
            && s.active == script[s.ticks - 1].active
    decreases |script|
  {
    RunQuietBefore(l, prev, script);
    RunLastTick(l, prev, script);
  }

  /** The last tick, scanned from the starting ledger, is the one `step` returns. */
  lemma {:induction false} RunLastTick<O>(l: Ledger, prev: Option<map<nat, O>>, script: seq<TickResult<O>>)
    requires Run(l, prev, script).Success?
    ensures var s := Run(l, prev, script).value;
            && Scan(l, script[s.ticks - 1], prev, |script[s.ticks - 1].dones|) == Success((s.ledger, s.last))
            && s.active == script[s.ticks - 1].active
    decreases |script|
  {
    var t := script[0];
    var (l1, out1) := Scan(l, t, prev, |t.dones|).value;
    if !Stops(out1) {
      ScanQuiet(l, t, prev, |t.dones|);
      assert l1 == l && out1 == TickOut(map[], map[], map[], false);
      var rest := script[1..];
      RunLastTick(l, prev, rest);
      var s' := Run(l, prev, rest).value;
      assert Run(l, prev, script).value == s'.(ticks := s'.ticks + 1);
      assert script[s'.ticks] == rest[s'.ticks - 1];
    }
  }
}
