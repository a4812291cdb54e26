# Flatland observation builders and Gym wrapper, in Dafny

This project models the observation side of a multi-agent train-scheduling system built on the Flatland rail simulator. Its parts are:

- **Conflict-priority shortest-path observation** (`ConflictDetection`, `ConflictObservation`). For each agent, it takes up to two legal moves from the cell the agent stands on. Each move carries:
  - its heading, one-hot;
  - its distance to the target;
  - whether walking the shortest path from there meets another agent head-on, or meets an agent that is already done;
  - a priority bit.

  The conflicts found form two graphs: one for the first legal move, one for the others. A greedy colouring of each graph writes every agent's priority into slots 6 and 13 of its observation.
- **Gym wrapper** (`GymEnv`). It steps the simulator until some agent has an observation or the episode is over. It keeps per-agent scores and step counts, and it masks agents that already finished.
- **Tree observations** (`ObsTree`, `TreeObs`, `FixedTreeObs`).
  - Flatland's 4-ary observation tree, flattened into three feature groups, with missing branches padded by `-inf`. The agent's one-hot id is optionally appended.
  - The same tree as a fixed-size table of post-order node vectors.
- **Simple meta observation** (`SimpleMetaObs`). Five numbers per agent at the first step of an episode:
  - the distance fraction;
  - the agents sharing its start cell;
  - the agents sharing its start cell and heading;
  - its distinct conflicts;
  - its total conflicts.

The shared Flatland snapshot lives in `Flatland`: agents, statuses, the distance map with infinity and NaN, rail transitions as an oracle, and the virtual position.

These parts of the code are stateful:
- the builders' conflict maps;
- the wrapper's ledger;
- the in-place rescaling of observation arrays;
- the tree wrapper's node accumulator and padded table.

Each of them is a class, or a method over arrays, proved against a pure specification function. The pure code (splitting, normalising, the per-agent evaluation) is functions and lemmas.

Python's integer truncation of `distance / max_distance` (the observation array is created with integer zeros) is modelled as written. The distance slot is 1 exactly at the largest finite distance and 0 below it.

Behaviour of the code worth noting:
- A reported conflict names the first qualifying **row index** of the prediction table. `PredictedIsIdentity` shows that this row index is the agent's handle when the handles are 0..n-1 and all of them are predicted.
- The conflict maps are directed: each agent's list holds the conflicts found while evaluating that agent, and the maps are not symmetrised.
- Both maps, the primary and the secondary one, are coloured.
- `detect_conflicts` raises on a tick missing from the tables and on a dead end of the walk.
- The wrapper's `'__all__'` flag is the simulator's, passed through unchanged.

## Model

| member | source | states |
|---|---|---|
| Flatland.NewPositionIsNeighbour | flatlander/envs/observations/conflict_piority_shortest_path_obs.py:162 | The cell one step in a heading differs from the start and is one of its four grid neighbours. |
| Flatland.CellIndexUnique | flatlander/envs/observations/conflict_piority_shortest_path_obs.py:81 | With the grid width as multiplier, two cells get the same id exactly when they are the same cell, provided every row index is below the width. |
| Flatland.CellIdsCollide | flatlander/envs/observations/conflict_piority_shortest_path_obs.py:213 | On a grid taller than it is wide, cells (width, 0) and (0, 1) get the same id. |
| Flatland.MaxFinite | flatlander/envs/observations/conflict_piority_shortest_path_obs.py:151-153 | The value is itself a finite entry of the distance map, and no finite entry exceeds it. |
| Flatland.EffectiveDistanceBounded | flatlander/envs/observations/conflict_piority_shortest_path_obs.py:163-165 | A move's distance is the map entry when that is finite and the largest finite entry otherwise, so it never exceeds that maximum. |
| Flatland.VirtualPosition | flatlander/envs/observations/conflict_piority_shortest_path_obs.py:140-148 | The start cell while ready to depart, the current cell while active, the target once done; no cell exactly when none of these applies. |
| ConflictDetection.ReverseDir | flatlander/envs/observations/conflict_piority_shortest_path_obs.py:198-199 | The reversed heading differs from the heading and is two quarter turns away from it. |
| ConflictDetection.ReverseDirInvolution | flatlander/envs/observations/conflict_piority_shortest_path_obs.py:198-199 | Reversing twice gives back the heading. |
| ConflictDetection.ScanMoves | flatlander/envs/observations/conflict_piority_shortest_path_obs.py:272-280 | From any state consistent with the `<=` scan over the moves before k, the scan ends with the move it keeps over all four moves. |
| ConflictDetection.ShortestPathMove | flatlander/envs/observations/conflict_piority_shortest_path_obs.py:262-282 | No move exactly when no move is legal. Otherwise the move is legal, no legal move is closer to the target, and it is strictly closer than every legal move of higher index, so ties go to the highest index. |
| ConflictDetection.ShortestPathPosition | flatlander/envs/observations/conflict_piority_shortest_path_obs.py:262-282 | The loop returns that move and the neighbouring cell in its direction, or `(None, None)` when no move is legal. |
| ConflictDetection.Predicted | flatlander/envs/observations/conflict_piority_shortest_path_obs.py:76-78 | A handle gets a row entry exactly when it is requested and has a prediction; there are at most as many entries as handles. |
| ConflictDetection.PredictedIndices | flatlander/envs/observations/conflict_piority_shortest_path_obs.py:76-78 | The positions of the requested handles that have a prediction, in increasing order. |
| ConflictDetection.PredictedIndicesComplete | flatlander/envs/observations/conflict_piority_shortest_path_obs.py:76-78 | Every position whose handle has a prediction is among those positions. |
| ConflictDetection.PredictedInOrder | flatlander/envs/observations/conflict_piority_shortest_path_obs.py:76-78 | The row entries are the handles at those increasing positions: exactly the predicted handles, in handle order. |
| ConflictDetection.RowsFollowPredictedAgents | flatlander/envs/observations/conflict_piority_shortest_path_obs.py:73-82 | Entry i of every tick's rows is the predicted cell and heading of the i-th predicted agent, so all rows have the same length. |
| ConflictDetection.PredictedIsIdentity | flatlander/envs/observations/conflict_piority_shortest_path_obs.py:76-80 | When the handles are 0..n-1 and all are predicted, the row index of an agent is its handle. |
| ConflictDetection.BuildTables | flatlander/envs/observations/conflict_piority_shortest_path_obs.py:73-83 | The tables hold one row of cells and one row of headings for every tick 0..max_depth, each as the predictions give it. |
| ConflictDetection.BuildRow | flatlander/envs/observations/conflict_piority_shortest_path_obs.py:74-82 | The inner loop yields exactly the row of tick t. |
| ConflictDetection.FirstQualifying | flatlander/envs/observations/conflict_piority_shortest_path_obs.py:221-230 | The result is the lowest row index from `from` on whose agent stands on the cell and meets the walker head-on or is done; there is none exactly when no index qualifies. |
| ConflictDetection.ScanOccupants | flatlander/envs/observations/conflict_piority_shortest_path_obs.py:221-230 | The scan keeps a conflict found at an earlier distance. Otherwise it records the first qualifying occupant at the current distance. |
| ConflictDetection.NextWalk | flatlander/envs/observations/conflict_piority_shortest_path_obs.py:258 | One step along the shortest path stays on the grid. |
| ConflictDetection.WalkAfter | flatlander/envs/observations/conflict_piority_shortest_path_obs.py:257-258 | Any number of steps along the shortest path stays on the grid. |
| ConflictDetection.Tick | flatlander/envs/observations/conflict_piority_shortest_path_obs.py:210-212 | The predicted tick is at least the distance when a cell takes at least one tick, and equals it at unit speed. |
| ConflictDetection.FindingAt | flatlander/envs/observations/conflict_piority_shortest_path_obs.py:211-258 | Iteration n examines distance `tot_dist + n` at the cell reached after n steps along the shortest path. |
| ConflictDetection.FindingsFollowPath | flatlander/envs/observations/conflict_piority_shortest_path_obs.py:211-258 | The same for every iteration of the loop at once. |
| ConflictDetection.OutcomeFailsAtFirstFault | flatlander/envs/observations/conflict_piority_shortest_path_obs.py:211-258 | The loop raises exactly when some iteration raises, and then it raises the first such fault, every earlier iteration having succeeded. |
| ConflictDetection.OutcomeReportsFirstFinding | flatlander/envs/observations/conflict_piority_shortest_path_obs.py:222-257 | A reported conflict comes from the first iteration that found an occupant, at that iteration's distance, and every iteration before it found nothing. |
| ConflictDetection.OutcomeNoneMeansClear | flatlander/envs/observations/conflict_piority_shortest_path_obs.py:211-258 | When the loop reports nothing, every iteration found nothing. |
| ConflictDetection.UnitSpeedNeverMissesTick | flatlander/envs/observations/conflict_piority_shortest_path_obs.py:210-220 | At one tick per cell, no iteration raises a missing tick; the only possible fault is a dead end. |
| ConflictDetection.Detect | flatlander/envs/observations/conflict_piority_shortest_path_obs.py:208-211 | Without a predictor, or with empty tables, `detect_conflicts` reports no conflict. |
| ConflictDetection.DetectReportsEarliest | flatlander/envs/observations/conflict_piority_shortest_path_obs.py:201-260 | A reported conflict lies between `tot_dist` and the prediction depth along the shortest path. Its agent qualifies at the cell examined there, and no earlier cell on the path produced one. |
| ConflictDetection.DetectNoneMeansClear | flatlander/envs/observations/conflict_piority_shortest_path_obs.py:201-260 | When nothing is reported, no cell examined along the shortest path produced a conflict. |
| ConflictDetection.DetectUnitSpeed | flatlander/envs/observations/conflict_piority_shortest_path_obs.py:201-260 | At unit speed, the only fault `detect_conflicts` can raise is a dead end. |
| ConflictDetection.FindingsEnd | flatlander/envs/observations/conflict_piority_shortest_path_obs.py:211 | Once the guard's tick reaches the table length, or without a predictor, the loop examines nothing more. |
| ConflictDetection.FindingsStep | flatlander/envs/observations/conflict_piority_shortest_path_obs.py:211-258 | The loop's result is the first iteration's effect, followed by the rest of the loop one cell and one tick on. |
| ConflictDetection.ExamineCell | flatlander/envs/observations/conflict_piority_shortest_path_obs.py:212-256 | The loop body at one distance does what the specification of that iteration says: raise, keep the earlier conflict, or record the one found here. |
| ConflictDetection.Advance | flatlander/envs/observations/conflict_piority_shortest_path_obs.py:258 | Moving on is the shortest-path step of the specification. |
| ConflictDetection.WalkStep | flatlander/envs/observations/conflict_piority_shortest_path_obs.py:211-258 | One pass of the loop preserves what the rest of the loop returns. A conflict kept is never further than the current distance. |
| ConflictDetection.DetectConflicts | flatlander/envs/observations/conflict_piority_shortest_path_obs.py:201-260 | The imperative `detect_conflicts` returns what `Detect` specifies, including its faults. |
| ConflictDetection.WalkPath | flatlander/envs/observations/conflict_piority_shortest_path_obs.py:211-258 | The `while` loop returns what the rest of the specified loop returns from its entry state. |
| ConflictObservation.MovesBounded | flatlander/envs/observations/conflict_piority_shortest_path_obs.py:163-165 | A legal move's distance never exceeds the largest finite distance. |
| ConflictObservation.CandidatesOf | flatlander/envs/observations/conflict_piority_shortest_path_obs.py:159-189 | At most one candidate per remaining direction. |
| ConflictObservation.CandidatesAreLegalMoves | flatlander/envs/observations/conflict_piority_shortest_path_obs.py:159-189 | Every candidate is a legal move, with that move's distance and the conflict its detection reported. |
| ConflictObservation.CandidatesAscend | flatlander/envs/observations/conflict_piority_shortest_path_obs.py:159 | Candidates come in strictly increasing direction order. |
| ConflictObservation.CandidatesCoverLegalMoves | flatlander/envs/observations/conflict_piority_shortest_path_obs.py:159-189 | Every legal move has a candidate. |
| ConflictObservation.CandidatesFailAtFirstFault | flatlander/envs/observations/conflict_piority_shortest_path_obs.py:168-173 | Gathering fails exactly when some legal move's detection raises, and then with the fault of the lowest such move. |
| ConflictObservation.InspectMove | flatlander/envs/observations/conflict_piority_shortest_path_obs.py:160-173 | One pass of the move loop computes the move described by the specification. |
| ConflictObservation.CandidatesStep | flatlander/envs/observations/conflict_piority_shortest_path_obs.py:159-189 | An illegal move adds nothing, a failing detection ends the loop, and a legal move appends its candidate. |
| ConflictObservation.ConflictsAreReported | flatlander/envs/observations/conflict_piority_shortest_path_obs.py:175-180 | An agent is among the conflicts exactly when some candidate reported it. |
| ConflictObservation.ShortestPathConflicts | flatlander/envs/observations/conflict_piority_shortest_path_obs.py:177-178 | The shortest-path map gets at most one agent: the conflict of the first candidate, if that candidate has one. |
| ConflictObservation.ConflictsSplit | flatlander/envs/observations/conflict_piority_shortest_path_obs.py:175-180 | The two maps together receive exactly the reported conflicts in order, at most one per legal move. |
| ConflictObservation.ConflictsAppend | flatlander/envs/observations/conflict_piority_shortest_path_obs.py:175-180 | A new candidate adds its conflict, if any, at the end. |
| ConflictObservation.SplitAppend | flatlander/envs/observations/conflict_piority_shortest_path_obs.py:177-180 | The first candidate's conflict goes to the shortest-path list; any later candidate's conflict goes to the other-path list. |
| ConflictObservation.SortByDistance | flatlander/envs/observations/conflict_piority_shortest_path_obs.py:191 | The sort is a permutation, ascending by distance, and stable. |
| ConflictObservation.StepSlots | flatlander/envs/observations/conflict_piority_shortest_path_obs.py:182-189 | A step's seven slots are: a one-hot heading; a distance slot that is 1 exactly at the largest finite distance (integer truncation); the conflict bit; and the priority bit, its complement. |
| ConflictObservation.Layout | flatlander/envs/observations/conflict_piority_shortest_path_obs.py:192-194 | The observation has 14 slots; the distance scale may be 0 when there is no step to divide. |
| ConflictObservation.LayoutExtend | flatlander/envs/observations/conflict_piority_shortest_path_obs.py:193-194 | Writing step i's slices over the earlier layout gives the layout of the steps up to i. |
| ConflictObservation.FillSlots | flatlander/envs/observations/conflict_piority_shortest_path_obs.py:192-194 | The slice-writing loop produces the specified layout. |
| ConflictObservation.LayoutPlacesSteps | flatlander/envs/observations/conflict_piority_shortest_path_obs.py:192-194 | Slots 7i..7i+6 hold step i, and the slots after the last step are 0. |
| ConflictObservation.BuildObservation | flatlander/envs/observations/conflict_piority_shortest_path_obs.py:191-196 | The end of `get` yields the observation the assessment specifies: a fault for a third legal move, a fault for a zero distance scale only when some move is legal, otherwise the laid-out steps with the departure flag. |
| ConflictObservation.Assess | flatlander/envs/observations/conflict_piority_shortest_path_obs.py:191-196 | The assessment succeeds exactly when the candidates do. A built observation has 14 slots and a departure flag that is 0 exactly while the agent is ready to depart. At most one shortest-path conflict. |
| ConflictObservation.AssessWithoutMoves | flatlander/envs/observations/conflict_piority_shortest_path_obs.py:187-196 | With no legal move the observation is 14 zeros and the departure flag, even when the largest finite distance is 0. |
| ConflictObservation.Evaluate | flatlander/envs/observations/conflict_piority_shortest_path_obs.py:138-196 | `get` returns no observation exactly for an agent that stands nowhere. Otherwise it returns 14 slots with the departure flag, and at most one shortest-path conflict. |
| ConflictObservation.EvaluateRemoved | flatlander/envs/observations/conflict_piority_shortest_path_obs.py:147-148 | An agent that stands nowhere gets no conflicts and no observation. |
| ConflictObservation.EvaluateStanding | flatlander/envs/observations/conflict_piority_shortest_path_obs.py:150-196 | An agent that stands on a cell is assessed from the candidates among its moves out of that cell, with its heading. |
| ConflictObservation.AssessLaysOutSteps | flatlander/envs/observations/conflict_piority_shortest_path_obs.py:187-194 | A built observation lays out the candidates sorted by distance, which are a permutation of them; there are at most two, the distance scale is positive when there is one, and with none every slot is 0. |
| ConflictObservation.EvaluateDescribesMoves | flatlander/envs/observations/conflict_piority_shortest_path_obs.py:138-196 | An observation lists the agent's legal moves sorted by distance, each in its seven slots, and the shortest-path conflict is that of the lowest legal direction. |
| ConflictObservation.AssessDescribesMoves | flatlander/envs/observations/conflict_piority_shortest_path_obs.py:159-196 | The same for any four moves whose legal distances are within the scale. |
| ConflictObservation.WithPriorities | flatlander/envs/observations/conflict_piority_shortest_path_obs.py:120-123 | Slots 6 and 13 get the two colours, and every other slot and the departure flag are unchanged. |
| ConflictObservation.Nodes | flatlander/envs/observations/conflict_piority_shortest_path_obs.py:110-114 | `obs_dict.keys()` holds exactly the handles, without repeats, in the order in which each first occurs. |
| ConflictObservation.Observed | flatlander/envs/observations/conflict_piority_shortest_path_obs.py:138-196 | What `get` delivers, when it succeeds, is a built 14-slot observation or none. |
| ConflictObservation.ObservedIsGet | flatlander/envs/observations/conflict_piority_shortest_path_obs.py:138-196 | A value that `get` returned as the evaluation describes it is the delivered observation, or its fault. |
| ConflictObservation.Outcomes | flatlander/envs/observations/conflict_piority_shortest_path_obs.py:110 | There is one outcome per handle. |
| ConflictObservation.OutcomeAt | flatlander/envs/observations/conflict_piority_shortest_path_obs.py:110 | Outcome i is what `get` delivers for handle i. |
| ConflictObservation.OutcomesPrefix | flatlander/envs/observations/conflict_piority_shortest_path_obs.py:110 | The outcomes of a prefix of the handles are a prefix of the outcomes. |
| ConflictObservation.Collected | flatlander/envs/observations/conflict_piority_shortest_path_obs.py:110 | A successful collection has one value per result. |
| ConflictObservation.CollectedAt | flatlander/envs/observations/conflict_piority_shortest_path_obs.py:110 | Each collected value is the success at its position. |
| ConflictObservation.CollectedKeepsFault | flatlander/envs/observations/conflict_piority_shortest_path_obs.py:110 | Once a prefix fails, the whole collection fails the same way. |
| ConflictObservation.CollectedFirstFault | flatlander/envs/observations/conflict_piority_shortest_path_obs.py:110 | A failed collection carries the first failure, and everything before it succeeded. |
| ConflictObservation.EvaluateAll | flatlander/envs/observations/conflict_piority_shortest_path_obs.py:110 | A completed run has one completed evaluation per handle. |
| ConflictObservation.EvaluateAllComplete | flatlander/envs/observations/conflict_piority_shortest_path_obs.py:110 | Every evaluation of a completed run built its observation. |
| ConflictObservation.EvaluateAllKeepsFault | flatlander/envs/observations/conflict_piority_shortest_path_obs.py:110 | Once `get` raises for some handle, the whole comprehension raises that fault. |
| ConflictObservation.EvaluateAllSnoc | flatlander/envs/observations/conflict_piority_shortest_path_obs.py:110 | One more handle extends the run by what `get` delivers for it, or ends it with its fault. |
| ConflictObservation.EvaluateAllAt | flatlander/envs/observations/conflict_piority_shortest_path_obs.py:110 | Position i of a completed run is what `get` delivers for handle i. |
| ConflictObservation.EvaluateAllFirstFault | flatlander/envs/observations/conflict_piority_shortest_path_obs.py:110 | A run that raises carries the fault of some handle's `get`, and every handle before it completed. |
| ConflictObservation.ListsAppend | flatlander/envs/observations/conflict_piority_shortest_path_obs.py:177-180 | One more evaluation adds its own list at the end. |
| ConflictObservation.Collect | flatlander/envs/observations/conflict_piority_shortest_path_obs.py:64-65 | Appending to entries never adds or removes keys. |
| ConflictObservation.CollectAppend | flatlander/envs/observations/conflict_piority_shortest_path_obs.py:177-180 | One more handle appends its list to that handle's entry only. |
| ConflictObservation.CollectFrom | flatlander/envs/observations/conflict_piority_shortest_path_obs.py:177-180 | When each handle is listed once, a handle's entry gains exactly its own list, and unlisted entries stay as they were. |
| ConflictObservation.CollectPerAgent | flatlander/envs/observations/conflict_piority_shortest_path_obs.py:64-65 | Starting from empty lists, each handle's entry is exactly its own conflicts. |
| ConflictObservation.ObsMap | flatlander/envs/observations/conflict_piority_shortest_path_obs.py:110 | `obs_dict` has exactly the handles as keys, and every observation in it has 14 slots. |
| ConflictObservation.ObsMapAppend | flatlander/envs/observations/conflict_piority_shortest_path_obs.py:110 | A later handle's observation overwrites its entry. |
| ConflictObservation.RecordNext | flatlander/envs/observations/conflict_piority_shortest_path_obs.py:110 | Observing one more handle appends its lists to its entries of both maps and records its observation. |
| ConflictObservation.ObsMapEntry | flatlander/envs/observations/conflict_piority_shortest_path_obs.py:110 | A handle's entry is its observation when every later occurrence of that handle was evaluated the same way. |
| ConflictObservation.ObsMapAt | flatlander/envs/observations/conflict_piority_shortest_path_obs.py:110 | When equal handles have equal evaluations, each entry is that handle's observation. |
| ConflictObservation.ObservationsAreEachGet | flatlander/envs/observations/conflict_piority_shortest_path_obs.py:110 | After a completed run, every handle's entry in `obs_dict` is what `get` delivers for it, even for a repeated handle. |
| ConflictObservation.GatherMove | flatlander/envs/observations/conflict_piority_shortest_path_obs.py:159-189 | One pass of the move loop preserves "gathered steps followed by the candidates still to come" and keeps the two conflict lists split correctly. |
| ConflictObservation.GatherCandidates | flatlander/envs/observations/conflict_piority_shortest_path_obs.py:159-189 | `get`'s loop yields the specified candidates with the two conflict lists, or the first detection fault. |
| ConflictObservation.WritePriorities | flatlander/envs/observations/conflict_piority_shortest_path_obs.py:120-123 | The write-back succeeds exactly when every observed node has both colours; otherwise it names the first node, in node order, that is observed and lacks one. Each node's observation gets its colours, and nothing else changes. |
| ConflictObservation.Prioritise | flatlander/envs/observations/conflict_piority_shortest_path_obs.py:113-123 | Both maps are coloured over the handles, and every observation carries its agent's two colours; the step fails exactly when some observed agent lacks one, and names the first such agent in `obs_dict` order. |
| ConflictObservation.PriorityObsBuilder.constructor | flatlander/envs/observations/conflict_piority_shortest_path_obs.py:48-60 | The builder starts with empty conflict maps, empty previous maps and empty previous priorities. |
| ConflictObservation.PriorityObsBuilder.Reset | flatlander/envs/observations/conflict_piority_shortest_path_obs.py:36-42 | `reset` empties all six maps and leaves the environment and tables alone. |
| ConflictObservation.PriorityObsBuilder.Get | flatlander/envs/observations/conflict_piority_shortest_path_obs.py:138-196 | `get` returns the specified observation or fault, and appends the agent's conflicts to its entry in each map. |
| ConflictObservation.PriorityObsBuilder.PrepareTables | flatlander/envs/observations/conflict_piority_shortest_path_obs.py:67-83 | With a predictor, the tables are rebuilt from the predictions, or emptied when there are none; without one, they are unchanged. |
| ConflictObservation.PriorityObsBuilder.ObserveNext | flatlander/envs/observations/conflict_piority_shortest_path_obs.py:110 | One round of the comprehension extends the specified run by one `get`, or raises the run's fault. |
| ConflictObservation.PriorityObsBuilder.ObserveStep | flatlander/envs/observations/conflict_piority_shortest_path_obs.py:110 | The same round keeps the maps equal to the lists collected over the handles observed so far. |
| ConflictObservation.PriorityObsBuilder.ObserveRound | flatlander/envs/observations/conflict_piority_shortest_path_obs.py:110 | One round of the comprehension takes the state after the first i handles (their evaluations, the two maps, the dictionary) to the state after i + 1, or raises the fault of the whole run. |
| ConflictObservation.PriorityObsBuilder.ObserveAll | flatlander/envs/observations/conflict_piority_shortest_path_obs.py:110 | The comprehension succeeds exactly when the specified run does, and otherwise raises its fault. On success, the maps hold the collected conflicts and the result is `obs_dict`. |
| ConflictObservation.PriorityObsBuilder.GetMany | flatlander/envs/observations/conflict_piority_shortest_path_obs.py:62-136 | `get_many` rebuilds the tables, observes every handle, and colours both maps into slots 6 and 13, keeping maps and priorities as the previous ones. It raises the first `get` fault; when every `get` succeeds, it succeeds exactly when each observed agent has a colour in both colourings, and otherwise names the first agent that lacks one. |
| ConflictObservation.PriorityObsBuilder.ObserveAndPrioritise | flatlander/envs/observations/conflict_piority_shortest_path_obs.py:109-136 | The part of `get_many` after the tables, with the same guarantees. |
| GymEnv.Scan | flatlander/envs/utils/gym_env.py:51-70 | The loop over `dones` builds `o`, `r` and `d` with the same agents, and `d['__all__']` is the tick's flag. |
| GymEnv.ScanKeepsFault | flatlander/envs/utils/gym_env.py:52-70 | Once an entry raises, the loop raises that fault. |
| GymEnv.ScanQuiet | flatlander/envs/utils/gym_env.py:52-73 | A tick whose scan reports no observation reports no reward or done flag either, leaves the ledger unchanged and passes the simulator's `'__all__'` flag through. |
| GymEnv.Run | flatlander/envs/utils/gym_env.py:46-73 | A successful loop ran at least one and at most the available ticks, and ended on a tick with an observation or the end of the episode. |
| GymEnv.NoActions | flatlander/envs/utils/gym_env.py:72 | The internal ticks send empty action dictionaries. |
| GymEnv.Infos | flatlander/envs/utils/gym_env.py:79-85 | There is an info entry for exactly the agents in `o`. |
| GymEnv.FlatlandGymEnv.constructor | flatlander/envs/utils/gym_env.py:25-41 | The wrapper starts with no done agents, no scores, no steps and no previous observations. |
| GymEnv.FlatlandGymEnv.RecordEntry | flatlander/envs/utils/gym_env.py:52-70 | The loop body for one entry does what the specification of that entry says, to the dictionaries and the ledger. A fault leaves the agent appended to `_agents_done` when it is done, and the scores and step counts unchanged. |
| GymEnv.FlatlandGymEnv.Record | flatlander/envs/utils/gym_env.py:51-70 | The loop over `dones` does what `Scan` specifies, to the dictionaries and the ledger. |
| GymEnv.FlatlandGymEnv.Advance | flatlander/envs/utils/gym_env.py:49-70 | One simulator tick consumes one scripted result and logs the actions sent. |
| GymEnv.FlatlandGymEnv.StepUntilObserved | flatlander/envs/utils/gym_env.py:44-73 | The `while` loop returns what `Run` specifies. The caller's actions go out on the first tick only, empty dictionaries after it. |
| GymEnv.FlatlandGymEnv.Step | flatlander/envs/utils/gym_env.py:43-85 | `step` returns the last tick's `o`, `r`, `d` and the infos, or the specified fault. The previous observations become `o`. |
| GymEnv.FlatlandGymEnv.Reset | flatlander/envs/utils/gym_env.py:87-95 | `reset` clears the ledger and previous observations, and resets the simulator with the wrapper's flags and the seed. It returns every observation except `'__all__'`. |
| GymEnv.RunAdvance | flatlander/envs/utils/gym_env.py:46-73 | After ticks that neither raised nor stopped, the next tick raises, stops the loop, or hands over to the rest. |
| GymEnv.RunFirstTick | flatlander/envs/utils/gym_env.py:46-73 | The first tick raises, stops the loop, or hands over to the rest. |
| GymEnv.EntryOwn | flatlander/envs/utils/gym_env.py:53-70 | An entry reports its own agent when that agent has an observation entry and is not done. It then records: the observation, or the previous one when it is None; the reward; the flag; one more step; the reward added; and the agent as done when its flag is set. Otherwise the agent is untouched. |
| GymEnv.EntryOther | flatlander/envs/utils/gym_env.py:53-70 | An entry leaves every other agent as it was, and only appends to `_agents_done`. |
| GymEnv.ScanUnlisted | flatlander/envs/utils/gym_env.py:52-70 | An agent not listed in `dones` is untouched by the tick. |
| GymEnv.ScanListed | flatlander/envs/utils/gym_env.py:52-70 | With each agent listed once, a listed agent is reported as its entry says, or untouched. |
| GymEnv.ScanSkipsDone | flatlander/envs/utils/gym_env.py:59 | An agent already done is skipped by a tick, whatever `dones` lists. |
| GymEnv.RunSkipsDone | flatlander/envs/utils/gym_env.py:46-73 | A done agent is never reported again within a `step`, and its score and step count stay as they were. |
| GymEnv.RunStopsAtFirstStop | flatlander/envs/utils/gym_env.py:46-73 | The loop stops at the first tick that reports an observation or ends the episode. Every earlier tick reported no observation, did not end the episode and left the ledger unchanged. The last tick, scanned from the starting ledger, gives the returned ledger, dictionaries and `'__all__'` flag. |
| GymEnv.RunQuietBefore | flatlander/envs/utils/gym_env.py:46-73 | Every tick before the one the loop stops at reported no observation, did not end the episode and left the ledger unchanged. |
| GymEnv.RunLastTick | flatlander/envs/utils/gym_env.py:46-85 | The last tick, scanned from the starting ledger, gives the returned ledger and dictionaries; the returned active agents are that tick's. |
| ObsTree.NodesUpTo | flatlander/envs/observations/tree_obs.py:35-37 | A complete tree has at least one node. |
| ObsTree.FullCountIsSum | flatlander/envs/observations/tree_obs.py:71 | The closed form `(4^(h+1) - 1) / 3` equals the sum of powers of four up to h, and the division is exact. |
| ObsTree.NodesUpToStep | flatlander/envs/observations/tree_obs.py:79-85 | A complete tree one level higher is a root over four complete subtrees. |
| ObsTree.SizeBound | flatlander/envs/observations/fixed_tree_obs.py:46-47 | A tree of Flatland's shape has at most the nodes of a complete tree of the remaining height. |
| ObsTree.BranchBound | flatlander/envs/observations/fixed_tree_obs.py:46-47 | The same for each branch, one level down. |
| ObsTree.CompleteSize | flatlander/envs/observations/fixed_tree_obs.py:46-47 | Without a missing branch, it has exactly that many nodes. |
| ObsTree.CompleteBranch | flatlander/envs/observations/fixed_tree_obs.py:46-47 | The same for each branch, one level down. |
| ObsTree.Clip | flatlander/envs/observations/tree_obs.py:118 | The result is a number in [-1, 1]. Numbers already in range are kept; larger values and `+inf` go to 1, smaller values and `-inf` go to -1. |
| ObsTree.ClipAll | flatlander/envs/observations/tree_obs.py:118 | Every entry becomes a number in [-1, 1], entries already in that range are kept, and the length is kept. |
| TreeObs.Concat | flatlander/envs/observations/tree_obs.py:83-85 | Concatenating aligned groups gives aligned groups describing the sum of the nodes. |
| TreeObs.SplitNode | flatlander/envs/observations/tree_obs.py:44-63 | One node gives six data, one distance and four agent entries, the distance being its distance to target. |
| TreeObs.Padding | flatlander/envs/observations/tree_obs.py:72 | `count` nodes of `-inf`, in all three groups. |
| TreeObs.PadCount | flatlander/envs/observations/tree_obs.py:69-71 | The padding is the node count of a complete tree of the remaining height, and 0 past the maximum depth (truncation of a negative fraction). |
| TreeObs.SplittableBranches | flatlander/envs/observations/tree_obs.py:79-80 | A splittable node with children has all four explored branches, each splittable. |
| TreeObs.SplitSubtree | flatlander/envs/observations/tree_obs.py:66-87 | A subtree's groups stay aligned. |
| TreeObs.SplitBranches | flatlander/envs/observations/tree_obs.py:79-85 | The branches' groups stay aligned. |
| TreeObs.SplitTree | flatlander/envs/observations/tree_obs.py:90-103 | The whole tree's groups stay aligned. |
| TreeObs.RegularIsSplittable | flatlander/envs/observations/tree_obs.py:76-80 | A tree of Flatland's shape never makes the split functions index a missing key. |
| TreeObs.RegularChildIsSplittable | flatlander/envs/observations/tree_obs.py:68-80 | The same for a branch, present or missing. |
| TreeObs.SubtreeNodes | flatlander/envs/observations/tree_obs.py:66-87 | A branch of Flatland's shape, present or missing, flattens to exactly the nodes of a complete tree of the remaining height. |
| TreeObs.BranchNodes | flatlander/envs/observations/tree_obs.py:79-85 | The four branches flatten to four complete subtrees one level down. |
| TreeObs.EachBranchNodes | flatlander/envs/observations/tree_obs.py:79-85 | Each listed branch contributes one complete subtree one level down. |
| TreeObs.TreeNodes | flatlander/envs/observations/tree_obs.py:90-103 | Flatland's tree for max depth D flattens to the sum of 4^i for i from 0 to D nodes. |
| TreeObs.TreeStartsAtRoot | flatlander/envs/observations/tree_obs.py:94 | The root's own features lead each group. |
| TreeObs.NormalizeObservation | flatlander/envs/observations/tree_obs.py:106-120 | The vector has 11 entries per node, and its agent part is clipped to [-1, 1]. |
| TreeObs.OneHot | flatlander/envs/observations/tree_obs.py:136-137 | The vector has one entry per agent: 1 at the handle and 0 elsewhere. |
| TreeObs.NormalizeWithAgentId | flatlander/envs/observations/tree_obs.py:123-139 | The normalised observation followed by the agent's one-hot id. |
| TreeObs.Get | flatlander/envs/observations/tree_obs.py:158-167 | There is an observation exactly when the builder returned a tree, and it is that tree flattened in the wrapper's mode. |
| TreeObs.GetManyIsEachGet | flatlander/envs/observations/tree_obs.py:169-179 | `get_many` agrees with `get` handle by handle, and drops exactly the handles without a tree. |
| TreeObs.ObservationSpace | flatlander/envs/observations/tree_obs.py:33-41 | The loop computes 11 times the nodes of a complete tree of the maximum depth, plus the agent count with agent ids. |
| TreeObs.GetFillsObservationSpace | flatlander/envs/observations/tree_obs.py:33-41 | For a tree of Flatland's shape, the observation has exactly the length of the declared space. |
| FixedTreeObs.ActionChar | flatlander/envs/observations/fixed_tree_obs.py:115 | Each explored action maps to one of the tree's branch keys. |
| FixedTreeObs.FeatureVector | flatlander/envs/observations/fixed_tree_obs.py:81-105 | A node vector has 11 entries, and its agent part lies in [-1, 1]. |
| FixedTreeObs.FeatureVectorIsSplitNode | flatlander/envs/observations/fixed_tree_obs.py:81-105 | A node's vector is the tree observation of that node alone, normalised the same way: slots 0-5 the six normalised data features, slot 6 the normalised distance to target, slots 7-10 the four agent features clipped to [-1, 1]. |
| FixedTreeObs.PostOrder | flatlander/envs/observations/fixed_tree_obs.py:107-119 | There is at least one row, and the last row is the node's own vector. |
| FixedTreeObs.PostOrderRows | flatlander/envs/observations/fixed_tree_obs.py:114-119 | There is one row per node reachable through the explored branches. |
| FixedTreeObs.ExploreStep | flatlander/envs/observations/fixed_tree_obs.py:114-117 | Exploring one more action appends that branch's rows. |
| FixedTreeObs.BranchRows | flatlander/envs/observations/fixed_tree_obs.py:115-117 | A branch is followed exactly when its key holds a node; `-inf` adds no rows. |
| FixedTreeObs.RowsFit | flatlander/envs/observations/fixed_tree_obs.py:64-70 | For a tree of Flatland's shape, the rows fit the padded table, and fill it when no branch is missing. |
| FixedTreeObs.RowList.constructor | flatlander/envs/observations/fixed_tree_obs.py:65 | The accumulator starts empty. |
| FixedTreeObs.PostOrderWidth | flatlander/envs/observations/fixed_tree_obs.py:81-119 | Every row has 11 entries. |
| FixedTreeObs.ExploreWidth | flatlander/envs/observations/fixed_tree_obs.py:114-117 | Every explored row has 11 entries. |
| FixedTreeObs.FixedTreeObsWrapper.constructor | flatlander/envs/observations/fixed_tree_obs.py:37-47 | `max_nr_nodes`, computed by the loop, is the node count of a complete tree of the maximum depth. |
| FixedTreeObs.FixedTreeObsWrapper.Dfs | flatlander/envs/observations/fixed_tree_obs.py:107-119 | `dfs` appends exactly the node's post-order rows. |
| FixedTreeObs.FixedTreeObsWrapper.BuildPairs | flatlander/envs/observations/fixed_tree_obs.py:64-70 | `_build_pairs` returns a fresh `max_nr_nodes` by 11 table with the post-order rows on top and `-inf` below them. |
| FixedTreeObs.FixedTreeObsWrapper.CopyRow | flatlander/envs/observations/fixed_tree_obs.py:69 | Row i becomes the given row, and every other row is unchanged. |
| FixedTreeObs.FixedTreeObsWrapper.GetMany | flatlander/envs/observations/fixed_tree_obs.py:72-75 | There is a padded table exactly for each handle whose tree is not None. |
| FixedTreeObs.RegularTreesFit | flatlander/envs/observations/fixed_tree_obs.py:64-75 | Every tree of Flatland's shape for the wrapper's depth fits its table. |
| SimpleMetaObs.AtStart | flatlander/envs/observations/simple_meta_obs.py:73-74 | Only agents starting at that cell are kept. |
| SimpleMetaObs.WithHeading | flatlander/envs/observations/simple_meta_obs.py:76-77 | Only agents starting with that heading are kept. |
| SimpleMetaObs.InAtStart | flatlander/envs/observations/simple_meta_obs.py:73-74 | An agent starting at the cell is kept. |
| SimpleMetaObs.InWithHeading | flatlander/envs/observations/simple_meta_obs.py:76-77 | An agent with the heading is kept. |
| SimpleMetaObs.SameStartCounts | flatlander/envs/observations/simple_meta_obs.py:73-77 | Both counts include the agent itself. Sharing the heading too is no more common than sharing the cell, and both are at most all agents. |
| SimpleMetaObs.StartFraction | flatlander/envs/observations/simple_meta_obs.py:66-82 | The distance fraction lies in [0, 1]. |
| SimpleMetaObs.Get | flatlander/envs/observations/simple_meta_obs.py:59-85 | The vector has five entries: the fraction in [0, 1], the same-start count, the same-start-and-heading count (at least 1 and at most the same-start count), and two zeros. |
| SimpleMetaObs.MaxOf | flatlander/envs/observations/simple_meta_obs.py:44-45 | The maximum bounds every count and is one of them. |
| SimpleMetaObs.StartCounts | flatlander/envs/observations/simple_meta_obs.py:45 | Entry i is handle i's same-start count, at least 1 (the agent itself) and at most the number of agents. |
| SimpleMetaObs.HeadingCounts | flatlander/envs/observations/simple_meta_obs.py:44 | Entry i is handle i's same-start-and-heading count, at least 1 and at most its same-start count. |
| SimpleMetaObs.DistinctAtMostAll | flatlander/envs/observations/simple_meta_obs.py:53-54 | Distinct conflicts never outnumber all conflicts. |
| SimpleMetaObs.WithinMaxima | flatlander/envs/observations/simple_meta_obs.py:44-45 | Each agent's counts are positive and at most the maxima over the handles. |
| SimpleMetaObs.RescaledBounds | flatlander/envs/observations/simple_meta_obs.py:50-54 | With maxima at least what they divide, every rescaled field lies in [0, 1], the conflict fields lie below 1, and distinct conflicts never exceed the total. |
| SimpleMetaObs.NormalisedBounds | flatlander/envs/observations/simple_meta_obs.py:43-54 | Every field of a normalised observation lies in [0, 1], the conflict fields below 1, and the distinct fraction never exceeds the total fraction. |
| SimpleMetaObs.Positions | flatlander/envs/observations/simple_meta_obs.py:36 | The detector receives a position for exactly the handles, the `get_position` of each agent; a handle has none exactly when its agent was removed or is active off the grid. |
| SimpleMetaObs.RawObs | flatlander/envs/observations/simple_meta_obs.py:43 | There is a five-entry `get` vector for exactly the handles. |
| SimpleMetaObs.GetMany | flatlander/envs/observations/simple_meta_obs.py:31-57 | At the first step, it returns the normalised observation of every handle. It fails exactly when there are no handles (`max` of nothing, reported as `NoHandles`) or some handle has no conflict entry, and then it names the first such handle in handle order. Later, it returns an empty list per handle. |
| SimpleMetaObs.FirstStep | flatlander/envs/observations/simple_meta_obs.py:33-55 | The first-step branch returns observations described by the normalisation with the longest conflict list. |
| SimpleMetaObs.EmptyLists | flatlander/envs/observations/simple_meta_obs.py:57 | There is one fresh empty list per handle. |
| SimpleMetaObs.Observe | flatlander/envs/observations/simple_meta_obs.py:43 | There is one fresh, unshared array per handle, holding its `get` vector. |
| SimpleMetaObs.Longest | flatlander/envs/observations/simple_meta_obs.py:49 | The result is the length of the longest conflict list. |
| SimpleMetaObs.MissingEntry | flatlander/envs/observations/simple_meta_obs.py:50-53 | No handle is missing exactly when every handle has a conflict list. Otherwise the result is the first handle, in handle order, without one: the lookup that raises. |
| SimpleMetaObs.NormaliseAll | flatlander/envs/observations/simple_meta_obs.py:50-54 | The loop over `obs.items()` rescales every array in place, as specified. |
| SimpleMetaObs.NormaliseOne | flatlander/envs/observations/simple_meta_obs.py:51-54 | One array is rescaled field by field, as specified. |

## Left out

- Floating point. Distances are whole numbers, with infinity and NaN tagged. The observation arrays are reals or integers, without rounding.
- `norm_obs_clip`: its source is not part of this model. It is a parameter (`Scaling`) applied to each entry with the whole group in view. `normalize_fixed` and `observation_radius` select which scaling is passed.
- `GreedyGraphColoring`: it is not part of this model. It is the `Colouring` parameter of `get_many`.
- The trajectory predictor: it is not part of this model. Its predictions are a parameter of `get_many`.
- `ShortestPathConflictDetector`, used by the simple meta observation: it is not part of this model. It is the `detect` parameter.
- `TreeObsForRailEnv` and the rail simulator are not part of this model. Their trees, transitions and tick results are inputs.
- Flatland's `coordinate_to_position` (Flatland's grid utilities, not part of this model) is `CellIndex`: the column times the multiplier plus the row, called with the grid width. On a grid taller than it is wide two cells can share an id (`CellIdsCollide`), and the model keeps that collision; ids are unique when every row index is below the width (`CellIndexUnique`). A predicted step without a position (NaN, which that function maps to -1) is not modelled: predicted steps always carry a cell.
- `time_per_cell` (`1 / speed`) is a whole number of ticks per cell, and `int(tot_dist * time_per_cell)` is repeated addition. Fractional speeds other than 1/k are not modelled.
- The `asserts` debugging flag of the conflict builder (lines 125-129) is not modelled. It defaults to off.
- The `location_has_agent*` dictionaries and `_conflict_map` (lines 89-109) are not modelled. They are computed but never read by the modelled code.
- `encode_one_hot=False` is not modelled. The builder is always created with the one-hot encoding.
- The conflict observation's `observation_space` is not modelled: it is a constant Gym space.
- `positional_encoding_len` and `NUMBER_ACTIONS` are not part of this model.
- The `reset`, `set_env` and `observation_dim` delegations of the wrappers, and their `get` through the builder, are not modelled. The trees a wrapper receives are parameters.
- State after a fault: a fault leaves the builder's maps partly updated. The model states the result of a failing `get_many`, not the maps it leaves behind.
- GymEnv.FlatlandGymEnv.Record: on a fault the ledger keeps the entries recorded before it. The contract states the fault, not that partial ledger; `RecordEntry` states the ledger after its own fault.
- Indexing faults the code does not guard are preconditions, not faults:
  - an agent handle out of range, or a cell off the grid;
  - a tree branch key missing in the tree observations (`Splittable`);
  - a prediction shorter than the maximum depth;
  - a row index for `np.delete` beyond the row, for an agent that has not been removed (numpy from 1.19 raises IndexError there). A removed agent never reaches `detect_conflicts`, so nothing is required of the tables for it.
- `ConflictObservation.ObsFault`:
  - `TooManyMoves` stands for the broadcast error numpy raises when a third legal move is written past the 14 slots.
  - `NoDistanceScale`: when the largest finite distance is 0 and some move is legal, numpy divides to NaN and casts it to an unspecified integer without raising. The model reports this fault instead of inventing that value. With no legal move nothing is divided, and the observation is 14 zeros.
- The simulator is a finite script of tick results. Running out of it is `SimulatorStopped`, which the endless simulator never does. The render flag is not modelled, and the regeneration flags are only logged with each reset.
- `GymEnv.Score`: rewards and scores are integers, whereas the source uses `defaultdict(float)`.
- The `assert` at line 75 of `gym_env.py` always holds after the loop and is not modelled.
- `infos` returned by the simulator are not modelled. The info entries are built from the wrapper's own ledger and the last tick's active agents.
- `SimpleMetaObs.GetMany` requires a positive largest finite distance and in-range handles at the first step. Otherwise the source divides by zero or indexes out of range.
- The `handles is None` branch of the simple meta `get_many` is not modelled: `handles` is always a list. The `1e-7` denominator without conflicts never reaches a return: it is followed by the `KeyError` of the first handle, which the model reports.
- The simple meta builder keeps its conflict detector as a field. The model passes the detector as a parameter, and nothing else reads the field.
