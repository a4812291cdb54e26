/**
 * The read-only snapshot of a Flatland rail environment that the observation
 * builders consult: agents, the rail's transition table (an oracle), and the
 * distance map (a dense table of distances to each agent's target, in the
 * layout numpy gives `distance_map[handle][row, col, direction]`).
 */
module Flatland {

  datatype Option<+T> = None | Some(value: T)

  datatype Result<+T, +E> = Success(value: T) | Failure(error: E)

  /** Flatland's four headings: 0 North, 1 East, 2 South, 3 West. */
  type Direction = d: int | 0 <= d < 4

  datatype Position = Position(row: int, col: int)

  /** `get_new_position`: one cell in the given heading. */
  function NewPosition(p: Position, heading: Direction): Position
  {
    match heading
    case 0 => Position(p.row - 1, p.col)
    case 1 => Position(p.row, p.col + 1)
    case 2 => Position(p.row + 1, p.col)
    case 3 => Position(p.row, p.col - 1)
  }

  /** The new cell is a grid neighbour: exactly one coordinate moves, by one. */
  lemma NewPositionIsNeighbour(p: Position, heading: Direction)
    ensures var q := NewPosition(p, heading);
            && q != p
            && (q.row - p.row) * (q.row - p.row) + (q.col - p.col) * (q.col - p.col) == 1
  {
  }

  /**
   * `coordinate_to_position(width, [p])`: Flatland's integer id of a cell,
   * the column times the multiplier it is given plus the row.
   */
  function CellIndex(width: int, p: Position): int
  {
    p.col * width + p.row
  }

  /** With the grid width as multiplier, ids tell cells apart when every row index is below the width. */
  lemma CellIndexUnique(width: int, p: Position, q: Position)
    requires 0 <= p.row < width && 0 <= q.row < width && 0 <= p.col && 0 <= q.col
    ensures CellIndex(width, p) == CellIndex(width, q) <==> p == q
  {
    if p.col < q.col {
      MulLe(p.col + 1, q.col, width);
    } else if q.col < p.col {
      MulLe(q.col + 1, p.col, width);
    }
  }

  /** On a grid taller than it is wide, cell (width, 0) and cell (0, 1) share an id. */
  lemma CellIdsCollide(width: nat)
    ensures CellIndex(width, Position(width, 0)) == CellIndex(width, Position(0, 1))
    ensures Position(width, 0) != Position(0, 1)
  {
  }

  /** The four transition bits `get_transitions(row, col, heading)` returns, indexed by exit heading. */
  type Transitions = s: seq<bool> | |s| == 4 witness [false, false, false, false]

  datatype Status = ReadyToDepart | Active | Done | DoneRemoved

  /**
   * An agent as the builders read it. `timePerCell` is `1 / speed_data['speed']`,
   * a whole number of ticks per cell for Flatland's speeds 1, 1/2, 1/3, 1/4.
   * The agent stored at index i of `Env.agents` has handle i.
   */
  datatype Agent = Agent(
    status: Status,
    initialPosition: Position,
    initialDirection: Direction,
    position: Option<Position>,
    direction: Direction,
    target: Position,
    timePerCell: int)

  /** An entry of the distance map: a float that may be infinite or NaN. */
  datatype Dist = Finite(value: nat) | Infinite | NotANumber

  datatype Env = Env(
    height: nat,
    width: nat,
    agents: seq<Agent>,
    rail: (Position, Direction) -> Transitions,
    distances: seq<Dist>)

  predicate InGrid(env: Env, p: Position)
  {
    0 <= p.row < env.height && 0 <= p.col < env.width
  }

  predicate AgentOnGrid(env: Env, a: Agent)
  {
    && InGrid(env, a.initialPosition)
    && InGrid(env, a.target)
    && (a.position.Some? ==> InGrid(env, a.position.value))
    && (a.status == Active ==> a.position.Some?)
    && a.timePerCell >= 1
  }

  predicate HasFiniteDistance(values: seq<Dist>)
  {
    exists i :: 0 <= i < |values| && values[i].Finite?
  }

  /**
   * What Flatland guarantees of an environment: the distance map has shape
   * (agents, height, width, 4) and at least one finite entry, a legal
   * transition from a cell on the grid leads to a cell on the grid, and every
   * agent's cells lie on the grid.
   */
  ghost predicate WellFormed(env: Env)
  {
    && |env.distances| == |env.agents| * env.height * env.width * 4
    && HasFiniteDistance(env.distances)
    && (forall p: Position, d: Direction, m: Direction ::
          InGrid(env, p) && env.rail(p, d)[m] ==> InGrid(env, NewPosition(p, m)))
    && (forall i :: 0 <= i < |env.agents| ==> AgentOnGrid(env, env.agents[i]))
  }

  lemma MulLe(a: nat, b: nat, c: nat)
    requires a <= b
    ensures a * c <= b * c
  {
  }

  lemma IndexBound(h: nat, r: nat, c: nat, m: nat, agents: nat, height: nat, width: nat)
    requires h < agents && r < height && c < width && m < 4
    ensures ((h * height + r) * width + c) * 4 + m < agents * height * width * 4
  {
    var x := h * height + r;
    assert x < agents * height by {
      assert x < (h + 1) * height;
      MulLe(h + 1, agents, height);
    }
    var y := x * width + c;
    assert y < agents * height * width by {
      assert y < (x + 1) * width;
      MulLe(x + 1, agents * height, width);
    }
  }

  /** `distance_map[handle][row, col, heading]` */
  function DistanceAt(env: Env, handle: nat, p: Position, heading: Direction): Dist
    requires WellFormed(env) && handle < |env.agents| && InGrid(env, p)
  {
    IndexBound(handle, p.row, p.col, heading, |env.agents|, env.height, env.width);
    env.distances[((handle * env.height + p.row) * env.width + p.col) * 4 + heading]
  }

  /** `np.max(distance_map[nan_inf_mask])`: the largest finite entry. */
  function MaxFinite(values: seq<Dist>): (m: nat)
    requires HasFiniteDistance(values)
    ensures Finite(m) in values
    ensures forall i :: 0 <= i < |values| && values[i].Finite? ==> values[i].value <= m
    decreases |values|
  {
    var rest := values[1..];
    if !HasFiniteDistance(rest) then
      assert forall i :: 1 <= i < |values| ==> values[i] == rest[i - 1];
      values[0].value
    else
      var m := MaxFinite(rest);
      assert forall i :: 1 <= i < |values| ==> values[i] == rest[i - 1];
      if values[0].Finite? && values[0].value > m then values[0].value else m
  }

  function MaxDistance(env: Env): nat
    requires WellFormed(env)
  {
    MaxFinite(env.distances)
  }

  /**
   * A distance with infinity and NaN replaced by the largest finite distance
   * (`max_distance if distance == inf or isnan(distance) else distance`).
   */
  function EffectiveDistance(env: Env, handle: nat, p: Position, heading: Direction): nat
    requires WellFormed(env) && handle < |env.agents| && InGrid(env, p)
  {
    match DistanceAt(env, handle, p, heading)
    case Finite(v) => v
    case Infinite => MaxDistance(env)
    case NotANumber => MaxDistance(env)
  }

  /**
   * The replaced distance is the map's entry when that is finite and the
   * largest finite entry otherwise, so it never exceeds the largest finite
   * entry of the whole map.
   */
  lemma EffectiveDistanceBounded(env: Env, handle: nat, p: Position, heading: Direction)
    requires WellFormed(env) && handle < |env.agents| && InGrid(env, p)
    ensures EffectiveDistance(env, handle, p, heading) <= MaxDistance(env)
    ensures DistanceAt(env, handle, p, heading).Finite? ==>
              EffectiveDistance(env, handle, p, heading) == DistanceAt(env, handle, p, heading).value
    ensures !DistanceAt(env, handle, p, heading).Finite? ==> EffectiveDistance(env, handle, p, heading) == MaxDistance(env)
  {
    IndexBound(handle, p.row, p.col, heading, |env.agents|, env.height, env.width);
    var i := ((handle * env.height + p.row) * env.width + p.col) * 4 + heading;
    assert DistanceAt(env, handle, p, heading) == env.distances[i];
  }

  /**
   * The cell an agent is considered to stand on: its start cell while ready to
   * depart, its cell while active, its target once done, and none otherwise.
   */
  function VirtualPosition(a: Agent): (p: Option<Position>)
    ensures p.Some? <==> (a.status == ReadyToDepart || (a.status == Active && a.position.Some?) || a.status == Done)
    ensures a.status == ReadyToDepart ==> p == Some(a.initialPosition)
    ensures a.status == Active ==> p == a.position
    ensures a.status == Done ==> p == Some(a.target)
  {
    match a.status
    case ReadyToDepart => Some(a.initialPosition)
    case Active => a.position
    case Done => Some(a.target)
    case DoneRemoved => None
  }
}
