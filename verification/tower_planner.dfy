/** The older tree's tower planners. `TowerPlannerTabu` picks its own
    blocks from the world, one at a time, and stacks them with tabu-search
    flights until the tower has the requested height. `TowerPlannerCrow`
    samples the blocks a tower should use and lets the crow search assign
    them. */
module TowerPlanners {
  import opened Common
  import opened Labels
  import opened WorldModel
  import opened DroneOps
  import opened LegacyWorld
  import opened Oracle
  import opened PopulationAlgorithm
  import opened TowerRunners
  import LegacyCrow

  /** The tabu memory limit of every flight. */
  const FlightLimit: int := 5

  /** `TowerPlannerTabu`'s fields: the tower column, the height to reach and
      the world. */
  datatype TabuTower = TabuTower(gx: int, goalY: int, gz: int, world: LWorld)

  /** The constructor: anything but a world is a TypeError. */
  function NewTabuTower(x: int, y: int, z: int, world: WorldArg): (r: Result<TabuTower>)
    ensures r.Ok? <==> world.TheWorld?
    ensures r.Err? ==> r.error == TypeError
    ensures r.Ok? ==> r.value == TabuTower(x, y, z, world.world)
  {
    if world.NotAWorld? then Err(TypeError) else Ok(TabuTower(x, y, z, world.world))
  }

  /** The first entry from the `k`-th on that is not the drone and lies
      outside the tower column. */
  function FirstCandidate(s: seq<Entry<ObjectId>>, gx: int, gz: int, k: nat): (r: Option<nat>)
    requires k <= |s|
    ensures r.Some? ==> k <= r.value < |s| && s[r.value].id != DroneId && !InColumn(s[r.value].pos, gx, gz)
    ensures r.Some? ==> forall j :: k <= j < r.value ==> s[j].id == DroneId || InColumn(s[j].pos, gx, gz)
    ensures r.None? ==> forall j :: k <= j < |s| ==> s[j].id == DroneId || InColumn(s[j].pos, gx, gz)
    decreases |s| - k
  {
    if k == |s| then None
    else if s[k].id == DroneId || InColumn(s[k].pos, gx, gz) then FirstCandidate(s, gx, gz, k + 1)
    else Some(k)
  }

  /** `generate_attach_goal`: the cell above the first entry of the world's
      state that is not the drone and lies outside the tower column, which
      must lie in the world. Without such an entry the method falls off its
      end and returns `None`. Reading the state fails without a drone. */
  function AttachGoalOf(w: World<ObjectId>, gx: int, gz: int): (r: Result<Option<Cell>>)
    ensures w.drone.None? ==> r == Err(AttributeError)
    ensures r.Err? ==> r.error in {AttributeError, RuntimeError}
    ensures w.drone.Some? ==> var s := State(w).value;
      match FirstCandidate(s, gx, gz, 0)
      case None => r == Ok(None)
      case Some(j) => r == (if InBounds(w.bounds, Above(s[j].pos)) then Ok(Some(Above(s[j].pos))) else Err(RuntimeError))
    ensures r.Ok? && r.value.Some? ==> !InColumn(Below(r.value.value), gx, gz)
  {
    match State(w)
    case Err(e) => Err(e)
    case Ok(s) =>
      match FirstCandidate(s, gx, gz, 0)
      case None => Ok(None)
      case Some(j) =>
        if !InBounds(w.bounds, Above(s[j].pos)) then Err(RuntimeError) else Ok(Some(Above(s[j].pos)))
  }

  /** `generate_release_goal` as written: the bounds are checked two levels
      above the tower but the goal returned is one level above it. */
  function ReleaseGoalAsWritten(b: Bounds, gx: int, gz: int, height: nat): (r: Result<Cell>)
    ensures r.Ok? <==> InBounds(b, Cell(gx, height + 2, gz))
    ensures r.Ok? ==> r.value == Cell(gx, height + 1, gz)
    ensures r.Err? ==> r.error == RuntimeError
  {
    if !InBounds(b, Cell(gx, height + 2, gz)) then Err(RuntimeError) else Ok(Cell(gx, height + 1, gz))
  }

  /** As written, a tower one level below the ceiling is refused its last
      block although the release goal lies in the world; the goal that
      checks the cell it returns accepts it. */
  lemma AsWrittenRefusesTop(b: Bounds, gx: int, gz: int, height: nat)
    requires InBounds(b, Cell(gx, height + 1, gz)) && b.yMax == height + 1
    ensures ReleaseGoalAsWritten(b, gx, gz, height) == Err(RuntimeError)
    ensures ReleaseGoal(b, gx, gz, height) == Ok(Cell(gx, height + 1, gz))
  {
  }

  /** As written, a world whose floor lies two above the tower accepts a
      release goal below the floor, which no flight can reach; the goal
      that checks the cell it returns refuses it. */
  lemma AsWrittenAcceptsBelowFloor(b: Bounds, gx: int, gz: int, height: nat)
    requires InBounds(b, Cell(gx, height + 2, gz)) && b.yMin == height + 2
    ensures ReleaseGoalAsWritten(b, gx, gz, height).Ok?
    ensures !InBounds(b, ReleaseGoalAsWritten(b, gx, gz, height).value)
    ensures ReleaseGoal(b, gx, gz, height) == Err(RuntimeError)
  {
  }

  /** Which release goal a run uses. */
  datatype ReleaseCheck = CheckedAsWritten | CheckedAtGoal

  function ReleaseGoalBy(check: ReleaseCheck, b: Bounds, gx: int, gz: int, height: nat): (r: Result<Cell>)
    ensures r.Ok? ==> r.value == Cell(gx, height + 1, gz)
    ensures r.Err? ==> r.error == RuntimeError
  {
    match check
    case CheckedAsWritten => ReleaseGoalAsWritten(b, gx, gz, height)
    case CheckedAtGoal => ReleaseGoal(b, gx, gz, height)
  }

  /** One pass of the `while` loop: pick the next block, deliver it one
      level above the tower. An attach goal of `None` fails when it is
      unpacked. */
  function Pass(pl: TabuTower, check: ReleaseCheck, t: Tower, fuel: nat): (r: Result<Tower>)
    requires Valid(t.world.world)
    ensures r.Ok? ==> Valid(r.value.world.world) && |r.value.world.world.blocks| == |t.world.world.blocks|
    ensures r.Ok? ==> r.value.height == t.height + 1 && t.path <= r.value.path
    ensures r.Ok? ==> !IsAttached(t.world.world) && !IsAttached(r.value.world.world)
    ensures r.Err? ==> r.error in {TypeError, RuntimeError, AttributeError, IndexError, Diverges}
  {
    match AttachGoalOf(t.world.world, pl.gx, pl.gz)
    case Err(e) => Err(e)
    case Ok(None) => Err(TypeError)
    case Ok(Some(pickUp)) =>
      match Deliver(t.world, pickUp, ReleaseGoalBy(check, pl.world.world.bounds, pl.gx, pl.gz, t.height), FlightLimit, fuel)
      case Err(e) => Err(e)
      case Ok(tr) => Ok(Tower(tr.world, t.height + 1, t.placed + [tr.carried], t.path + tr.path))
  }

  /** A pass keeps the tower stacked: the block it takes sat outside the
      column, so it is none of the blocks already placed. */
  lemma PassStacks(pl: TabuTower, check: ReleaseCheck, t: Tower, base: nat, fuel: nat)
    requires Valid(t.world.world) && Stacked(pl.gx, pl.gz, base, t) && Pass(pl, check, t, fuel).Ok?
    ensures Stacked(pl.gx, pl.gz, base, Pass(pl, check, t, fuel).value)
  {
    var pickUp := AttachGoalOf(t.world.world, pl.gx, pl.gz).value.value;
    var dropOff := ReleaseGoalBy(check, pl.world.world.bounds, pl.gx, pl.gz, t.height);
    var tr := Deliver(t.world, pickUp, dropOff, FlightLimit, fuel).value;
    DeliverStacks(pl.gx, pl.gz, base, t, tr, Below(pickUp));
  }

  /** The `while` loop, given `passes` rounds: it stops once the height
      equals `goal_y`, so a height it can never equal (a negative one) only
      ends in an error. */
  function Climb(pl: TabuTower, check: ReleaseCheck, t: Tower, base: nat, passes: nat, fuel: nat): (r: Result<Tower>)
    requires Valid(t.world.world)
    ensures t.height == pl.goalY ==> r == Ok(t)
    ensures r.Ok? ==> r.value.height == pl.goalY && t.path <= r.value.path
    ensures r.Ok? ==> Valid(r.value.world.world) && |r.value.world.world.blocks| == |t.world.world.blocks|
    ensures r.Ok? && t.height != pl.goalY ==> !IsAttached(t.world.world) && !IsAttached(r.value.world.world)
    ensures r.Ok? && Stacked(pl.gx, pl.gz, base, t) ==> Stacked(pl.gx, pl.gz, base, r.value)
    ensures r.Err? ==> r.error in {TypeError, RuntimeError, AttributeError, IndexError, Diverges}
    decreases passes
  {
    if t.height == pl.goalY then Ok(t)
    else if passes == 0 then Err(Diverges)
    else
      match Pass(pl, check, t, fuel)
      case Err(e) => Err(e)
      case Ok(t2) =>
        assert Stacked(pl.gx, pl.gz, base, t) ==> Stacked(pl.gx, pl.gz, base, t2) by {
          if Stacked(pl.gx, pl.gz, base, t) {
            PassStacks(pl, check, t, base, fuel);
          }
        }
        Climb(pl, check, t2, base, passes - 1, fuel)
  }

  /** `run` with either release goal: from height zero, climb to `goal_y`.
      A run that gets through has stacked `goal_y` different blocks in the
      tower column, the `i`-th no higher than level `i`, and the drone's
      counter has grown by the length of every replayed action. */
  function RunBy(pl: TabuTower, check: ReleaseCheck, passes: nat, fuel: nat): (r: Result<Tower>)
    requires Valid(pl.world.world)
    ensures pl.goalY == 0 ==> r == Ok(Tower(pl.world, 0, [], []))
    ensures pl.goalY < 0 ==> r.Err?
    ensures r.Ok? ==> r.value.height == pl.goalY && Stacked(pl.gx, pl.gz, pl.world.droneMoves, r.value)
    ensures r.Ok? ==> Valid(r.value.world.world) && |r.value.world.world.blocks| == |pl.world.world.blocks|
    ensures r.Err? ==> r.error in {TypeError, RuntimeError, AttributeError, IndexError, Diverges}
  {
    var t := Tower(pl.world, 0, [], []);
    assert Stacked(pl.gx, pl.gz, pl.world.droneMoves, t);
    Climb(pl, check, t, pl.world.droneMoves, passes, fuel)
  }

  /** `run` as written, with the release goal checked two levels up. */
  function RunAsWritten(pl: TabuTower, passes: nat, fuel: nat): (r: Result<Tower>)
    requires Valid(pl.world.world)
    ensures r.Ok? ==> r.value.height == pl.goalY && Stacked(pl.gx, pl.gz, pl.world.droneMoves, r.value)
  {
    RunBy(pl, CheckedAsWritten, passes, fuel)
  }

  /** `run` with the release goal checked where it is, the definition the
      rest of the model uses. The tower gets `goal_y` different blocks. */
  function Run(pl: TabuTower, passes: nat, fuel: nat): (r: Result<Tower>)
    requires Valid(pl.world.world)
    ensures pl.goalY < 0 ==> r.Err?
    ensures r.Ok? ==> |r.value.placed| == pl.goalY && NoDup(r.value.placed)
    ensures r.Ok? ==> forall i :: 0 <= i < |r.value.placed| ==>
      r.value.placed[i] < |r.value.world.world.blocks|
      && InColumn(r.value.world.world.blocks[r.value.placed[i]].pos, pl.gx, pl.gz)
    ensures r.Ok? ==> r.value.world.droneMoves == pl.world.droneMoves + PathLength(r.value.path)
  {
    RunBy(pl, CheckedAtGoal, passes, fuel)
  }

  /** `moves`: every replayed action, counted once. */
  function Moves(pl: TabuTower, passes: nat, fuel: nat): (r: Result<nat>)
    requires Valid(pl.world.world)
    ensures pl.goalY == 0 ==> r == Ok(0)
    ensures r.Ok? <==> Run(pl, passes, fuel).Ok?
    ensures r.Ok? ==> r.value == |Run(pl, passes, fuel).value.path|
  {
    match Run(pl, passes, fuel)
    case Err(e) => Err(e)
    case Ok(t) => Ok(|t.path|)
  }

  /** `moves` as written, over the run whose release goal is checked two
      levels up: an empty tower costs nothing, a negative height fails. */
  function MovesAsWritten(pl: TabuTower, passes: nat, fuel: nat): (r: Result<nat>)
    requires Valid(pl.world.world)
    ensures pl.goalY == 0 ==> r == Ok(0)
    ensures pl.goalY < 0 ==> r.Err?
    ensures r.Ok? <==> RunAsWritten(pl, passes, fuel).Ok?
    ensures r.Ok? ==> r.value == |RunAsWritten(pl, passes, fuel).value.path|
  {
    match RunAsWritten(pl, passes, fuel)
    case Err(e) => Err(e)
    case Ok(t) => Ok(|t.path|)
  }

  /** `TowerPlannerCrow`'s fields: the world and the tower height. */
  datatype CrowTower = CrowTower(world: LWorld, height: int)

  /** The constructor: anything but a world is a TypeError, and a height
      above `y_max - 1` is a ValueError. */
  function NewCrowTower(world: WorldArg, height: int): (r: Result<CrowTower>)
    ensures r.Ok? <==> world.TheWorld? && height <= world.world.world.bounds.yMax - 1
    ensures world.NotAWorld? ==> r == Err(TypeError)
    ensures world.TheWorld? && r.Err? ==> r.error == ValueError
    ensures r.Ok? ==> r.value == CrowTower(world.world, height)
  {
    if world.NotAWorld? then Err(TypeError)
    else if height > world.world.world.bounds.yMax - 1 then Err(ValueError)
    else Ok(CrowTower(world.world, height))
  }

  /** The position of the last entry carrying the drone's id, if any. */
  function LastDrone(s: seq<Block>): (r: Option<Cell>)
    ensures r.None? <==> forall i :: 0 <= i < |s| ==> s[i].id != DroneId
    ensures |s| > 0 && s[|s| - 1].id == DroneId ==> r == Some(s[|s| - 1].pos)
    decreases |s|
  {
    if |s| == 0 then None
    else if s[|s| - 1].id == DroneId then Some(s[|s| - 1].pos)
    else
      var r := LastDrone(s[..|s| - 1]);
      assert forall i :: 0 <= i < |s| - 1 ==> s[..|s| - 1][i] == s[i];
      r
  }

  /** The entry is not the drone. */
  predicate NotDrone(e: Block) {
    e.id != DroneId
  }

  /** What `_initialize_planner` sets: `drone_pos` and `blocks`. */
  datatype Planning = Planning(drone: Option<Cell>, blocks: seq<Block>)

  /** `_initialize_planner`: the state's entries with the drone's id set
      `drone_pos`, the last one winning; every other entry goes to `blocks`,
      in order. The world's own drone comes last, so it is the one read. */
  function InitializePlanner(w: World<ObjectId>): (r: Result<Planning>)
    ensures r.Err? <==> w.drone.None?
    ensures r.Err? ==> r.error == AttributeError
    ensures r.Ok? && w.drone.value.body.id == DroneId ==> r.value.drone == Some(w.drone.value.body.pos)
    ensures r.Ok? ==> forall e :: e in r.value.blocks <==> e in State(w).value && e.id != DroneId
    ensures r.Ok? ==> Subseq(r.value.blocks, State(w).value)
  {
    match State(w)
    case Err(e) => Err(e)
    case Ok(s) =>
      var blocks := Filter(s, NotDrone);
      assert forall e :: e in s && e.id != DroneId ==> e in blocks by {
        forall e | e in s && e.id != DroneId ensures e in blocks {
          var i :| 0 <= i < |s| && s[i] == e;
        }
      }
      Ok(Planning(LastDrone(s), blocks))
  }

  /** `_generate_goal`: fewer blocks than the height is a RuntimeError;
      otherwise `random.sample` picks `height` entries at different
      positions of `blocks` (a negative height is its ValueError). */
  function GenerateGoal(blocks: seq<Block>, height: int, o: Draws): (r: Result<Drawn<seq<Block>>>)
    ensures |blocks| < height ==> r == Err(RuntimeError)
    ensures height < 0 ==> r == Err(ValueError)
    ensures 0 <= height <= |blocks| ==> (r.Ok? <==> |o| >= height)
    ensures r.Ok? ==> |r.value.value| == height && forall e :: e in r.value.value ==> e in blocks
    ensures r.Ok? && NoDup(blocks) ==> NoDup(r.value.value)
  {
    if !(|blocks| >= height) then Err(RuntimeError)
    else
      match Sample(|blocks|, height, o)
      case Err(e) => Err(e)
      case Ok(d) =>
        var ix := d.value;
        var goal := seq(|ix|, i requires 0 <= i < |ix| => blocks[ix[i]]);
        assert NoDup(blocks) ==> NoDup(goal) by {
          if NoDup(blocks) {
            forall i, j | 0 <= i < j < |goal| ensures goal[i] != goal[j] {
              assert ix[i] != ix[j];
            }
          }
        }
        Ok(Drawn(goal, d.rest))
  }

  /** What `run` returns, with the drone position and blocks it read and
      the goal it sampled. */
  datatype CrowPlan = CrowPlan(drone: Cell, blocks: seq<Block>, goal: seq<Block>, score: real, solution: seq<Block>)

  /** `run`: read the world, sample the goal and run the crow search. An
      entry list without the drone's id leaves `drone_pos` at `None`, which
      the search cannot measure from. The solution gives every goal slot a
      different block of the world of the slot's colour, and the score is
      the solution's fitness. */
  function CrowRun(dist: Metric, ct: CrowTower, o: Draws): (r: Result<CrowPlan>)
    ensures ct.world.world.drone.None? ==> r == Err(AttributeError)
    ensures r.Ok? ==> InitializePlanner(ct.world.world) == Ok(Planning(Some(r.value.drone), r.value.blocks))
    ensures r.Ok? ==> |r.value.goal| == ct.height && forall e :: e in r.value.goal ==> e in r.value.blocks
    ensures r.Ok? ==> Fits(r.value.blocks, r.value.goal, r.value.solution)
    ensures r.Ok? ==> LegacyCrow.CrowFitness(dist, r.value.drone, r.value.solution) == Ok(r.value.score)
  {
    match InitializePlanner(ct.world.world)
    case Err(e) => Err(e)
    case Ok(su) =>
      match GenerateGoal(su.blocks, ct.height, o)
      case Err(e) => Err(e)
      case Ok(g) =>
        if su.drone.None? then Err(TypeError)
        else
          match LegacyCrow.Run(dist, su.drone.value, su.blocks, g.value, g.rest)
          case Err(e) => Err(e)
          case Ok(a) =>
            LegacyCrow.RunFits(dist, su.drone.value, su.blocks, g.value, g.rest);
            Ok(CrowPlan(su.drone.value, su.blocks, g.value, a.score, a.best))
  }
}
