/** The newer low-level planner: a tabu search over goal states that wrap a
    copy of the world, whose solution is then replayed on the real world. */
module TabuPlanner {
  import opened Common
  import opened WorldModel
  import opened DroneOps
  import opened NewerWorld
  import opened Search
  import opened Tabu
  import opened GoalState

  /** `DroneWorld.move` as the search sees it. Without a drone Python raises;
      the wrapper is only ever built around a world with a drone, where this
      is exactly `Drone.move`. */
  function NewerMove(w: World<Label>, a: Cell): World<Label> {
    if !AttachedOk(w) then w
    else match DroneMove(w, a)
      case Ok(m) => m.world
      case Err(_) => w
  }

  /** `DroneWorld.actions`, the drone's legal moves. */
  function NewerActions(w: World<Label>): seq<Cell> {
    if !AttachedOk(w) then []
    else match DroneActions(w)
      case Ok(v) => v
      case Err(_) => []
  }

  /** `get_drone_location`, read only where a drone exists. */
  function NewerLoc(w: World<Label>): Cell {
    if w.drone.Some? then w.drone.value.body.pos else Cell(0, 0, 0)
  }

  const NewerMover: Mover<World<Label>> := Mover(NewerActions, NewerMove, NewerLoc)

  /** On a valid world with a drone, the search's move is `Drone.move`: it
      keeps the world valid and the drone in it. */
  lemma NewerMoveKeeps(w: World<Label>, a: Cell)
    requires Valid(w) && w.drone.Some?
    ensures NewerMove(w, a) == DroneMove(w, a).value.world
    ensures Valid(NewerMove(w, a)) && NewerMove(w, a).drone.Some?
    ensures !IsAttached(w) ==> NewerMove(w, a).blocks == w.blocks && !IsAttached(NewerMove(w, a))
    ensures IsAttached(w) ==> Holding(w, NewerMove(w, a))
  {
    DroneMoveKeeps(w, a);
  }

  /** Replaying any actions keeps a valid world valid, with its drone. */
  lemma {:induction false} ReplayKeeps(w: World<Label>, acts: seq<Cell>)
    requires Valid(w) && w.drone.Some?
    ensures Valid(Replay(NewerMover, w, acts)) && Replay(NewerMover, w, acts).drone.Some?
    ensures !IsAttached(w) ==>
      Replay(NewerMover, w, acts).blocks == w.blocks && !IsAttached(Replay(NewerMover, w, acts))
    ensures IsAttached(w) ==> Holding(w, Replay(NewerMover, w, acts))
    decreases |acts|
  {
    if acts != [] {
      NewerMoveKeeps(w, acts[0]);
      ReplayKeeps(NewerMove(w, acts[0]), acts[1..]);
    }
  }

  /** The planner's fields: the target, the real world, the memory limit and
      the iteration cap. */
  datatype Planner = Planner(target: Cell, world: World<Label>, memLimit: int, maxIters: int)

  /** What the constructor guarantees about a planner it returns. */
  predicate PlannerOk(pl: Planner) {
    InBounds(pl.world.bounds, pl.target) && pl.memLimit >= 0 && pl.world.drone.Some?
  }

  /** The `TabuPlanner` constructor: each goal coordinate must lie in the
      world's range, the memory limit must not be negative, and building the
      search node reads the drone's location. */
  function NewPlanner(target: Cell, w: World<Label>, memLimit: int, maxIters: int): (r: Result<Planner>)
    ensures r.Ok? <==> InBounds(w.bounds, target) && memLimit >= 0 && w.drone.Some?
    ensures r.Err? && (!InBounds(w.bounds, target) || memLimit < 0) ==> r.error == ValueError
    ensures r.Err? && InBounds(w.bounds, target) && memLimit >= 0 ==> r.error == AttributeError
    ensures r.Ok? ==> r.value == Planner(target, w, memLimit, maxIters) && PlannerOk(r.value)
  {
    if target.x < w.bounds.xMin || target.x > w.bounds.xMax then Err(ValueError)
    else if target.y < w.bounds.yMin || target.y > w.bounds.yMax then Err(ValueError)
    else if target.z < w.bounds.zMin || target.z > w.bounds.zMax then Err(ValueError)
    else if memLimit < 0 then Err(ValueError)
    else match DroneLocation(w)
      case Err(e) => Err(e)
      case Ok(_) => Ok(Planner(target, w, memLimit, maxIters))
  }

  /** The search the constructor sets up, run with `fuel` passes. */
  function PlannerSearch(pl: Planner, fuel: nat): Outcome<Goal<World<Label>>, Cell> {
    Run(GoalProblem(NewerMover), SearchNode(NewerMover, pl.target, pl.world), pl.memLimit, pl.maxIters, fuel)
  }

  /** `run` with the replay passing each action as (x, y, z). A search that
      gives up raises `PathNotFound`; a solution's actions are replayed on the
      real world, which then has its drone on the target. */
  function RunPlanner(pl: Planner, fuel: nat): (r: Result<World<Label>>)
    requires PlannerOk(pl)
    ensures PlannerSearch(pl, fuel).GaveUp? <==> r == Err(PathNotFound)
    ensures r.Ok? <==> PlannerSearch(pl, fuel).Found?
    ensures r.Ok? && Valid(pl.world) ==> Valid(r.value) && DroneAt(r.value, pl.target)
    ensures r.Ok? && Valid(pl.world) && !IsAttached(pl.world) ==>
      r.value.blocks == pl.world.blocks && !IsAttached(r.value)
    ensures r.Ok? && Valid(pl.world) && IsAttached(pl.world) ==> Holding(pl.world, r.value)
    ensures r.Err? ==> r.error in {PathNotFound, IndexError, Diverges}
    ensures DroneAt(pl.world, pl.target) ==> r == Ok(pl.world)
  {
    var p := GoalProblem(NewerMover);
    var root := SearchNode(NewerMover, pl.target, pl.world);
    match PlannerSearch(pl, fuel)
    case GaveUp(_) => Err(PathNotFound)
    case Failed(e) => Err(e)
    case Found(n, _) =>
      var w := Replay(NewerMover, pl.world, GetActions(n));
      LoopRooted(p, Start(root), pl.memLimit, pl.maxIters, fuel, root);
      ReplayFound(NewerMover, pl.target, pl.world, n);
      assert Valid(pl.world) ==>
        && Valid(w) && w.drone.Some?
        && (!IsAttached(pl.world) ==> w.blocks == pl.world.blocks && !IsAttached(w))
        && (IsAttached(pl.world) ==> Holding(pl.world, w)) by {
        if Valid(pl.world) {
          ReplayKeeps(pl.world, GetActions(n));
        }
      }
      Ok(w)
  }

  /** The action the as-written replay passes on: (z, y, z). */
  function Swapped(a: Cell): Cell {
    Cell(a.z, a.y, a.z)
  }

  /** The actions as the as-written replay reads them. */
  function SwapAll(acts: seq<Cell>): (r: seq<Cell>)
    ensures |r| == |acts| && forall i :: 0 <= i < |acts| ==> r[i] == Swapped(acts[i])
  {
    seq(|acts|, i requires 0 <= i < |acts| => Swapped(acts[i]))
  }

  /** `run` as written: each action (x, y, z) is replayed as `move(z, y, z)`. */
  function RunPlannerAsWritten(pl: Planner, fuel: nat): (r: Result<World<Label>>)
    requires PlannerOk(pl)
    ensures PlannerSearch(pl, fuel).GaveUp? <==> r == Err(PathNotFound)
    ensures r.Ok? <==> PlannerSearch(pl, fuel).Found?
    ensures DroneAt(pl.world, pl.target) ==> r == Ok(pl.world)
  {
    match PlannerSearch(pl, fuel)
    case GaveUp(_) => Err(PathNotFound)
    case Failed(e) => Err(e)
    case Found(n, _) =>
      var acts := GetActions(n);
      Ok(Replay(NewerMover, pl.world, SwapAll(acts)))
  }

  /** The cell one step along +x from the drone. */
  function RightOfDrone(w: World<Label>): Cell
    requires w.drone.Some?
  {
    Add(w.drone.value.body.pos, Cell(1, 0, 0))
  }

  /** A free drone whose +x neighbour is free: +x is its first action, taking
      it there, and the zero move leaves the world as it is. */
  predicate FreeToTheRight(w: World<Label>) {
    Valid(w) && w.drone.Some? && !IsAttached(w) && CanMoveTo(w, RightOfDrone(w))
  }

  lemma RightFirst(w: World<Label>)
    requires FreeToTheRight(w)
    ensures |NewerActions(w)| > 0 && NewerActions(w)[0] == Cell(1, 0, 0)
  {
    var acts := NewerActions(w);
    assert acts == UnitMoves(w, w.drone.value.body.pos);
    RankOrderedFirst(acts);
  }

  lemma RightStep(w: World<Label>)
    requires FreeToTheRight(w)
    ensures NewerLoc(NewerMove(w, Cell(1, 0, 0))) == RightOfDrone(w)
    ensures NewerMove(w, Cell(0, 0, 0)) == w
  {
    NewerMoveKeeps(w, Cell(1, 0, 0));
    ZeroMoveFails(w, DroneRef);
  }

  /** The root is not on the target. */
  lemma RightRoot(p: Problem<Goal<World<Label>>, Cell>, root: Node<Goal<World<Label>>, Cell>, w: World<Label>)
    requires FreeToTheRight(w)
    requires p == GoalProblem(NewerMover) && root == SearchNode(NewerMover, RightOfDrone(w), w)
    ensures root.fitness > 0 && !p.goal(root.state)
  {
    assert root.state.pos == w.drone.value.body.pos;
  }

  /** The root's first child is the drone one step along +x, on the target. */
  lemma RightChild(p: Problem<Goal<World<Label>>, Cell>, root: Node<Goal<World<Label>>, Cell>, w: World<Label>)
    requires FreeToTheRight(w)
    requires p == GoalProblem(NewerMover) && root == SearchNode(NewerMover, RightOfDrone(w), w)
    ensures |Expand(p, root)| > 0 && Expand(p, root)[0].action == Cell(1, 0, 0)
    ensures Expand(p, root)[0].fitness == 0 && p.goal(Expand(p, root)[0].state)
  {
    RightFirst(w);
    RightStep(w);
    SearchChild(NewerMover, RightOfDrone(w), w, 0);
  }

  /** The search for the +x neighbour finds the single action (1, 0, 0) in
      one pass, whatever the memory limit and unless the cap is one pass. */
  lemma RightSearch(pl: Planner)
    requires FreeToTheRight(pl.world) && pl.target == RightOfDrone(pl.world) && pl.maxIters != 1
    ensures PlannerSearch(pl, 1).Found? && GetActions(PlannerSearch(pl, 1).node) == [Cell(1, 0, 0)]
  {
    var p := GoalProblem(NewerMover);
    var root := SearchNode(NewerMover, pl.target, pl.world);
    RightRoot(p, root, pl.world);
    RightChild(p, root, pl.world);
    OnePassFound(p, root, pl.memLimit, pl.maxIters);
    FirstLevelActions(Expand(p, root)[0]);
  }

  /** Sent to the free cell on its +x side, the search finds the single action
      (1, 0, 0). Replayed as written it becomes the zero move (0, 0, 0), which
      fails, so the real world is returned unchanged and its drone is not on
      the target. */
  lemma AsWrittenMissesTarget(pl: Planner)
    requires PlannerOk(pl) && FreeToTheRight(pl.world) && pl.target == RightOfDrone(pl.world) && pl.maxIters != 1
    ensures RunPlannerAsWritten(pl, 1) == Ok(pl.world)
    ensures !DroneAt(pl.world, pl.target)
  {
    RightSearch(pl);
    SwappedRightStays(pl.world, GetActions(PlannerSearch(pl, 1).node));
  }

  /** The as-written replay of the single action +x is the failing zero move. */
  lemma SwappedRightStays(w: World<Label>, acts: seq<Cell>)
    requires FreeToTheRight(w) && acts == [Cell(1, 0, 0)]
    ensures Replay(NewerMover, w, SwapAll(acts)) == w
  {
    var swapped := SwapAll(acts);
    assert |swapped| == 1 && swapped[0] == Cell(0, 0, 0);
    RightStep(w);
    assert swapped[1..] == [];
    assert Replay(NewerMover, w, swapped) == Replay(NewerMover, NewerMover.move(w, swapped[0]), swapped[1..]);
  }

  /** With the replay corrected, the same run leaves the drone on the target. */
  lemma CorrectedReachesTarget(pl: Planner)
    requires PlannerOk(pl) && FreeToTheRight(pl.world) && pl.target == RightOfDrone(pl.world) && pl.maxIters != 1
    ensures RunPlanner(pl, 1).Ok? && DroneAt(RunPlanner(pl, 1).value, pl.target)
  {
    RightSearch(pl);
  }

  /** A free drone alone in a world, with room along +x. */
  lemma EmptyFree(w: World<Label>)
    requires w.blocks == [] && w.drone.Some? && w.drone.value.attached.None?
    requires BoundsOk(w.bounds) && InBounds(w.bounds, w.drone.value.body.pos)
    requires InBounds(w.bounds, RightOfDrone(w))
    ensures FreeToTheRight(w)
  {
    assert FindBlock(w.blocks, RightOfDrone(w)).None?;
  }

  /** The smallest such input: a drone alone in its world, sent one cell
      along +x by the planner `_run_objective` builds (memory 100, no cap),
      stays where it is. */
  lemma LoneDroneMisses(w: World<Label>)
    requires w.blocks == [] && w.drone.Some? && w.drone.value.attached.None?
    requires BoundsOk(w.bounds) && InBounds(w.bounds, w.drone.value.body.pos)
    requires InBounds(w.bounds, RightOfDrone(w))
    ensures var pl := Planner(RightOfDrone(w), w, 100, 0);
      PlannerOk(pl) && RunPlannerAsWritten(pl, 1) == Ok(w) && !DroneAt(w, pl.target)
  {
    EmptyFree(w);
    AsWrittenMissesTarget(Planner(RightOfDrone(w), w, 100, 0));
  }
}
