/** The older tree's tower runners: given a plan (an ordered list of block
    states), fly the drone to each block, attach it, fly it to the top of
    the tower column and release it there. Every flight is a tabu search over
    goal states wrapping a copy of the world; its solution is then replayed
    on the real world. */
module TowerRunners {
  import opened Common
  import opened Labels
  import opened WorldModel
  import opened DroneOps
  import opened LegacyWorld
  import opened Search
  import opened Tabu
  import opened GoalState

  /** `DroneWorld.move` of the older world as the goal wrapper sees it. The
      wrapper is only ever built around a world with a drone, where this is
      exactly the counting `Drone.move`. */
  function LegacyMove(lw: LWorld, a: Cell): LWorld {
    if !AttachedOk(lw.world) then lw
    else match Move(lw, a)
      case Ok(m) => m
      case Err(_) => lw
  }

  /** `DroneWorld.actions` of the older world. */
  function LegacyActions(lw: LWorld): seq<Cell> {
    if !AttachedOk(lw.world) then []
    else match Actions(lw.world)
      case Ok(v) => v
      case Err(_) => []
  }

  /** `get_drone_location`, read only where a drone exists. */
  function LegacyLoc(lw: LWorld): Cell {
    if lw.world.drone.Some? then lw.world.drone.value.body.pos else Cell(0, 0, 0)
  }

  const LegacyMover: Mover<LWorld> := Mover(LegacyActions, LegacyMove, LegacyLoc)

  /** What a sequence of moves adds to the drone's counter. */
  function PathLength(acts: seq<Cell>): nat
    decreases |acts|
  {
    if acts == [] then 0 else Manhattan(acts[0]) + PathLength(acts[1..])
  }

  lemma {:induction false} PathLengthConcat(a: seq<Cell>, b: seq<Cell>)
    ensures PathLength(a + b) == PathLength(a) + PathLength(b)
    decreases |a|
  {
    if a == [] {
      assert a + b == b;
    } else {
      assert (a + b)[1..] == a[1..] + b;
      PathLengthConcat(a[1..], b);
    }
  }

  /** On a valid world with a drone, the wrapper's move is the counting
      `Drone.move`: the world stays valid, the counter grows by the length
      of the request, and only the drone and its block move. */
  lemma LegacyMoveKeeps(lw: LWorld, a: Cell)
    requires Valid(lw.world) && lw.world.drone.Some?
    ensures LegacyMove(lw, a).world == DroneMove(lw.world, a).value.world
    ensures LegacyMove(lw, a).droneMoves == lw.droneMoves + Manhattan(a)
    ensures Valid(LegacyMove(lw, a).world) && LegacyMove(lw, a).world.drone.Some?
    ensures !IsAttached(lw.world) ==>
      LegacyMove(lw, a).world.blocks == lw.world.blocks && !IsAttached(LegacyMove(lw, a).world)
    ensures IsAttached(lw.world) ==> Holding(lw.world, LegacyMove(lw, a).world)
  {
    DroneMoveKeeps(lw.world, a);
  }

  /** Replaying actions keeps a valid world valid with its drone, adds their
      total length to the counter, and moves no block but a held one. */
  lemma {:induction false} LegacyReplayKeeps(lw: LWorld, acts: seq<Cell>)
    requires Valid(lw.world) && lw.world.drone.Some?
    ensures var r := Replay(LegacyMover, lw, acts);
      && Valid(r.world) && r.world.drone.Some?
      && r.droneMoves == lw.droneMoves + PathLength(acts)
      && (!IsAttached(lw.world) ==> r.world.blocks == lw.world.blocks && !IsAttached(r.world))
      && (IsAttached(lw.world) ==> Holding(lw.world, r.world))
    decreases |acts|
  {
    if acts != [] {
      LegacyMoveKeeps(lw, acts[0]);
      LegacyReplayKeeps(LegacyMove(lw, acts[0]), acts[1..]);
    }
  }

  /** A flight's outcome: the real world after the replay, and the actions
      replayed. */
  datatype Leg = Leg(world: LWorld, path: seq<Cell>)

  /** `generate_search_node`, the older `TabuSearch(node, limit).run()` with
      `fuel` passes, and the replay of `get_actions()` on the real world. The
      search has no cap, so it ends only on the target or on an error. */
  function Fly(lw: LWorld, target: Cell, limit: int, fuel: nat): (r: Result<Leg>)
    requires Valid(lw.world)
    ensures lw.world.drone.None? ==> r == Err(AttributeError)
    ensures r.Err? ==> r.error in {AttributeError, IndexError, Diverges}
    ensures r.Ok? ==> Valid(r.value.world.world) && DroneAt(r.value.world.world, target)
    ensures r.Ok? ==> r.value.world.droneMoves == lw.droneMoves + PathLength(r.value.path)
    ensures r.Ok? && !IsAttached(lw.world) ==>
      r.value.world.world.blocks == lw.world.blocks && !IsAttached(r.value.world.world)
    ensures r.Ok? && IsAttached(lw.world) ==> Holding(lw.world, r.value.world.world)
    ensures DroneAt(lw.world, target) ==> r == Ok(Leg(lw, []))
  {
    if lw.world.drone.None? then Err(AttributeError)
    else
      var p := GoalProblem(LegacyMover);
      var root := SearchNode(LegacyMover, target, lw);
      match LegacyRun(p, root, limit, fuel)
      case Failed(e) => Err(e)
      case GaveUp(_) => assert false; Err(Diverges)
      case Found(n, _) =>
        var acts := GetActions(n);
        LoopRooted(p, Start(root), limit, 0, fuel, root);
        ReplayFound(LegacyMover, target, lw, n);
        LegacyReplayKeeps(lw, acts);
        Ok(Leg(Replay(LegacyMover, lw, acts), acts))
  }

  /** One delivery: the world after it, the block carried and every action
      replayed on the way. */
  datatype Trip = Trip(world: LWorld, carried: nat, path: seq<Cell>)

  /** The carrying half of a delivery: attach the block below the drone,
      fly to the release goal, release. If the release goal was refused,
      that error is raised once the block is held. */
  function Haul(lw: LWorld, dropOff: Result<Cell>, limit: int, fuel: nat): (r: Result<Trip>)
    requires Valid(lw.world)
    ensures IsAttached(lw.world) ==> r == Err(RuntimeError)
    ensures r.Err? ==>
      r.error in {AttributeError, RuntimeError, IndexError, Diverges} || (dropOff.Err? && r == Err(dropOff.error))
    ensures r.Ok? ==> dropOff.Ok? && Valid(r.value.world.world) && lw.world.drone.Some?
    ensures r.Ok? ==>
      Delivered(lw.world, r.value.carried, Below(lw.world.drone.value.body.pos), dropOff.value, r.value.world.world)
    ensures r.Ok? ==> r.value.world.droneMoves == lw.droneMoves + PathLength(r.value.path)
  {
    match Attach(lw.world)
    case Err(e) => Err(e)
    case Ok(w2) =>
      match dropOff
      case Err(e) => Err(e)
      case Ok(target) =>
        match Fly(LWorld(w2, lw.droneMoves), target, limit, fuel)
        case Err(e) => Err(e)
        case Ok(l3) =>
          match Release(l3.world.world)
          case Err(e) => Err(e)
          case Ok(w4) => Ok(Trip(LWorld(w4, l3.world.droneMoves), w2.drone.value.attached.value, l3.path))
  }

  /** The body of the runners' loop once the goals are known: fly to
      `pickUp`, then haul the block below it to the release goal. A
      delivery that gets through has taken the block that sat below
      `pickUp` into the column of the release goal, below it, and moved
      nothing else. */
  function Deliver(lw: LWorld, pickUp: Cell, dropOff: Result<Cell>, limit: int, fuel: nat): (r: Result<Trip>)
    requires Valid(lw.world)
    ensures lw.world.drone.None? ==> r == Err(AttributeError)
    ensures r.Err? ==>
      r.error in {AttributeError, RuntimeError, IndexError, Diverges} || (dropOff.Err? && r == Err(dropOff.error))
    ensures r.Ok? ==> dropOff.Ok? && !IsAttached(lw.world) && Valid(r.value.world.world)
    ensures r.Ok? ==> Delivered(lw.world, r.value.carried, Below(pickUp), dropOff.value, r.value.world.world)
    ensures r.Ok? ==> r.value.world.droneMoves == lw.droneMoves + PathLength(r.value.path)
  {
    match Fly(lw, pickUp, limit, fuel)
    case Err(e) => Err(e)
    case Ok(l1) =>
      match Haul(l1.world, dropOff, limit, fuel)
      case Err(e) => Err(e)
      case Ok(tr) =>
        PathLengthConcat(l1.path, tr.path);
        Ok(tr.(path := l1.path + tr.path))
  }

  /** What a caller may pass as the world. */
  datatype WorldArg = TheWorld(world: LWorld) | NotAWorld

  /** An object id as a plan entry may carry it: one of the five known ids,
      or any other value. */
  datatype PlanId = Known(id: ObjectId) | Unknown(code: int)

  /** A plan entry, a block state `(id, x, y, z)`. */
  datatype PlanEntry = PlanEntry(id: PlanId, pos: Cell)

  /** What a caller may pass as the plan. */
  datatype PlanArg = PlanList(entries: seq<PlanEntry>) | NotAList

  /** `VALID_BLOCK_IDS`: red, blue, yellow and green. */
  predicate ValidBlockId(id: PlanId) {
    id.Known? && id.id in {Red, Blue, Yellow, Green}
  }

  /** A runner's fields: the world, the plan, the tower column, the tabu
      memory limit, and whether attach goals check the block id (the
      `TowerRunner` family does, `TabuTowerPlannerRunner` does not). */
  datatype Runner = Runner(world: LWorld, plan: seq<PlanEntry>, x: int, z: int, limit: int, checksIds: bool)

  /** The `TowerRunner` constructor: anything but a world or a list is a
      TypeError; a column outside the world, or a plan with more blocks than
      |y_max - y_min| - 1, is a ValueError. */
  function NewTowerRunner(world: WorldArg, plan: PlanArg, x: int, z: int, limit: int): (r: Result<Runner>)
    ensures r.Ok? <==>
      && world.TheWorld? && plan.PlanList?
      && world.world.world.bounds.xMin <= x <= world.world.world.bounds.xMax
      && world.world.world.bounds.zMin <= z <= world.world.world.bounds.zMax
      && |plan.entries| <= Abs(world.world.world.bounds.yMax - world.world.world.bounds.yMin) - 1
    ensures world.NotAWorld? ==> r == Err(TypeError)
    ensures world.TheWorld? && r.Err? ==> r.error in {TypeError, ValueError}
    ensures r.Ok? ==> r.value == Runner(world.world, plan.entries, x, z, limit, true)
  {
    if world.NotAWorld? then Err(TypeError)
    else
      var b := world.world.world.bounds;
      if x < b.xMin || x > b.xMax then Err(ValueError)
      else if z < b.zMin || z > b.zMax then Err(ValueError)
      else if plan.NotAList? then Err(TypeError)
      else if |plan.entries| > Abs(b.yMax - b.yMin) - 1 then Err(ValueError)
      else Ok(Runner(world.world, plan.entries, x, z, limit, true))
  }

  /** A world whose floor and ceiling coincide admits no plan at all, not
      even an empty one. */
  lemma FlatWorldRefusesEmptyPlan(lw: LWorld)
    requires lw.world.bounds.yMin == lw.world.bounds.yMax
    requires InBounds(lw.world.bounds, Cell(0, lw.world.bounds.yMin, 0))
    ensures NewTowerRunner(TheWorld(lw), PlanList([]), 0, 0, 100) == Err(ValueError)
  {
  }

  /** The `TabuTowerRunner` constructor: a memory limit below one is a
      ValueError, checked before anything else. */
  function NewTabuTowerRunner(world: WorldArg, plan: PlanArg, limit: int, x: int, z: int): (r: Result<Runner>)
    ensures limit < 1 ==> r == Err(ValueError)
    ensures limit >= 1 ==> r == NewTowerRunner(world, plan, x, z, limit)
    ensures r.Ok? ==> r.value.limit >= 1 && r.value.checksIds
  {
    if limit < 1 then Err(ValueError) else NewTowerRunner(world, plan, x, z, limit)
  }

  /** `TabuTowerPlannerRunner`'s memory limit. */
  const PlannerLimit: int := 100

  /** The `TabuTowerPlannerRunner` constructor: the same checks as
      `TowerRunner` except the plan length. */
  function NewPlannerRunner(plan: PlanArg, world: WorldArg, x: int, z: int): (r: Result<Runner>)
    ensures r.Ok? <==>
      && world.TheWorld? && plan.PlanList?
      && world.world.world.bounds.xMin <= x <= world.world.world.bounds.xMax
      && world.world.world.bounds.zMin <= z <= world.world.world.bounds.zMax
    ensures world.NotAWorld? ==> r == Err(TypeError)
    ensures r.Err? ==> r.error in {TypeError, ValueError}
    ensures r.Ok? ==> r.value == Runner(world.world, plan.entries, x, z, PlannerLimit, false)
  {
    if world.NotAWorld? then Err(TypeError)
    else
      var b := world.world.world.bounds;
      if x < b.xMin || x > b.xMax then Err(ValueError)
      else if z < b.zMin || z > b.zMax then Err(ValueError)
      else if plan.NotAList? then Err(TypeError)
      else Ok(Runner(world.world, plan.entries, x, z, PlannerLimit, false))
  }

  /** The entry lies in the tower column. */
  predicate InColumn(c: Cell, x: int, z: int) {
    c.x == x && c.z == z
  }

  /** `_generate_attach_goal`: the drone, or an entry in the tower column, is
      a RuntimeError; an unknown id is a ValueError where ids are checked;
      otherwise the goal is the cell above the entry, which must lie in the
      world. */
  function AttachGoal(rn: Runner, e: PlanEntry): (r: Result<Cell>)
    ensures r.Ok? <==>
      && e.id != Known(DroneId) && !InColumn(e.pos, rn.x, rn.z)
      && (rn.checksIds ==> ValidBlockId(e.id))
      && InBounds(rn.world.world.bounds, Above(e.pos))
    ensures r.Ok? ==> r.value == Above(e.pos)
    ensures (e.id == Known(DroneId) || InColumn(e.pos, rn.x, rn.z)) ==> r == Err(RuntimeError)
    ensures r.Err? ==> r.error in {RuntimeError, ValueError}
    ensures r.Err? && r.error == ValueError ==> rn.checksIds && !ValidBlockId(e.id)
  {
    if e.id == Known(DroneId) || InColumn(e.pos, rn.x, rn.z) then Err(RuntimeError)
    else if rn.checksIds && !ValidBlockId(e.id) then Err(ValueError)
    else if !InBounds(rn.world.world.bounds, Above(e.pos)) then Err(RuntimeError)
    else Ok(Above(e.pos))
  }

  /** Without the id check every known block colour is accepted just the
      same; only ids outside the known ones tell the two runners apart. */
  lemma AttachGoalIds(rn: Runner, e: PlanEntry)
    requires e.id.Known?
    ensures AttachGoal(rn.(checksIds := false), e) == AttachGoal(rn.(checksIds := true), e)
  {
    assert e.id.id != DroneId ==> ValidBlockId(e.id);
  }

  /** `_generate_release_goal`: the cell one above the current height in the
      tower column, which must lie in the world. */
  function ReleaseGoal(b: Bounds, x: int, z: int, height: nat): (r: Result<Cell>)
    ensures r.Ok? <==> InBounds(b, Cell(x, height + 1, z))
    ensures r.Ok? ==> r.value == Cell(x, height + 1, z)
    ensures r.Err? ==> r.error == RuntimeError
  {
    var c := Cell(x, height + 1, z);
    if !InBounds(b, c) then Err(RuntimeError) else Ok(c)
  }

  /** The loop variables of `run`: the real world, the tower height, the
      blocks delivered so far, and every action replayed. */
  datatype Tower = Tower(world: LWorld, height: nat, placed: seq<nat>, path: seq<Cell>)

  /** The tower as built so far: one delivered block per level, all
      different, each in the tower column no higher than its level, and the
      drone's counter grown by exactly the length of the replayed actions
      since `base`. */
  predicate Stacked(x: int, z: int, base: nat, t: Tower) {
    && |t.placed| == t.height
    && NoDup(t.placed)
    && (forall i :: 0 <= i < |t.placed| ==>
          t.placed[i] < |t.world.world.blocks|
          && InColumn(t.world.world.blocks[t.placed[i]].pos, x, z)
          && t.world.world.blocks[t.placed[i]].pos.y <= i)
    && t.world.droneMoves == base + PathLength(t.path)
  }

  /** Delivering a block from outside the column into it, one level up,
      keeps the tower stacked. */
  lemma DeliverStacks(x: int, z: int, base: nat, t: Tower, tr: Trip, from: Cell)
    requires Stacked(x, z, base, t) && !InColumn(from, x, z)
    requires Delivered(t.world.world, tr.carried, from, Cell(x, t.height + 1, z), tr.world.world)
    requires tr.world.droneMoves == t.world.droneMoves + PathLength(tr.path)
    ensures Stacked(x, z, base, Tower(tr.world, t.height + 1, t.placed + [tr.carried], t.path + tr.path))
  {
    var w := t.world.world;
    var i := tr.carried;
    forall k | 0 <= k < |t.placed| ensures t.placed[k] != i {
      assert InColumn(w.blocks[t.placed[k]].pos, x, z);
    }
    NoDupAppend(t.placed, i);
    PathLengthConcat(t.path, tr.path);
  }

  /** One pass of the `for` loop: the attach goal for the entry, then the
      delivery to one level above the tower. */
  function StackNext(rn: Runner, e: PlanEntry, t: Tower, fuel: nat): (r: Result<Tower>)
    requires Valid(t.world.world)
    ensures AttachGoal(rn, e).Err? ==> r == Err(AttachGoal(rn, e).error)
    ensures r.Ok? ==> Valid(r.value.world.world) && |r.value.world.world.blocks| == |t.world.world.blocks|
    ensures r.Ok? ==> r.value.height == t.height + 1 && t.path <= r.value.path
    ensures r.Ok? ==> !IsAttached(t.world.world) && !IsAttached(r.value.world.world)
    ensures r.Err? ==> r.error in {RuntimeError, ValueError, AttributeError, IndexError, Diverges}
  {
    match AttachGoal(rn, e)
    case Err(err) => Err(err)
    case Ok(pickUp) =>
      match Deliver(t.world, pickUp, ReleaseGoal(rn.world.world.bounds, rn.x, rn.z, t.height), rn.limit, fuel)
      case Err(err) => Err(err)
      case Ok(tr) =>
        Ok(Tower(tr.world, t.height + 1, t.placed + [tr.carried], t.path + tr.path))
  }

  /** A pass keeps the tower stacked: the block it takes sat outside the
      column, so it is none of the blocks already placed. */
  lemma StackNextStacks(rn: Runner, e: PlanEntry, t: Tower, base: nat, fuel: nat)
    requires Valid(t.world.world) && Stacked(rn.x, rn.z, base, t) && StackNext(rn, e, t, fuel).Ok?
    ensures Stacked(rn.x, rn.z, base, StackNext(rn, e, t, fuel).value)
  {
    var pickUp := AttachGoal(rn, e).value;
    var tr := Deliver(t.world, pickUp, ReleaseGoal(rn.world.world.bounds, rn.x, rn.z, t.height), rn.limit, fuel).value;
    assert Below(pickUp) == e.pos;
    DeliverStacks(rn.x, rn.z, base, t, tr, e.pos);
  }

  /** The `for` loop of `run` from the `k`-th plan entry on. */
  function BuildFrom(rn: Runner, k: nat, t: Tower, base: nat, fuel: nat): (r: Result<Tower>)
    requires Valid(t.world.world) && k <= |rn.plan|
    ensures k == |rn.plan| ==> r == Ok(t)
    ensures k < |rn.plan| && AttachGoal(rn, rn.plan[k]).Err? ==> r == Err(AttachGoal(rn, rn.plan[k]).error)
    ensures r.Ok? ==> Valid(r.value.world.world) && |r.value.world.world.blocks| == |t.world.world.blocks|
    ensures r.Ok? ==> r.value.height == t.height + (|rn.plan| - k)
    ensures r.Ok? ==> t.path <= r.value.path
    ensures r.Ok? && k < |rn.plan| ==> !IsAttached(t.world.world) && !IsAttached(r.value.world.world)
    ensures r.Ok? && Stacked(rn.x, rn.z, base, t) ==> Stacked(rn.x, rn.z, base, r.value)
    ensures r.Err? ==> r.error in {RuntimeError, ValueError, AttributeError, IndexError, Diverges}
    decreases |rn.plan| - k
  {
    if k == |rn.plan| then Ok(t)
    else
      match StackNext(rn, rn.plan[k], t, fuel)
      case Err(err) => Err(err)
      case Ok(t2) =>
        assert Stacked(rn.x, rn.z, base, t) ==> Stacked(rn.x, rn.z, base, t2) by {
          if Stacked(rn.x, rn.z, base, t) {
            StackNextStacks(rn, rn.plan[k], t, base, fuel);
          }
        }
        var r := BuildFrom(rn, k + 1, t2, base, fuel);
        r
  }

  /** `run`: the height starts at zero and every plan entry in turn is
      delivered to the top of the tower. A run that gets through leaves a
      tower of one different block per plan entry in the column, the
      `i`-th no higher than level `i`, with the drone holding nothing; the
      drone's counter has grown by the length of every replayed action. */
  function Run(rn: Runner, fuel: nat): (r: Result<Tower>)
    requires Valid(rn.world.world)
    ensures rn.plan == [] ==> r == Ok(Tower(rn.world, 0, [], []))
    ensures r.Ok? ==> r.value.height == |rn.plan| && Stacked(rn.x, rn.z, rn.world.droneMoves, r.value)
    ensures r.Ok? ==> Valid(r.value.world.world) && |r.value.world.world.blocks| == |rn.world.world.blocks|
    ensures r.Ok? && rn.plan != [] ==> !IsAttached(rn.world.world) && !IsAttached(r.value.world.world)
    ensures rn.plan != [] && AttachGoal(rn, rn.plan[0]).Err? ==> r == Err(AttachGoal(rn, rn.plan[0]).error)
    ensures r.Err? ==> r.error in {RuntimeError, ValueError, AttributeError, IndexError, Diverges}
  {
    var t := Tower(rn.world, 0, [], []);
    assert Stacked(rn.x, rn.z, rn.world.droneMoves, t);
    BuildFrom(rn, 0, t, rn.world.droneMoves, fuel)
  }

  /** `TabuTowerPlannerRunner.run`: the same loop, returning how many
      actions were replayed in all. */
  function CountMoves(rn: Runner, fuel: nat): (r: Result<nat>)
    requires Valid(rn.world.world)
    ensures rn.plan == [] ==> r == Ok(0)
    ensures r.Ok? <==> Run(rn, fuel).Ok?
    ensures r.Ok? ==> r.value == |Run(rn, fuel).value.path|
    ensures r.Err? ==> r == Err(Run(rn, fuel).error)
  {
    match Run(rn, fuel)
    case Err(e) => Err(e)
    case Ok(t) => Ok(|t.path|)
  }
}
