/** `CrowSearchPlanner`: the high-level planner of the newer tree. It reads
    the goal blocks, lets the crow search decide which block of the world
    goes to which goal slot, and has the tabu planner fly the drone to each
    pick-up and drop-off cell, attaching and releasing the block there. */
module CsaPlanner {
  import opened Common
  import opened Labels
  import opened WorldModel
  import opened DroneOps
  import opened NewerWorld
  import opened TabuPlanner
  import opened Oracle
  import opened PopulationSearch
  import opened CrowSearch

  /** The tabu memory of every flight: `mem_limit=100`. */
  const MemLimit: int := 100
  /** `max_iters=0`: a flight searches until it reaches its target. */
  const NoCap: int := 0

  /** The planner's constructor: anything but a world is a TypeError. */
  function NewCsaPlanner(world: Arg): (r: Result<World<Label>>)
    ensures r.Ok? <==> world.WorldArg?
    ensures r.Ok? ==> r.value == world.world
    ensures r.Err? ==> r.error == TypeError
  {
    if world.WorldArg? then Ok(world.world) else Err(TypeError)
  }

  /** A row of the objectives file: a cell and a label. */
  datatype Row = Row(x: int, y: int, z: int, colour: Label)

  /** The goal entry a row stands for. */
  function GoalOf(row: Row): Item {
    Entry(row.colour, Cell(row.x, row.y, row.z))
  }

  /** The first half of `_parse_objects`: the rows whose label does not
      mention "drone", in any case, become goal entries, in file order. */
  function BlockGoals(rows: seq<Row>): (r: seq<Item>)
    ensures |r| <= |rows|
    ensures forall e :: e in r ==> !ContainsIgnoreCase(e.id, "drone")
    ensures forall e :: e in r ==> Row(e.pos.x, e.pos.y, e.pos.z, e.id) in rows
    ensures forall i :: 0 <= i < |rows| && !ContainsIgnoreCase(rows[i].colour, "drone") ==>
      GoalOf(rows[i]) in r
    decreases |rows|
  {
    if |rows| == 0 then []
    else
      var rest := BlockGoals(rows[1..]);
      assert forall i :: 1 <= i < |rows| ==> rows[i] == rows[1..][i - 1];
      if ContainsIgnoreCase(rows[0].colour, "drone") then rest else [GoalOf(rows[0])] + rest
  }

  /** An objective: the cell to fly to and attach below, and the cell to
      fly to and release at; without a release the attach cell is only a
      destination. */
  datatype Objective = Objective(attach: Option<Cell>, release: Option<Cell>)

  /** What `_parse_objects` leaves behind: the world's state, the filled
      goal, the chosen blocks and one objective per goal slot. */
  datatype Parsed = Parsed(state: seq<Item>, goal: seq<Item>, best: seq<Item>, objectives: seq<Objective>)

  /** Entries of a sound world are pairwise different: no two objects share
      a cell. */
  lemma StateNoDup(w: World<Label>)
    requires Sound(w) && w.drone.Some?
    ensures NoDup(State(w).value)
  {
    var s := State(w).value;
    forall i, j | 0 <= i < j < |s| ensures s[i] != s[j] {
      assert s[i].pos == w.blocks[i].pos;
      if j < |w.blocks| {
        assert s[j].pos == w.blocks[j].pos;
      } else {
        assert s[j].pos == w.drone.value.body.pos;
      }
    }
  }

  /** `_parse_objects` as written: the world's state is read first, which
      fails without a drone, and the crow search is then built with its
      arguments out of order, which always fails. */
  function ParseObjectsAsWritten(dist: Metric, w: World<Label>, rows: seq<Row>, o: Draws): (r: Result<Parsed>)
    ensures w.drone.None? ==> r == Err(AttributeError)
    ensures w.drone.Some? ==> r == Err(TypeError)
  {
    match State(w)
    case Err(e) => Err(e)
    case Ok(state) =>
      match NewCrowAsWritten(ListArg(state), ListArg(BlockGoals(rows)), WorldArg(w))
      case Err(e) => Err(e)
      case Ok(_) =>
        // The constructor as written never succeeds: its first argument is
        // a list where the base class checks for a world.
        assert false; Err(RuntimeError)
  }

  /** `_parse_objects` with the crow search built as intended: run the
      search, then turn each slot of its best solution into an objective
      that picks the chosen block up and drops it on its slot. In a sound
      world the chosen blocks are different blocks of the world, each of
      its slot's label unless the slot is a filler. */
  function ParseObjects(dist: Metric, w: World<Label>, rows: seq<Row>, o: Draws): (r: Result<Parsed>)
    ensures w.drone.None? ==> r == Err(AttributeError)
    ensures r.Ok? ==> State(w) == Ok(r.value.state)
    ensures r.Ok? ==> SortedBy(r.value.goal, YKey) && Grounded(BlockGoals(rows), r.value.goal)
    ensures r.Ok? ==> forall e :: e in BlockGoals(rows) ==> e in r.value.goal
    ensures r.Ok? ==> Trips(r.value)
    ensures r.Ok? && Sound(w) ==> Chosen(r.value)
  {
    match State(w)
    case Err(e) => Err(e)
    case Ok(state) =>
      assert Sound(w) ==> NoDup(state) by {
        if Sound(w) {
          StateNoDup(w);
        }
      }
      Choose(dist, w, state, BlockGoals(rows), o)
  }

  /** One objective per slot, picking up above the slot's chosen block and
      dropping off above the slot. */
  predicate Trips(p: Parsed) {
    && |p.best| == |p.goal| && |p.objectives| == |p.goal|
    && forall i :: 0 <= i < |p.objectives| ==>
      && p.objectives[i].attach.Some? && p.objectives[i].release.Some?
      && Below(p.objectives[i].attach.value) == p.best[i].pos
      && Below(p.objectives[i].release.value) == p.goal[i].pos
  }

  /** The chosen blocks are different non-black entries of the state, each
      of its slot's label unless the slot is a filler. */
  predicate Chosen(p: Parsed)
    requires |p.best| == |p.goal|
  {
    && NoDup(p.best)
    && forall i :: 0 <= i < |p.best| ==>
      && p.best[i] in p.state && NotBlack(p.best[i])
      && (!IsFiller(p.goal[i].id) ==> p.best[i].id == p.goal[i].id)
  }

  /** The crow search over the state's blocks, and the objectives of its
      best solution. */
  function Choose(dist: Metric, w: World<Label>, state: seq<Item>, goals: seq<Item>, o: Draws): (r: Result<Parsed>)
    ensures r.Ok? ==> r.value.state == state && Trips(r.value)
    ensures r.Ok? ==> r.value.goal == FillGoal(goals)
    ensures r.Ok? && NoDup(state) ==> Chosen(r.value)
  {
    match NewCrow(ListArg(state), ListArg(goals), WorldArg(w))
    case Err(e) => Err(e)
    case Ok(p) =>
      match Run(dist, p, o)
      case Err(e) => Err(e)
      case Ok(out) =>
        match GetActions(Some(out.best), p.goal)
        case Err(e) => Err(e)
        case Ok(trips) =>
          var r := Parsed(state, p.goal, out.best, Objectives(trips));
          TripsOf(r, trips);
          assert NoDup(state) ==> Chosen(r) by {
            if NoDup(state) {
              ChosenBlocks(p.pools, state, p.goal, out.best);
            }
          }
          Ok(r)
  }

  /** `get_actions`' trips as objectives: pick up at the first cell, drop
      off at the second. */
  function Objectives(trips: seq<Trip>): (r: seq<Objective>)
    ensures |r| == |trips|
    ensures forall i :: 0 <= i < |r| ==> r[i] == Objective(Some(trips[i].pickUp), Some(trips[i].dropOff))
  {
    seq(|trips|, i requires 0 <= i < |trips| => Objective(Some(trips[i].pickUp), Some(trips[i].dropOff)))
  }

  /** Objectives made from trips that lead from each chosen block to its
      slot are one pick-up and drop-off per slot. */
  lemma TripsOf(p: Parsed, trips: seq<Trip>)
    requires p.objectives == Objectives(trips) && |p.best| == |p.goal| == |trips|
    requires forall i :: 0 <= i < |trips| ==>
      Below(trips[i].pickUp) == p.best[i].pos && Below(trips[i].dropOff) == p.goal[i].pos
    ensures Trips(p)
  {
  }

  /** A solution drawn from pools that hold the non-black entries of a state
      takes different entries of that state, each of its slot's label
      unless the slot is a filler. */
  lemma ChosenBlocks(ps: seq<Pool>, state: seq<Item>, goal: seq<Item>, best: seq<Item>)
    requires forall e :: InPools(ps, e) <==> e in state && NotBlack(e)
    requires Assignment(ps, goal, best)
    ensures NoDup(best)
    ensures forall i :: 0 <= i < |best| ==>
      best[i] in state && NotBlack(best[i]) && (!IsFiller(goal[i].id) ==> best[i].id == goal[i].id)
  {
  }

  /** A new `TabuPlanner` for `target`, run: the drone flies there. */
  function Fly(w: World<Label>, target: Cell, fuel: nat): (r: Result<World<Label>>)
    requires Valid(w)
    ensures !InBounds(w.bounds, target) ==> r == Err(ValueError)
    ensures InBounds(w.bounds, target) && w.drone.None? ==> r == Err(AttributeError)
    ensures r.Err? ==> r.error in {ValueError, AttributeError, IndexError, Diverges}
    ensures r.Ok? ==> Valid(r.value) && DroneAt(r.value, target)
    ensures r.Ok? && !IsAttached(w) ==> r.value.blocks == w.blocks && !IsAttached(r.value)
    ensures r.Ok? && IsAttached(w) ==> Holding(w, r.value)
    ensures InBounds(w.bounds, target) && DroneAt(w, target) ==> r == Ok(w)
  {
    match NewPlanner(target, w, MemLimit, NoCap)
    case Err(e) => Err(e)
    case Ok(pl) => RunPlanner(pl, fuel)
  }

  /** The world after an objective, and the block it carried, if any. */
  datatype Done = Done(world: World<Label>, carried: Option<nat>)

  /** `_run_objective`: a missing attach cell is a RuntimeError. The drone
      flies to the attach cell; without a release that is all. Otherwise it
      attaches the block below it, flies to the release cell and releases
      the block, which comes to rest in that column below the drone.
      Nothing else moves. */
  function RunObjective(w: World<Label>, ob: Objective, fuel: nat): (r: Result<Done>)
    requires Valid(w)
    ensures ob.attach.None? ==> r == Err(RuntimeError)
    ensures r.Err? ==> r.error in {RuntimeError, ValueError, AttributeError, IndexError, Diverges}
    ensures r.Ok? ==> Valid(r.value.world) && |r.value.world.blocks| == |w.blocks|
    ensures r.Ok? ==> (r.value.carried.Some? <==> ob.release.Some?)
    ensures r.Ok? && ob.release.None? ==> DroneAt(r.value.world, ob.attach.value)
    ensures r.Ok? && ob.release.None? && !IsAttached(w) ==> r.value.world.blocks == w.blocks
    ensures r.Ok? && ob.release.Some? ==>
      !IsAttached(w) && Moved(w, Below(ob.attach.value), ob.release.value, r.value)
  {
    if ob.attach.None? then Err(RuntimeError)
    else match Fly(w, ob.attach.value, fuel)
      case Err(e) => Err(e)
      case Ok(w1) =>
        if ob.release.None? then Ok(Done(w1, None))
        else Carry(w1, ob.release.value, fuel)
  }

  /** The block `d` carried was delivered from `from` to the column of
      `target`. */
  predicate Moved(w: World<Label>, from: Cell, target: Cell, d: Done) {
    d.carried.Some? && Delivered(w, d.carried.value, from, target, d.world)
  }

  /** The carrying half of `_run_objective`: attach the block below the
      drone, fly to `target` and release the block there. */
  function Carry(w: World<Label>, target: Cell, fuel: nat): (r: Result<Done>)
    requires Valid(w)
    ensures IsAttached(w) ==> r == Err(RuntimeError)
    ensures r.Err? ==> r.error in {RuntimeError, ValueError, AttributeError, IndexError, Diverges}
    ensures r.Ok? ==> Valid(r.value.world) && w.drone.Some?
    ensures r.Ok? ==> Moved(w, Below(w.drone.value.body.pos), target, r.value)
  {
    match Attach(w)
    case Err(e) => Err(e)
    case Ok(w2) =>
      match Fly(w2, target, fuel)
      case Err(e) => Err(e)
      case Ok(w3) =>
        match Release(w3)
        case Err(e) => Err(e)
        case Ok(w4) => Ok(Done(w4, w2.drone.value.attached))
  }

  /** One objective as the loops of `run` see it: the world it leaves. */
  function Next(w: World<Label>, ob: Objective, fuel: nat): (r: Result<World<Label>>)
    requires Valid(w)
    ensures ob.attach.None? ==> r == Err(RuntimeError)
    ensures r.Ok? ==> Valid(r.value) && |r.value.blocks| == |w.blocks|
    ensures r.Ok? && ob.release.Some? ==> !IsAttached(w) && !IsAttached(r.value)
  {
    match RunObjective(w, ob, fuel)
    case Err(e) => Err(e)
    case Ok(d) => Ok(d.world)
  }

  /** The two `for` loops of `run`: each objective in turn, stopping at the
      first that fails. The block count never changes; a run that gets
      through has met no objective without an attach cell, and when the
      last objective releases, the drone ends up holding nothing. */
  function RunAll(w: World<Label>, obs: seq<Objective>, fuel: nat): (r: Result<World<Label>>)
    requires Valid(w)
    ensures obs == [] ==> r == Ok(w)
    ensures r.Ok? ==> Valid(r.value) && |r.value.blocks| == |w.blocks|
    ensures r.Ok? ==> forall k :: 0 <= k < |obs| ==> obs[k].attach.Some?
    ensures r.Ok? && obs != [] && obs[0].release.Some? ==> !IsAttached(w)
    ensures r.Ok? && obs != [] && obs[|obs| - 1].release.Some? ==> !IsAttached(r.value)
  {
    var r := RunFrom(w, obs, 0, fuel);
    AttachingEach(obs, 0);
    assert r.Ok? && obs != [] && obs[|obs| - 1].release.Some? ==> !IsAttached(r.value) by {
      if obs != [] && obs[|obs| - 1].release.Some? {
        RunFromEndsFree(w, obs, 0, fuel);
      }
    }
    r
  }

  /** Every objective from the `k`-th on has an attach cell. */
  predicate AttachingFrom(obs: seq<Objective>, k: nat)
    requires k <= |obs|
    decreases |obs| - k
  {
    k == |obs| || (obs[k].attach.Some? && AttachingFrom(obs, k + 1))
  }

  /** `AttachingFrom`, objective by objective. */
  lemma {:induction false} AttachingEach(obs: seq<Objective>, k: nat)
    requires k <= |obs|
    ensures AttachingFrom(obs, k) <==> forall j :: k <= j < |obs| ==> obs[j].attach.Some?
    decreases |obs| - k
  {
    if k < |obs| {
      AttachingEach(obs, k + 1);
    }
  }

  /** The objectives from the `k`-th on. */
  function RunFrom(w: World<Label>, obs: seq<Objective>, k: nat, fuel: nat): (r: Result<World<Label>>)
    requires Valid(w) && k <= |obs|
    ensures r.Ok? ==> Valid(r.value) && |r.value.blocks| == |w.blocks|
    ensures r.Ok? ==> AttachingFrom(obs, k)
    ensures r.Ok? && k < |obs| && obs[k].release.Some? ==> !IsAttached(w)
    decreases |obs| - k
  {
    if k == |obs| then Ok(w)
    else match Next(w, obs[k], fuel)
      case Err(e) => Err(e)
      case Ok(w1) => RunFrom(w1, obs, k + 1, fuel)
  }

  /** When the last objective releases, a run that gets through ends with
      the drone holding nothing. */
  lemma {:induction false} RunFromEndsFree(w: World<Label>, obs: seq<Objective>, k: nat, fuel: nat)
    requires Valid(w) && k < |obs| && obs[|obs| - 1].release.Some?
    ensures RunFrom(w, obs, k, fuel).Ok? ==> !IsAttached(RunFrom(w, obs, k, fuel).value)
    decreases |obs| - k
  {
    var n := Next(w, obs[k], fuel);
    if n.Ok? && k + 1 < |obs| {
      RunFromEndsFree(n.value, obs, k + 1, fuel);
    }
  }

  /** `run`: parse the objectives, run the dump objectives (there are none)
      and then the goal objectives. */
  function Plan(dist: Metric, w: World<Label>, rows: seq<Row>, o: Draws, fuel: nat): (r: Result<World<Label>>)
    requires Valid(w)
    ensures w.drone.None? ==> r == Err(AttributeError)
    ensures r.Ok? ==> Valid(r.value) && |r.value.blocks| == |w.blocks|
    ensures r.Ok? && BlockGoals(rows) != [] ==> !IsAttached(w) && !IsAttached(r.value)
  {
    match ParseObjects(dist, w, rows, o)
    case Err(e) => Err(e)
    case Ok(p) =>
      match RunAll(w, [], fuel)
      case Err(e) => Err(e)
      case Ok(w1) =>
        assert BlockGoals(rows) != [] ==> p.objectives != [] by {
          if BlockGoals(rows) != [] {
            assert BlockGoals(rows)[0] in p.goal;
          }
        }
        RunAll(w1, p.objectives, fuel)
  }

  /** `run` as written: the objectives are parsed with the crow search's
      arguments out of order, so the plan fails before the drone moves,
      with or without goal rows. */
  function PlanAsWritten(dist: Metric, w: World<Label>, rows: seq<Row>, o: Draws, fuel: nat): (r: Result<World<Label>>)
    requires Valid(w)
    ensures w.drone.None? ==> r == Err(AttributeError)
    ensures w.drone.Some? ==> r == Err(TypeError)
  {
    match ParseObjectsAsWritten(dist, w, rows, o)
    case Err(e) => Err(e)
    case Ok(p) =>
      match RunAll(w, [], fuel)
      case Err(e) => Err(e)
      case Ok(w1) => RunAll(w1, p.objectives, fuel)
  }
}
