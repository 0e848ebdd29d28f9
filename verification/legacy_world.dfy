/** The older tree's `DroneWorld`: objects carry `ObjectId`s, blocks may not be
    placed in the reserved drone column or above the drone, the drone counts
    every requested move before finding out whether it is legal, and a carrying
    drone is offered vertical moves of any free length. */
module LegacyWorld {
  import opened Common
  import opened Labels
  import opened WorldModel
  import opened Placement
  import opened DroneOps

  /** The world plus the drone's own counter `_moves`. */
  datatype LWorld = LWorld(world: World<ObjectId>, droneMoves: nat)

  function Create(b: Bounds): (r: Result<LWorld>)
    ensures r.Ok? <==> BoundsOk(b)
    ensures r.Err? ==> r.error == ValueError
    ensures r.Ok? ==> r.value.world.blocks == [] && r.value.world.drone.None? && Valid(r.value.world)
  {
    match WorldModel.Create(b)
    case Err(e) => Err(e)
    case Ok(w) => Ok(LWorld(w, 0))
  }

  /** `add_drone`, with the id DRONE and a fresh counter. */
  function AddDrone(lw: LWorld, c: Cell): (r: Result<LWorld>)
    ensures lw.world.drone.Some? ==> r == Err(RuntimeError)
    ensures lw.world.drone.None? ==> (r.Ok? <==> CanMoveTo(lw.world, c))
    ensures r.Ok? ==> r.value.world.blocks == lw.world.blocks && r.value.droneMoves == 0
    ensures r.Ok? ==> r.value.world.drone == Some(Drone(Obj(DroneId, c, 0), None))
    ensures r.Ok? && Valid(lw.world) ==> Valid(r.value.world)
  {
    match Placement.AddDrone(lw.world, c, DroneId)
    case Err(e) => Err(e)
    case Ok(w) => Ok(LWorld(w, 0))
  }

  /** `add_block`: a cell that is not free is refused; without a drone the
      column x = z = 0 is reserved, and any other column fails when the code
      reads the missing drone's coordinates; with a drone, a cell above it in
      its column is refused; then the label must name a known id. */
  function AddBlock(lw: LWorld, c: Cell, colour: string): (r: Result<LWorld>)
    ensures !CanMoveTo(lw.world, c) ==> r == Err(ValueError)
    ensures CanMoveTo(lw.world, c) && lw.world.drone.None? ==>
      r == Err(if c.x == 0 && c.z == 0 then ValueError else AttributeError)
    ensures (lw.world.drone.Some? && c.x == lw.world.drone.value.body.pos.x
             && c.z == lw.world.drone.value.body.pos.z && c.y > lw.world.drone.value.body.pos.y) ==>
      r == Err(ValueError)
    ensures StrToId(colour).Err? ==> r.Err?
    ensures r.Ok? <==>
      CanMoveTo(lw.world, c) && lw.world.drone.Some? && StrToId(colour).Ok?
      && !(c.x == lw.world.drone.value.body.pos.x && c.z == lw.world.drone.value.body.pos.z
           && c.y > lw.world.drone.value.body.pos.y)
    ensures r.Ok? ==>
      var n := |lw.world.blocks|;
      && |r.value.world.blocks| == n + 1
      && r.value.world.blocks[n].id == StrToId(colour).value
      && r.value.world.blocks[n].pos.x == c.x && r.value.world.blocks[n].pos.z == c.z
      && r.value.droneMoves == lw.droneMoves
    ensures r.Ok? && Valid(lw.world) ==> Valid(r.value.world)
  {
    var w := lw.world;
    if !CanMoveTo(w, c) then Err(ValueError)
    else if w.drone.None? && c.x == 0 && c.z == 0 then Err(ValueError)
    else if w.drone.None? then Err(AttributeError)
    else if c.x == w.drone.value.body.pos.x && c.z == w.drone.value.body.pos.z
            && c.y > w.drone.value.body.pos.y then Err(ValueError)
    else match StrToId(colour)
      case Err(e) => Err(e)
      case Ok(id) =>
        match PlaceBlock(w, c, id)
        case Err(e) => Err(e)
        case Ok(w2) => Ok(LWorld(w2, lw.droneMoves))
  }

  /** The older `Drone.move`: the requested distance |dx| + |dy| + |dz| is
      added to the counter first, then the move is attempted like the newer
      one. The world's `move` passes no success flag back. */
  function Move(lw: LWorld, d: Cell): (r: Result<LWorld>)
    requires AttachedOk(lw.world)
    ensures r.Err? <==> lw.world.drone.None?
    ensures r.Err? ==> r.error == AttributeError
    ensures r.Ok? ==> r.value.droneMoves == lw.droneMoves + Manhattan(d)
    ensures r.Ok? && Valid(lw.world) ==> Valid(r.value.world)
    ensures r.Ok? && Valid(lw.world) ==>
      SameWorld(r.value.world, lw.world) || DroneAt(r.value.world, Add(lw.world.drone.value.body.pos, d))
  {
    match DroneMove(lw.world, d)
    case Err(e) => Err(e)
    case Ok(m) => Ok(LWorld(m.world, lw.droneMoves + Manhattan(d)))
  }

  /** A move into a wall still counts: the counter records requests, not moves. */
  lemma FailedMoveCounted(lw: LWorld, d: Cell)
    requires Valid(lw.world) && lw.world.drone.Some? && !IsAttached(lw.world)
    requires !InBounds(lw.world.bounds, Add(lw.world.drone.value.body.pos, d))
    ensures Move(lw, d).Ok?
    ensures Move(lw, d).value.world == lw.world
    ensures Move(lw, d).value.droneMoves == lw.droneMoves + Manhattan(d)
  {
    assert !DroneMove(lw.world, d).value.ok;
  }

  /** `get_moves`. */
  function GetMoves(lw: LWorld): (r: Result<nat>)
    ensures r.Ok? <==> lw.world.drone.Some?
    ensures r.Ok? ==> r.value == lw.droneMoves
    ensures r.Err? ==> r.error == AttributeError
  {
    if lw.world.drone.None? then Err(AttributeError) else Ok(lw.droneMoves)
  }

  /** The upward run of the older `actions`: (0, k, 0) for k = start,
      start + 1, ... while the cell k above `c` is legal. */
  function UpRun<Id(==)>(w: World<Id>, c: Cell, start: nat): (r: seq<Cell>)
    requires start >= 1
    ensures forall i :: 0 <= i < |r| ==> r[i] == Cell(0, start + i, 0)
    ensures forall k :: start <= k < start + |r| ==> CanMoveTo(w, Vertical(c, k))
    ensures !CanMoveTo(w, Vertical(c, start + |r|))
    decreases if c.y + start <= w.bounds.yMax then w.bounds.yMax - c.y - start + 1 else 0
  {
    if CanMoveTo(w, Vertical(c, start)) then [Cell(0, start, 0)] + UpRun(w, c, start + 1)
    else []
  }

  /** The downward run: (0, -k, 0) while the cell k below `c` is legal. */
  function DownRun<Id(==)>(w: World<Id>, c: Cell, start: nat): (r: seq<Cell>)
    requires start >= 1
    ensures forall i :: 0 <= i < |r| ==> r[i] == Cell(0, -(start + i) as int, 0)
    ensures forall k :: start <= k < start + |r| ==> CanMoveTo(w, Beneath(c, k))
    ensures !CanMoveTo(w, Beneath(c, start + |r|))
    decreases if w.bounds.yMin <= c.y - start then c.y - start - w.bounds.yMin + 1 else 0
  {
    if CanMoveTo(w, Beneath(c, start)) then [Cell(0, -(start as int), 0)] + DownRun(w, c, start + 1)
    else []
  }

  /** The older `Drone.actions`: the unit moves without a block; with one, the
      unit moves common to drone and block, then every upward length over
      free cells above the drone, then every downward length over free cells
      below the block. */
  function Actions(w: World<ObjectId>): (r: Result<seq<Cell>>)
    requires AttachedOk(w)
    ensures r.Err? <==> w.drone.None?
    ensures r.Err? ==> r.error == AttributeError
    ensures w.drone.Some? && !IsAttached(w) ==> r == Ok(UnitMoves(w, w.drone.value.body.pos))
    ensures IsAttached(w) ==>
      var p := w.drone.value.body.pos;
      var b := w.blocks[w.drone.value.attached.value].pos;
      r == Ok(CommonMoves(w, p, b) + UpRun(w, p, 1) + DownRun(w, b, 1))
  {
    if w.drone.None? then Err(AttributeError)
    else if w.drone.value.attached.None? then Ok(UnitMoves(w, w.drone.value.body.pos))
    else
      var p := w.drone.value.body.pos;
      var b := w.blocks[w.drone.value.attached.value].pos;
      Ok(CommonMoves(w, p, b) + UpRun(w, p, 1) + DownRun(w, b, 1))
  }

  /** An upward move of length k over free cells is a successful joint move. */
  lemma UpActionSound(w: World<ObjectId>, k: nat, a: Cell)
    requires Valid(w) && IsAttached(w) && k >= 1 && a == Cell(0, k, 0)
    requires forall j :: 1 <= j <= k ==> CanMoveTo(w, Vertical(w.drone.value.body.pos, j))
    ensures JointMove(w, a).ok
  {
    var p := w.drone.value.body.pos;
    var b := w.blocks[w.drone.value.attached.value].pos;
    assert b == Below(p);
    assert Add(p, a) == Vertical(p, k);
    assert CanMoveTo(w, Vertical(p, k));
    if k > 1 {
      assert Add(b, a) == Vertical(p, k - 1);
      assert CanMoveTo(w, Vertical(p, k - 1));
    } else {
      assert Add(b, a) == p;
    }
    JointMoveSpec(w, a);
  }

  /** A downward move of length k over free cells is a successful joint move. */
  lemma DownActionSound(w: World<ObjectId>, k: nat, a: Cell)
    requires Valid(w) && IsAttached(w) && k >= 1 && a == Cell(0, -(k as int), 0)
    requires forall j :: 1 <= j <= k ==> CanMoveTo(w, Beneath(w.blocks[w.drone.value.attached.value].pos, j))
    ensures JointMove(w, a).ok
  {
    var p := w.drone.value.body.pos;
    var b := w.blocks[w.drone.value.attached.value].pos;
    assert b == Below(p);
    assert Add(b, a) == Beneath(b, k);
    assert CanMoveTo(w, Beneath(b, k));
    if k > 1 {
      assert Add(p, a) == Beneath(b, k - 1);
      assert CanMoveTo(w, Beneath(b, k - 1));
    } else {
      assert Add(p, a) == b;
    }
    JointMoveSpec(w, a);
  }

  /** A move both objects could make alone is a successful joint move. */
  lemma CommonActionSound(w: World<ObjectId>, a: Cell)
    requires Valid(w) && IsAttached(w)
    requires CanMoveTo(w, Add(w.drone.value.body.pos, a))
    requires CanMoveTo(w, Add(w.blocks[w.drone.value.attached.value].pos, a))
    ensures JointMove(w, a).ok
  {
    JointMoveSpec(w, a);
  }

  /** Every action the older drone offers while carrying is a joint move that
      succeeds: each upward or downward length runs over free cells only, so
      the partner always follows into a cell that is free or just vacated. */
  lemma CarryActionsSound(w: World<ObjectId>, a: Cell)
    requires Valid(w) && IsAttached(w) && a in Actions(w).value
    ensures JointMove(w, a).ok
  {
    var p := w.drone.value.body.pos;
    var b := w.blocks[w.drone.value.attached.value].pos;
    var c := CommonMoves(w, p, b);
    var ups := UpRun(w, p, 1);
    var downs := DownRun(w, b, 1);
    assert Actions(w).value == c + ups + downs;
    InConcat(a, c + ups, downs);
    InConcat(a, c, ups);
    if a in c {
      CommonRunSound(w, a);
    } else if a in ups {
      UpRunSound(w, a);
    } else {
      DownRunSound(w, a);
    }
  }
  /** The upward run reaches every length over free cells. */
  lemma UpRunReaches(w: World<ObjectId>, c: Cell, k: nat)
    requires k >= 1 && forall j :: 1 <= j <= k ==> CanMoveTo(w, Vertical(c, j))
    ensures k <= |UpRun(w, c, 1)| && UpRun(w, c, 1)[k - 1] == Cell(0, k, 0)
  {
  }

  /** The downward run reaches every length over free cells. */
  lemma DownRunReaches(w: World<ObjectId>, c: Cell, k: nat)
    requires k >= 1 && forall j :: 1 <= j <= k ==> CanMoveTo(w, Beneath(c, j))
    ensures k <= |DownRun(w, c, 1)| && DownRun(w, c, 1)[k - 1] == Cell(0, -(k as int), 0)
  {
  }

  /** A partner of `CarryActionsSound`: while carrying, every unit move
      both drone and block can make is offered. */
  lemma CarryCommonOffered(w: World<ObjectId>, a: Cell)
    requires AttachedOk(w) && IsAttached(w)
    requires a in UnitActions
    requires CanMoveTo(w, Add(w.drone.value.body.pos, a))
    requires CanMoveTo(w, Add(w.blocks[w.drone.value.attached.value].pos, a))
    ensures a in Actions(w).value
  {
    var p := w.drone.value.body.pos;
    var b := w.blocks[w.drone.value.attached.value].pos;
    var c := CommonMoves(w, p, b);
    var ups := UpRun(w, p, 1);
    assert a in c;
    InConcat(a, c, ups);
    InConcat(a, c + ups, DownRun(w, b, 1));
  }

  /** While carrying, every upward length over free cells above the drone
      is offered. */
  lemma CarryUpOffered(w: World<ObjectId>, k: nat)
    requires AttachedOk(w) && IsAttached(w) && k >= 1
    requires forall j :: 1 <= j <= k ==> CanMoveTo(w, Vertical(w.drone.value.body.pos, j))
    ensures Cell(0, k, 0) in Actions(w).value
  {
    var p := w.drone.value.body.pos;
    var b := w.blocks[w.drone.value.attached.value].pos;
    var c := CommonMoves(w, p, b);
    var ups := UpRun(w, p, 1);
    UpRunReaches(w, p, k);
    var all := c + ups + DownRun(w, b, 1);
    assert all[|c| + k - 1] == Cell(0, k, 0);
  }

  /** While carrying, every downward length over free cells below the
      block is offered. */
  lemma CarryDownOffered(w: World<ObjectId>, k: nat)
    requires AttachedOk(w) && IsAttached(w) && k >= 1
    requires forall j :: 1 <= j <= k ==> CanMoveTo(w, Beneath(w.blocks[w.drone.value.attached.value].pos, j))
    ensures Cell(0, -(k as int), 0) in Actions(w).value
  {
    var p := w.drone.value.body.pos;
    var b := w.blocks[w.drone.value.attached.value].pos;
    var c := CommonMoves(w, p, b);
    var ups := UpRun(w, p, 1);
    var downs := DownRun(w, b, 1);
    DownRunReaches(w, b, k);
    var all := c + ups + downs;
    assert all[|c| + |ups| + k - 1] == Cell(0, -(k as int), 0);
  }

  /** A common move on offer is a successful joint move. */
  lemma CommonRunSound(w: World<ObjectId>, a: Cell)
    requires Valid(w) && IsAttached(w)
    requires a in CommonMoves(w, w.drone.value.body.pos, w.blocks[w.drone.value.attached.value].pos)
    ensures JointMove(w, a).ok
  {
    var c := CommonMoves(w, w.drone.value.body.pos, w.blocks[w.drone.value.attached.value].pos);
    var i :| 0 <= i < |c| && c[i] == a;
    CommonActionSound(w, a);
  }

  /** An upward length on offer is a successful joint move. */
  lemma UpRunSound(w: World<ObjectId>, a: Cell)
    requires Valid(w) && IsAttached(w) && a in UpRun(w, w.drone.value.body.pos, 1)
    ensures JointMove(w, a).ok
  {
    var ups := UpRun(w, w.drone.value.body.pos, 1);
    var i :| 0 <= i < |ups| && ups[i] == a;
    UpActionSound(w, 1 + i, a);
  }

  /** A downward length on offer is a successful joint move. */
  lemma DownRunSound(w: World<ObjectId>, a: Cell)
    requires Valid(w) && IsAttached(w) && a in DownRun(w, w.blocks[w.drone.value.attached.value].pos, 1)
    ensures JointMove(w, a).ok
  {
    var downs := DownRun(w, w.blocks[w.drone.value.attached.value].pos, 1);
    var i :| 0 <= i < |downs| && downs[i] == a;
    DownActionSound(w, 1 + i, a);
  }

  /** `initialize`: the drone at the origin, then a red block requested at
      (-1, 1, 0). In the default world the block falls to the floor. */
  function Initialize(lw: LWorld): (r: Result<LWorld>)
  {
    match AddDrone(lw, Cell(0, 0, 0))
    case Err(e) => Err(e)
    case Ok(lw1) => AddBlock(lw1, Cell(-1, 1, 0), "red")
  }

  /** `initialize` in any empty world whose floor is at height 0 and that
      holds the two requested cells: the drone stays at the origin and the red
      block lands on (-1, 0, 0). */
  lemma InitializeLands(lw: LWorld)
    requires lw.world.blocks == [] && lw.world.drone.None? && Valid(lw.world)
    requires lw.world.bounds.yMin == 0
    requires InBounds(lw.world.bounds, Cell(0, 0, 0)) && InBounds(lw.world.bounds, Cell(-1, 1, 0))
    ensures var r := Initialize(lw);
      r.Ok? && r.value.world.drone.value.body.pos == Cell(0, 0, 0)
      && |r.value.world.blocks| == 1
      && r.value.world.blocks[0].id == Red && r.value.world.blocks[0].pos == Cell(-1, 0, 0)
  {
    var lw1 := AddDrone(lw, Cell(0, 0, 0));
    assert CanMoveTo(lw.world, Cell(0, 0, 0));
    assert lw1.Ok?;
    var w1 := lw1.value.world;
    RedLabel();
    assert CanMoveTo(w1, Cell(-1, 1, 0));
    var r := AddBlock(lw1.value, Cell(-1, 1, 0), "red");
    assert r.Ok?;
    var blk := r.value.world.blocks[0];
    assert blk.pos.x == -1 && blk.pos.z == 0 && blk.pos.y <= 1;
    assert !CanMoveTo(r.value.world, Below(blk.pos));
    if blk.pos.y == 1 {
      assert CanMoveTo(r.value.world, Cell(-1, 0, 0));
    }
    assert blk.pos.y >= 0;
  }

  /** The colour name "red" reads as the label Red. */
  lemma RedLabel()
    ensures StrToId("red") == Ok(Red)
  {
    assert Lower("red") == "red";
    assert OccursAt(Lower("red"), "red", 0);
    ContainsSpec(Lower("red"), "red");
  }

  /** The fixture in a fresh default world. */
  lemma InitializeFixture()
    ensures Create(DefaultBounds).Ok?
    ensures var r := Initialize(Create(DefaultBounds).value);
      r.Ok? && r.value.world.drone.value.body.pos == Cell(0, 0, 0)
      && |r.value.world.blocks| == 1
      && r.value.world.blocks[0].id == Red && r.value.world.blocks[0].pos == Cell(-1, 0, 0)
  {
    InitializeLands(Create(DefaultBounds).value);
  }
}
