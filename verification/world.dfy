/** The world shared by both generations of the planner: inclusive bounds, the
    blocks in insertion order and at most one drone. Every object move goes
    through one legality test, `CanMoveTo`, which is `can_move_object`. */
module WorldModel {
  import opened Common

  /** A world object: its label, its cell, and the move counter the newer tree
      keeps per object. The older tree's objects have no counter; its model
      never reads this field. */
  datatype Obj<Id> = Obj(id: Id, pos: Cell, moves: nat)

  /** The drone; `attached` is the index of the carried block in `World.blocks`. */
  datatype Drone<Id> = Drone(body: Obj<Id>, attached: Option<nat>)

  datatype World<Id> = World(bounds: Bounds, blocks: seq<Obj<Id>>, drone: Option<Drone<Id>>)

  /** Which object a move is about. */
  datatype ObjRef = BlockRef(index: nat) | DroneRef

  /** What `get_object` hands back. */
  datatype Found = Nothing | BlockAt(index: nat) | TheDrone

  /** The outcome of `move`: the success flag and the world afterwards. */
  datatype Moved<Id> = Moved(ok: bool, world: World<Id>)

  /** One entry of `state()`: the `(id, x, y, z)` tuple. */
  datatype Entry<Id> = Entry(id: Id, pos: Cell)

  /** The constructor: an empty world, refused when an axis has min > max. */
  function Create<Id(==)>(b: Bounds): (r: Result<World<Id>>)
    ensures r.Ok? <==> BoundsOk(b)
    ensures r.Err? ==> r.error == ValueError
    ensures r.Ok? ==> r.value.bounds == b && r.value.blocks == [] && r.value.drone.None?
    ensures r.Ok? ==> Valid(r.value)
  {
    if b.xMin > b.xMax then Err(ValueError)
    else if b.yMin > b.yMax then Err(ValueError)
    else if b.zMin > b.zMax then Err(ValueError)
    else Ok(World(b, [], None))
  }

  /** The first block, in insertion order, standing on `c`. */
  function FindBlock<Id(==)>(blocks: seq<Obj<Id>>, c: Cell): (r: Option<nat>)
    ensures r.Some? ==> r.value < |blocks| && blocks[r.value].pos == c
    ensures r.Some? ==> forall j :: 0 <= j < r.value ==> blocks[j].pos != c
    ensures r.None? <==> forall j :: 0 <= j < |blocks| ==> blocks[j].pos != c
    decreases |blocks|
  {
    if |blocks| == 0 then None
    else if blocks[0].pos == c then Some(0)
    else match FindBlock(blocks[1..], c)
      case None => None
      case Some(i) => Some(i + 1)
  }

  predicate HasBlockAt<Id(==)>(w: World<Id>, c: Cell) {
    exists j :: 0 <= j < |w.blocks| && w.blocks[j].pos == c
  }

  predicate DroneAt<Id(==)>(w: World<Id>, c: Cell) {
    w.drone.Some? && w.drone.value.body.pos == c
  }

  predicate Occupied<Id(==)>(w: World<Id>, c: Cell) {
    HasBlockAt(w, c) || DroneAt(w, c)
  }

  /** `can_move_object`: the scan over bounds, blocks and drone accepts a cell
      exactly when it lies inside the bounds and nothing stands on it. */
  function CanMoveTo<Id(==)>(w: World<Id>, c: Cell): (r: bool)
    ensures r <==> InBounds(w.bounds, c) && !Occupied(w, c)
  {
    InBounds(w.bounds, c) && FindBlock(w.blocks, c).None? && !DroneAt(w, c)
  }

  /** `get_object`: the first block on `c`, else the drone if it is there. The
      drone test dereferences the drone, so with no drone and no block on `c`
      the lookup fails. */
  function GetObject<Id(==)>(w: World<Id>, c: Cell): (r: Result<Found>)
    ensures r.Ok? && r.value.BlockAt? ==>
      r.value.index < |w.blocks| && w.blocks[r.value.index].pos == c
      && forall j :: 0 <= j < r.value.index ==> w.blocks[j].pos != c
    ensures HasBlockAt(w, c) ==> r.Ok? && r.value.BlockAt?
    ensures r == Ok(TheDrone) <==> !HasBlockAt(w, c) && DroneAt(w, c)
    ensures r == Ok(Nothing) <==> !Occupied(w, c) && w.drone.Some?
    ensures r.Err? <==> !HasBlockAt(w, c) && w.drone.None?
    ensures r.Err? ==> r.error == AttributeError
  {
    match FindBlock(w.blocks, c)
    case Some(i) => Ok(BlockAt(i))
    case None =>
      if w.drone.None? then Err(AttributeError)
      else if w.drone.value.body.pos == c then Ok(TheDrone)
      else Ok(Nothing)
  }

  /** The attachment, if any, names an existing block. */
  predicate AttachedOk<Id(==)>(w: World<Id>) {
    w.drone.Some? && w.drone.value.attached.Some? ==> w.drone.value.attached.value < |w.blocks|
  }

  /** What every reachable world satisfies: sane bounds, every object inside
      them, no two objects on one cell, and a real block behind the attachment. */
  predicate Sound<Id(==)>(w: World<Id>) {
    && BoundsOk(w.bounds)
    && (forall j :: 0 <= j < |w.blocks| ==> InBounds(w.bounds, w.blocks[j].pos))
    && (forall i, j :: 0 <= i < j < |w.blocks| ==> w.blocks[i].pos != w.blocks[j].pos)
    && (w.drone.Some? ==> InBounds(w.bounds, w.drone.value.body.pos))
    && (w.drone.Some? ==> forall j :: 0 <= j < |w.blocks| ==> w.blocks[j].pos != w.drone.value.body.pos)
    && AttachedOk(w)
  }

  /** A carried block hangs directly below the drone. */
  predicate Carrying<Id(==)>(w: World<Id>) {
    w.drone.Some? && w.drone.value.attached.Some? && w.drone.value.attached.value < |w.blocks| ==>
      w.blocks[w.drone.value.attached.value].pos == Below(w.drone.value.body.pos)
  }

  /** The invariant every world operation keeps between calls. */
  predicate Valid<Id(==)>(w: World<Id>) {
    Sound(w) && Carrying(w)
  }

  predicate RefOk<Id(==)>(w: World<Id>, o: ObjRef) {
    match o
    case BlockRef(i) => i < |w.blocks|
    case DroneRef => w.drone.Some?
  }

  function ObjOf<Id(==)>(w: World<Id>, o: ObjRef): Obj<Id>
    requires RefOk(w, o)
  {
    match o
    case BlockRef(i) => w.blocks[i]
    case DroneRef => w.drone.value.body
  }

  function WithObj<Id(==)>(w: World<Id>, o: ObjRef, x: Obj<Id>): World<Id>
    requires RefOk(w, o)
  {
    match o
    case BlockRef(i) => w.(blocks := w.blocks[i := x])
    case DroneRef => w.(drone := Some(w.drone.value.(body := x)))
  }

  /** `w2` differs from `w` at most in the object `o`. */
  predicate OnlyChanged<Id(==)>(w: World<Id>, w2: World<Id>, o: ObjRef) {
    && w2.bounds == w.bounds
    && |w2.blocks| == |w.blocks|
    && (forall j :: 0 <= j < |w.blocks| && o != BlockRef(j) ==> w2.blocks[j] == w.blocks[j])
    && w2.drone.Some? == w.drone.Some?
    && (o.BlockRef? ==> w2.drone == w.drone)
    && (o.DroneRef? && w.drone.Some? ==> w2.drone.value.attached == w.drone.value.attached)
  }

  /** `DroneWorldObject.move`: the object goes to its cell plus `d` when that
      cell is legal, and its counter grows by |dx| + |dy| + |dz|. */
  function MoveObj<Id(==)>(w: World<Id>, o: ObjRef, d: Cell): (r: Moved<Id>)
    requires RefOk(w, o)
    ensures RefOk(r.world, o) && OnlyChanged(w, r.world, o)
    ensures r.ok <==> InBounds(w.bounds, Add(ObjOf(w, o).pos, d)) && !Occupied(w, Add(ObjOf(w, o).pos, d))
    ensures ObjOf(r.world, o).id == ObjOf(w, o).id
    ensures r.ok ==> ObjOf(r.world, o).pos == Add(ObjOf(w, o).pos, d)
    ensures r.ok ==> ObjOf(r.world, o).moves == ObjOf(w, o).moves + Manhattan(d)
    ensures !r.ok ==> r.world == w
  {
    var x := ObjOf(w, o);
    var target := Add(x.pos, d);
    if CanMoveTo(w, target) then
      Moved(true, WithObj(w, o, x.(pos := target, moves := x.moves + Manhattan(d))))
    else
      Moved(false, w)
  }

  /** An object never moves onto its own cell: a zero move always fails. */
  lemma ZeroMoveFails<Id>(w: World<Id>, o: ObjRef)
    requires RefOk(w, o)
    ensures !MoveObj(w, o, Cell(0, 0, 0)).ok
    ensures MoveObj(w, o, Cell(0, 0, 0)).world == w
  {
    assert Add(ObjOf(w, o).pos, Cell(0, 0, 0)) == ObjOf(w, o).pos;
    match o
    case BlockRef(i) => assert w.blocks[i].pos == ObjOf(w, o).pos;
    case DroneRef =>
  }

  /** Moving one object does not change whether any other cell is free. */
  lemma CanMoveFrame<Id>(w: World<Id>, w2: World<Id>, o: ObjRef, c: Cell)
    requires RefOk(w, o) && RefOk(w2, o) && OnlyChanged(w, w2, o)
    requires c != ObjOf(w, o).pos && c != ObjOf(w2, o).pos
    ensures CanMoveTo(w2, c) == CanMoveTo(w, c)
  {
    if HasBlockAt(w, c) {
      var j :| 0 <= j < |w.blocks| && w.blocks[j].pos == c;
      assert o != BlockRef(j);
      assert w2.blocks[j].pos == c;
    }
    if HasBlockAt(w2, c) {
      var j :| 0 <= j < |w2.blocks| && w2.blocks[j].pos == c;
      assert o != BlockRef(j);
      assert w.blocks[j].pos == c;
    }
  }

  /** A single object move keeps the world sound. */
  lemma MoveObjSound<Id>(w: World<Id>, o: ObjRef, d: Cell)
    requires RefOk(w, o)
    ensures Sound(w) ==> Sound(MoveObj(w, o, d).world)
  {
    var r := MoveObj(w, o, d);
    if Sound(w) && r.ok {
      var w2 := r.world;
      var t := Add(ObjOf(w, o).pos, d);
      assert !Occupied(w, t);
      match o
      case BlockRef(i) =>
        forall a, b | 0 <= a < b < |w2.blocks| ensures w2.blocks[a].pos != w2.blocks[b].pos {
          if a == i {
            assert w2.blocks[b] == w.blocks[b];
          } else if b == i {
            assert w2.blocks[a] == w.blocks[a];
          }
        }
        if w2.drone.Some? {
          forall j | 0 <= j < |w2.blocks| ensures w2.blocks[j].pos != w2.drone.value.body.pos {
            if j != i {
              assert w2.blocks[j] == w.blocks[j];
            }
          }
        }
      case DroneRef =>
        forall j | 0 <= j < |w2.blocks| ensures w2.blocks[j].pos != w2.drone.value.body.pos {
          assert w2.blocks[j] == w.blocks[j];
        }
    }
  }

  /** `Block.drop`: step down one cell while the cell below is legal. Each
      successful step lowers the block by one inside the bounds, so the loop
      ends. The constructor drops a block before appending it; appending it
      first decides the same steps, since a block never tests its own cell. */
  function Drop<Id(==)>(w: World<Id>, i: nat): (r: World<Id>)
    requires i < |w.blocks|
    ensures OnlyChanged(w, r, BlockRef(i))
    ensures r.blocks[i].id == w.blocks[i].id
    ensures r.blocks[i].pos.x == w.blocks[i].pos.x && r.blocks[i].pos.z == w.blocks[i].pos.z
    ensures r.blocks[i].pos.y <= w.blocks[i].pos.y
    ensures r.blocks[i].moves == w.blocks[i].moves + (w.blocks[i].pos.y - r.blocks[i].pos.y)
    ensures !CanMoveTo(r, Below(r.blocks[i].pos))
    ensures forall y :: r.blocks[i].pos.y <= y < w.blocks[i].pos.y ==>
      CanMoveTo(w, Cell(w.blocks[i].pos.x, y, w.blocks[i].pos.z))
    decreases if w.bounds.yMin <= w.blocks[i].pos.y then w.blocks[i].pos.y - w.bounds.yMin + 1 else 0
  {
    var m := MoveObj(w, BlockRef(i), Cell(0, -1, 0));
    if m.ok then
      var r := Drop(m.world, i);
      var p := w.blocks[i].pos;
      assert forall y :: r.blocks[i].pos.y <= y < p.y ==> CanMoveTo(w, Cell(p.x, y, p.z)) by {
        forall y | r.blocks[i].pos.y <= y < p.y ensures CanMoveTo(w, Cell(p.x, y, p.z)) {
          if y < p.y - 1 {
            assert CanMoveTo(m.world, Cell(p.x, y, p.z));
            CanMoveFrame(w, m.world, BlockRef(i), Cell(p.x, y, p.z));
          } else {
            assert Cell(p.x, y, p.z) == Add(p, Cell(0, -1, 0));
          }
        }
      }
      r
    else
      w
  }

  /** Dropping a block keeps the world sound. */
  lemma {:induction false} DropSound<Id>(w: World<Id>, i: nat)
    requires i < |w.blocks|
    ensures Sound(w) ==> Sound(Drop(w, i))
    decreases if w.bounds.yMin <= w.blocks[i].pos.y then w.blocks[i].pos.y - w.bounds.yMin + 1 else 0
  {
    var m := MoveObj(w, BlockRef(i), Cell(0, -1, 0));
    if m.ok {
      MoveObjSound(w, BlockRef(i), Cell(0, -1, 0));
      DropSound(m.world, i);
    }
  }

  /** The unit moves of an object at `p`, in the fixed order +x, -x, +y, -y,
      +z, -z, keeping those whose target is legal (`DroneWorldObject.actions`). */
  function UnitMoves<Id(==)>(w: World<Id>, p: Cell): (r: seq<Cell>)
    ensures forall i :: 0 <= i < |r| ==> r[i] in UnitActions && CanMoveTo(w, Add(p, r[i]))
    ensures forall a :: a in UnitActions && CanMoveTo(w, Add(p, a)) ==> a in r
    ensures RankOrdered(r)
  {
    FilterUnitActions(a => CanMoveTo(w, Add(p, a)));
    Filter(UnitActions, a => CanMoveTo(w, Add(p, a)))
  }

  /** Filtering the unit actions keeps their order and every kept action. */
  lemma FilterUnitActions(keep: Cell -> bool)
    ensures RankOrdered(Filter(UnitActions, keep))
    ensures forall a :: a in UnitActions && keep(a) ==> a in Filter(UnitActions, keep)
  {
    assert RankOrdered(UnitActions);
    FilterRankOrdered(UnitActions, keep);
    FilterHas(UnitActions, keep);
  }

  /** Filtering keeps the order of a rank-ordered sequence. */
  lemma {:induction false} FilterRankOrdered(s: seq<Cell>, keep: Cell -> bool)
    requires RankOrdered(s)
    ensures RankOrdered(Filter(s, keep))
    decreases |s|
  {
    if |s| > 0 {
      var rest := s[1..];
      RankOrderedTail(s);
      FilterRankOrdered(rest, keep);
      if keep(s[0]) {
        var t := Filter(rest, keep);
        assert Filter(s, keep) == [s[0]] + t;
        RankOrderedCons(s[0], t);
      }
    }
  }

  /** The tail of a rank-ordered sequence is rank-ordered and ranks above
      its head. */
  lemma RankOrderedTail(s: seq<Cell>)
    requires RankOrdered(s) && |s| > 0
    ensures RankOrdered(s[1..])
    ensures forall y :: y in s[1..] ==> Rank(s[0]) < Rank(y)
  {
    forall i, j | 0 <= i < j < |s| - 1 ensures Rank(s[1..][i]) < Rank(s[1..][j]) {
      assert s[1..][i] == s[i + 1] && s[1..][j] == s[j + 1];
    }
  }

  /** A head ranking below every element of a rank-ordered tail. */
  lemma RankOrderedCons(x: Cell, t: seq<Cell>)
    requires RankOrdered(t) && forall y :: y in t ==> Rank(x) < Rank(y)
    ensures RankOrdered([x] + t)
  {
    var s := [x] + t;
    forall i, j | 0 <= i < j < |s| ensures Rank(s[i]) < Rank(s[j]) {
      assert s[j] == t[j - 1];
      if i > 0 {
        assert s[i] == t[i - 1];
      }
    }
  }

  /** Python's `__eq__` on objects: the label and the three coordinates. The
      move counter and the attachment take no part. */
  predicate SameObj<Id(==)>(a: Obj<Id>, b: Obj<Id>) {
    a.id == b.id && a.pos == b.pos
  }

  /** `DroneWorld.__eq__`: equal drones and element-wise equal block lists. */
  predicate SameWorld<Id(==)>(a: World<Id>, b: World<Id>) {
    && a.drone.Some? == b.drone.Some?
    && (a.drone.Some? ==> SameObj(a.drone.value.body, b.drone.value.body))
    && |a.blocks| == |b.blocks|
    && (forall j :: 0 <= j < |a.blocks| ==> SameObj(a.blocks[j], b.blocks[j]))
  }

  /** `state()`: one `(id, x, y, z)` entry per block in insertion order, then
      the drone's; without a drone the last step dereferences nothing. */
  function State<Id(==)>(w: World<Id>): (r: Result<seq<Entry<Id>>>)
    ensures r.Err? <==> w.drone.None?
    ensures r.Err? ==> r.error == AttributeError
    ensures r.Ok? ==> |r.value| == |w.blocks| + 1
    ensures r.Ok? ==> forall j :: 0 <= j < |w.blocks| ==>
      r.value[j] == Entry(w.blocks[j].id, w.blocks[j].pos)
    ensures r.Ok? ==> r.value[|w.blocks|] == Entry(w.drone.value.body.id, w.drone.value.body.pos)
  {
    if w.drone.None? then Err(AttributeError)
    else Ok(seq(|w.blocks|, j requires 0 <= j < |w.blocks| => Entry(w.blocks[j].id, w.blocks[j].pos))
            + [Entry(w.drone.value.body.id, w.drone.value.body.pos)])
  }

  /** Worlds that compare equal report the same state. */
  lemma SameWorldSameState<Id>(a: World<Id>, b: World<Id>)
    requires SameWorld(a, b)
    ensures State(a) == State(b)
  {
    if a.drone.Some? {
      assert State(a).value == State(b).value;
    }
  }
}
