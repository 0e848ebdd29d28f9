/** The drone of both trees: attaching the block below it, releasing it, the
    two-phase move that carries it, and the actions offered while carrying. */
module DroneOps {
  import opened Common
  import opened WorldModel

  /** `is_attached`: a block is held. */
  predicate IsAttached<Id(==)>(w: World<Id>) {
    w.drone.Some? && w.drone.value.attached.Some?
  }

  /** `attach`: refused when a block is already held, or when the first object
      on the cell below the drone is not a block; otherwise that block is held. */
  function Attach<Id(==)>(w: World<Id>): (r: Result<World<Id>>)
    ensures w.drone.None? ==> r == Err(AttributeError)
    ensures IsAttached(w) ==> r == Err(RuntimeError)
    ensures w.drone.Some? && !IsAttached(w) ==>
      (r.Ok? <==> HasBlockAt(w, Below(w.drone.value.body.pos)))
    ensures w.drone.Some? && r.Err? ==> r.error == RuntimeError
    ensures r.Ok? ==>
      && r.value.bounds == w.bounds && r.value.blocks == w.blocks
      && r.value.drone.Some? && r.value.drone.value.body == w.drone.value.body
      && r.value.drone.value.attached.Some?
      && r.value.drone.value.attached.value < |w.blocks|
      && w.blocks[r.value.drone.value.attached.value].pos == Below(w.drone.value.body.pos)
    ensures Sound(w) && r.Ok? ==> Valid(r.value)
  {
    if w.drone.None? then Err(AttributeError)
    else if w.drone.value.attached.Some? then Err(RuntimeError)
    else match GetObject(w, Below(w.drone.value.body.pos))
      case Ok(BlockAt(i)) => Ok(w.(drone := Some(w.drone.value.(attached := Some(i)))))
      case _ => Err(RuntimeError)
  }

  /** `release`: refused when nothing is held; otherwise the held block drops
      and the drone lets go of it. */
  function Release<Id(==)>(w: World<Id>): (r: Result<World<Id>>)
    requires AttachedOk(w)
    ensures w.drone.None? ==> r == Err(AttributeError)
    ensures w.drone.Some? && !IsAttached(w) ==> r == Err(RuntimeError)
    ensures r.Ok? <==> IsAttached(w)
    ensures r.Ok? ==>
      var i := w.drone.value.attached.value;
      && r.value.bounds == w.bounds
      && r.value.drone == Some(w.drone.value.(attached := None))
      && |r.value.blocks| == |w.blocks|
      && (forall j :: 0 <= j < |w.blocks| && j != i ==> r.value.blocks[j] == w.blocks[j])
      && r.value.blocks[i].pos.x == w.blocks[i].pos.x
      && r.value.blocks[i].pos.z == w.blocks[i].pos.z
      && r.value.blocks[i].pos.y <= w.blocks[i].pos.y
      && !CanMoveTo(r.value, Below(r.value.blocks[i].pos))
    ensures Sound(w) && r.Ok? ==> Valid(r.value)
  {
    if w.drone.None? then Err(AttributeError)
    else if w.drone.value.attached.None? then Err(RuntimeError)
    else
      var i := w.drone.value.attached.value;
      var dropped := Drop(w, i);
      DropSound(w, i);
      var r := dropped.(drone := Some(w.drone.value.(attached := None)));
      assert forall c :: CanMoveTo(r, c) == CanMoveTo(dropped, c);
      Ok(r)
  }

  /** The attached block's slot, for a drone that holds one. */
  function HeldIndex<Id(==)>(w: World<Id>): nat
    requires IsAttached(w)
  {
    w.drone.value.attached.value
  }

  /** The joint move of `Drone.move` while a block is held: for dy < 0 the
      block moves first, otherwise the drone; the second half is tried only
      after the first succeeded, and a half that moved alone is moved back by
      -d through the ordinary move, so its counter keeps both trips. */
  function JointMove<Id(==)>(w: World<Id>, d: Cell): (r: Moved<Id>)
    requires IsAttached(w) && AttachedOk(w)
    ensures r.world.bounds == w.bounds && |r.world.blocks| == |w.blocks|
    ensures forall j :: 0 <= j < |w.blocks| && j != HeldIndex(w) ==> r.world.blocks[j] == w.blocks[j]
    ensures r.world.drone.Some? && r.world.drone.value.attached == w.drone.value.attached
    ensures r.world.drone.value.body.id == w.drone.value.body.id
    ensures r.world.blocks[HeldIndex(w)].id == w.blocks[HeldIndex(w)].id
    ensures r.ok ==> r.world.drone.value.body.pos == Add(w.drone.value.body.pos, d)
    ensures r.ok ==> r.world.blocks[HeldIndex(w)].pos == Add(w.blocks[HeldIndex(w)].pos, d)
    ensures r.ok ==> r.world.drone.value.body.moves == w.drone.value.body.moves + Manhattan(d)
    ensures r.ok ==> r.world.blocks[HeldIndex(w)].moves == w.blocks[HeldIndex(w)].moves + Manhattan(d)
  {
    var b := BlockRef(HeldIndex(w));
    if d.y < 0 then
      var m1 := MoveObj(w, b, d);
      if !m1.ok then Moved(false, w)
      else
        var m2 := MoveObj(m1.world, DroneRef, d);
        if m2.ok then Moved(true, m2.world)
        else Moved(false, MoveObj(m1.world, b, Neg(d)).world)
    else
      var m1 := MoveObj(w, DroneRef, d);
      if !m1.ok then Moved(false, w)
      else
        var m2 := MoveObj(m1.world, b, d);
        if m2.ok then Moved(true, m2.world)
        else Moved(false, MoveObj(m1.world, DroneRef, Neg(d)).world)
  }

  /** A cell a carrying move may enter: inside the bounds and free, or the cell
      the partner object is about to leave. */
  predicate JointFree<Id(==)>(w: World<Id>, c: Cell, partner: Cell) {
    InBounds(w.bounds, c) && (c == partner || !Occupied(w, c))
  }

  /** Which half goes first, and whether it gets away. */
  predicate FirstHalfMoves<Id(==)>(w: World<Id>, d: Cell)
    requires IsAttached(w) && AttachedOk(w)
  {
    if d.y < 0 then CanMoveTo(w, Add(w.blocks[HeldIndex(w)].pos, d))
    else CanMoveTo(w, Add(w.drone.value.body.pos, d))
  }

  /** A cell that object `o` has just left is free again. */
  lemma VacatedFree<Id>(w: World<Id>, w2: World<Id>, o: ObjRef)
    requires Sound(w) && RefOk(w, o) && RefOk(w2, o) && OnlyChanged(w, w2, o)
    requires ObjOf(w2, o).pos != ObjOf(w, o).pos
    ensures CanMoveTo(w2, ObjOf(w, o).pos)
  {
    var c := ObjOf(w, o).pos;
    forall j | 0 <= j < |w2.blocks| ensures w2.blocks[j].pos != c {
      if o != BlockRef(j) {
        assert w2.blocks[j] == w.blocks[j];
      }
    }
  }

  /** The carrying move for dy < 0: the block goes first. */
  lemma JointDown<Id>(w: World<Id>, d: Cell)
    requires Valid(w) && IsAttached(w) && d.y < 0
    ensures var p := w.drone.value.body.pos;
      var b := w.blocks[HeldIndex(w)].pos;
      JointMove(w, d).ok <==> JointFree(w, Add(p, d), b) && JointFree(w, Add(b, d), p)
    ensures !JointMove(w, d).ok ==> SameWorld(JointMove(w, d).world, w)
    ensures !JointMove(w, d).ok ==>
      JointMove(w, d).world.blocks[HeldIndex(w)].moves + JointMove(w, d).world.drone.value.body.moves
      == w.blocks[HeldIndex(w)].moves + w.drone.value.body.moves
         + (if FirstHalfMoves(w, d) then 2 * Manhattan(d) else 0)
    ensures Valid(JointMove(w, d).world)
  {
    var i := HeldIndex(w);
    var B := BlockRef(i);
    var p := w.drone.value.body.pos;
    var b := w.blocks[i].pos;
    assert b == Below(p);
    var m1 := MoveObj(w, B, d);
    assert Add(b, d) != p;
    assert m1.ok <==> JointFree(w, Add(b, d), p);
    if m1.ok {
      MoveObjSound(w, B, d);
      var m2 := MoveObj(m1.world, DroneRef, d);
      assert Add(p, d) != Add(b, d);
      if Add(p, d) == b {
        VacatedFree(w, m1.world, B);
      } else {
        CanMoveFrame(w, m1.world, B, Add(p, d));
      }
      assert m2.ok <==> JointFree(w, Add(p, d), b);
      if m2.ok {
        MoveObjSound(m1.world, DroneRef, d);
        assert JointMove(w, d) == m2;
      } else {
        var m3 := MoveObj(m1.world, B, Neg(d));
        assert Add(Add(b, d), Neg(d)) == b;
        VacatedFree(w, m1.world, B);
        assert m3.ok;
        MoveObjSound(m1.world, B, Neg(d));
        assert Manhattan(Neg(d)) == Manhattan(d);
        assert JointMove(w, d) == Moved(false, m3.world);
        assert m3.world.blocks[i] == w.blocks[i].(moves := w.blocks[i].moves + 2 * Manhattan(d));
        assert m3.world.drone == w.drone;
        assert forall j :: 0 <= j < |w.blocks| ==> m3.world.blocks[j].pos == w.blocks[j].pos;
      }
    } else {
      assert JointMove(w, d) == Moved(false, w);
    }
  }

  /** The carrying move for dy >= 0: the drone goes first. */
  lemma JointUp<Id>(w: World<Id>, d: Cell)
    requires Valid(w) && IsAttached(w) && d.y >= 0
    ensures var p := w.drone.value.body.pos;
      var b := w.blocks[HeldIndex(w)].pos;
      JointMove(w, d).ok <==> JointFree(w, Add(p, d), b) && JointFree(w, Add(b, d), p)
    ensures !JointMove(w, d).ok ==> SameWorld(JointMove(w, d).world, w)
    ensures !JointMove(w, d).ok ==>
      JointMove(w, d).world.blocks[HeldIndex(w)].moves + JointMove(w, d).world.drone.value.body.moves
      == w.blocks[HeldIndex(w)].moves + w.drone.value.body.moves
         + (if FirstHalfMoves(w, d) then 2 * Manhattan(d) else 0)
    ensures Valid(JointMove(w, d).world)
  {
    var i := HeldIndex(w);
    var B := BlockRef(i);
    var p := w.drone.value.body.pos;
    var b := w.blocks[i].pos;
    assert b == Below(p);
    var m1 := MoveObj(w, DroneRef, d);
    assert Add(p, d) != b;
    assert m1.ok <==> JointFree(w, Add(p, d), b);
    if m1.ok {
      MoveObjSound(w, DroneRef, d);
      var m2 := MoveObj(m1.world, B, d);
      assert Add(p, d) != Add(b, d);
      if Add(b, d) == p {
        VacatedFree(w, m1.world, DroneRef);
      } else {
        CanMoveFrame(w, m1.world, DroneRef, Add(b, d));
      }
      assert m2.ok <==> JointFree(w, Add(b, d), p);
      if m2.ok {
        MoveObjSound(m1.world, B, d);
        assert JointMove(w, d) == m2;
      } else {
        var m3 := MoveObj(m1.world, DroneRef, Neg(d));
        assert Add(Add(p, d), Neg(d)) == p;
        VacatedFree(w, m1.world, DroneRef);
        assert m3.ok;
        MoveObjSound(m1.world, DroneRef, Neg(d));
        assert Manhattan(Neg(d)) == Manhattan(d);
        assert JointMove(w, d) == Moved(false, m3.world);
        assert m3.world.blocks == w.blocks;
        assert m3.world.drone.value.body == w.drone.value.body.(moves := w.drone.value.body.moves + 2 * Manhattan(d));
      }
    } else {
      assert JointMove(w, d) == Moved(false, w);
    }
  }

  /** Joint-move atomicity: with the block hanging below the drone, the move
      succeeds exactly when each object's target is inside the bounds and free
      or being vacated by the other; on failure every position is restored,
      and the half that moved alone has paid for the trip there and back. */
  lemma JointMoveSpec<Id>(w: World<Id>, d: Cell)
    requires Valid(w) && IsAttached(w)
    ensures var p := w.drone.value.body.pos;
      var b := w.blocks[HeldIndex(w)].pos;
      JointMove(w, d).ok <==> JointFree(w, Add(p, d), b) && JointFree(w, Add(b, d), p)
    ensures !JointMove(w, d).ok ==> SameWorld(JointMove(w, d).world, w)
    ensures !JointMove(w, d).ok ==>
      JointMove(w, d).world.blocks[HeldIndex(w)].moves + JointMove(w, d).world.drone.value.body.moves
      == w.blocks[HeldIndex(w)].moves + w.drone.value.body.moves
         + (if FirstHalfMoves(w, d) then 2 * Manhattan(d) else 0)
    ensures Valid(JointMove(w, d).world)
  {
    if d.y < 0 {
      JointDown(w, d);
    } else {
      JointUp(w, d);
    }
  }

  lemma JointMoveValid<Id>(w: World<Id>, d: Cell)
    requires IsAttached(w) && AttachedOk(w)
    ensures Valid(w) ==> Valid(JointMove(w, d).world) && (JointMove(w, d).ok || SameWorld(JointMove(w, d).world, w))
  {
    if Valid(w) {
      JointMoveSpec(w, d);
    }
  }

  /** `Drone.move` of the newer tree: a plain object move without a block,
      the joint move with one. */
  function DroneMove<Id(==)>(w: World<Id>, d: Cell): (r: Result<Moved<Id>>)
    requires AttachedOk(w)
    ensures r.Err? <==> w.drone.None?
    ensures r.Err? ==> r.error == AttributeError
    ensures w.drone.Some? && !IsAttached(w) ==> r == Ok(MoveObj(w, DroneRef, d))
    ensures r.Ok? && !r.value.ok ==> SameWorld(r.value.world, w) || !Valid(w)
    ensures r.Ok? && Valid(w) ==> Valid(r.value.world)
  {
    if w.drone.None? then Err(AttributeError)
    else if w.drone.value.attached.None? then
      MoveObjSound(w, DroneRef, d);
      Ok(MoveObj(w, DroneRef, d))
    else
      JointMoveValid(w, d);
      Ok(JointMove(w, d))
  }

  /** `w2` still holds the block `w` holds, and every other block is where
      it was in `w`. */
  predicate Holding<Id(==)>(w: World<Id>, w2: World<Id>)
    requires IsAttached(w)
  {
    && w2.drone.Some? && w2.drone.value.attached == w.drone.value.attached
    && |w2.blocks| == |w.blocks|
    && (forall j :: 0 <= j < |w.blocks| && j != HeldIndex(w) ==> w2.blocks[j] == w.blocks[j])
  }

  /** A drone move on a valid world keeps it valid with its drone; without a
      block nothing but the drone moves, and with one the block stays held
      while every other block stays put. */
  lemma DroneMoveKeeps<Id>(w: World<Id>, a: Cell)
    requires Valid(w) && w.drone.Some?
    ensures Valid(DroneMove(w, a).value.world) && DroneMove(w, a).value.world.drone.Some?
    ensures !IsAttached(w) ==>
      DroneMove(w, a).value.world.blocks == w.blocks && !IsAttached(DroneMove(w, a).value.world)
    ensures IsAttached(w) ==> Holding(w, DroneMove(w, a).value.world)
  {
    var m := DroneMove(w, a).value;
    if !IsAttached(w) {
      assert m == MoveObj(w, DroneRef, a);
      assert m.world.blocks == w.blocks;
    } else {
      JointMoveSpec(w, a);
    }
  }

  /** Block `i` of `w` sat on `from`; in `w2` it rests in the column of
      `target`, below it, the drone is on `target` holding nothing, and every
      other block is where it was. */
  predicate Delivered<Id(==)>(w: World<Id>, i: nat, from: Cell, target: Cell, w2: World<Id>) {
    && w2.drone.Some? && |w2.blocks| == |w.blocks|
    && !IsAttached(w2) && DroneAt(w2, target)
    && i < |w.blocks| && w.blocks[i].pos == from
    && w2.blocks[i].pos.x == target.x && w2.blocks[i].pos.z == target.z
    && w2.blocks[i].pos.y < target.y
    && (forall j :: 0 <= j < |w.blocks| && j != i ==> w2.blocks[j] == w.blocks[j])
  }

  /** The unit moves both the drone and its block could make on their own. */
  function CommonMoves<Id(==)>(w: World<Id>, p: Cell, b: Cell): (r: seq<Cell>)
    ensures forall i :: 0 <= i < |r| ==>
      r[i] in UnitActions && CanMoveTo(w, Add(p, r[i])) && CanMoveTo(w, Add(b, r[i]))
    ensures forall a :: a in UnitActions && CanMoveTo(w, Add(p, a)) && CanMoveTo(w, Add(b, a)) ==> a in r
    ensures RankOrdered(r)
  {
    var f := BothFree(w, p, b);
    FilterUnitActions(f);
    Filter(UnitActions, f)
  }

  /** The unit moves that shift both `p` and `b` onto free cells. */
  function BothFree<Id(==)>(w: World<Id>, p: Cell, b: Cell): Cell -> bool {
    a => CanMoveTo(w, Add(p, a)) && CanMoveTo(w, Add(b, a))
  }

  /** Up and down are never common moves of a drone and the block it holds:
      each would take one of them onto the other. */
  lemma CommonNotVertical<Id>(w: World<Id>)
    requires Valid(w) && IsAttached(w)
    ensures var c := CommonMoves(w, w.drone.value.body.pos, w.blocks[HeldIndex(w)].pos);
      Cell(0, 1, 0) !in c && Cell(0, -1, 0) !in c
  {
    var p := w.drone.value.body.pos;
    var b := w.blocks[HeldIndex(w)].pos;
    assert b == Below(p);
    assert Add(b, Cell(0, 1, 0)) == p && !CanMoveTo(w, p);
    assert Add(p, Cell(0, -1, 0)) == b && !CanMoveTo(w, b);
  }

  /** `Drone.actions` of the newer tree. Carrying, it offers the unit moves
      common to drone and block, then up when the cell above the drone is
      free, then down when the cell below the block is free. Python builds the
      common part through a set; it is listed here in the fixed unit order. */
  function DroneActions<Id(==)>(w: World<Id>): (r: Result<seq<Cell>>)
    requires AttachedOk(w)
    ensures r.Err? <==> w.drone.None?
    ensures r.Err? ==> r.error == AttributeError
    ensures w.drone.Some? && !IsAttached(w) ==> r == Ok(UnitMoves(w, w.drone.value.body.pos))
    ensures IsAttached(w) ==> (r.Ok? &&
      var p := w.drone.value.body.pos;
      var b := w.blocks[HeldIndex(w)].pos;
      (Cell(0, 1, 0) in r.value <== CanMoveTo(w, Above(p)))
      && (Cell(0, -1, 0) in r.value <== CanMoveTo(w, Below(b))))
  {
    if w.drone.None? then Err(AttributeError)
    else if w.drone.value.attached.None? then Ok(UnitMoves(w, w.drone.value.body.pos))
    else
      var p := w.drone.value.body.pos;
      var b := w.blocks[w.drone.value.attached.value].pos;
      Ok(CommonMoves(w, p, b)
         + (if CanMoveTo(w, Above(p)) then [Cell(0, 1, 0)] else [])
         + (if CanMoveTo(w, Below(b)) then [Cell(0, -1, 0)] else []))
  }

  lemma InConcat(x: Cell, s: seq<Cell>, t: seq<Cell>)
    ensures x in s + t <==> x in s || x in t
  {
  }

  /** A rank-ordered sequence has no repeats. */
  lemma RankOrderedNoDup(s: seq<Cell>)
    requires RankOrdered(s)
    ensures NoDup(s)
  {
    forall m, n | 0 <= m < n < |s| ensures s[m] != s[n] {
      assert Rank(s[m]) < Rank(s[n]);
    }
  }

  /** What a carrying unit move needs, case by case: up needs the cell above
      the drone, down the cell below the block, and a sideways move both
      shifted cells. */
  predicate CarryNeeds<Id(==)>(w: World<Id>, p: Cell, b: Cell, a: Cell) {
    if a == Cell(0, 1, 0) then CanMoveTo(w, Above(p))
    else if a == Cell(0, -1, 0) then CanMoveTo(w, Below(b))
    else CanMoveTo(w, Add(p, a)) && CanMoveTo(w, Add(b, a))
  }

  lemma OfferedCases<Id>(w: World<Id>, a: Cell)
    requires Valid(w) && IsAttached(w) && a in UnitActions
    ensures a in DroneActions(w).value <==>
      CarryNeeds(w, w.drone.value.body.pos, w.blocks[HeldIndex(w)].pos, a)
  {
    var p := w.drone.value.body.pos;
    var b := w.blocks[w.drone.value.attached.value].pos;
    var up, down := Cell(0, 1, 0), Cell(0, -1, 0);
    var c := CommonMoves(w, p, b);
    var ups := if CanMoveTo(w, Above(p)) then [up] else [];
    var downs := if CanMoveTo(w, Below(b)) then [down] else [];
    assert DroneActions(w).value == c + ups + downs;
    InConcat(a, c + ups, downs);
    InConcat(a, c, ups);
    CommonNotVertical(w);
    assert b == Below(p);
  }

  lemma JointFreeCases<Id>(w: World<Id>, a: Cell)
    requires Valid(w) && IsAttached(w) && a in UnitActions
    ensures var p := w.drone.value.body.pos;
      var b := w.blocks[HeldIndex(w)].pos;
      JointFree(w, Add(p, a), b) && JointFree(w, Add(b, a), p) <==> CarryNeeds(w, p, b, a)
  {
    var p := w.drone.value.body.pos;
    var b := w.blocks[HeldIndex(w)].pos;
    assert b == Below(p);
    if a == Cell(0, 1, 0) {
      assert Add(b, a) == p && Add(p, a) == Above(p);
    } else if a == Cell(0, -1, 0) {
      assert Add(p, a) == b && Add(b, a) == Below(b);
    } else {
      assert Add(p, a) != b && Add(b, a) != p;
    }
  }

  /** While carrying, a unit action is offered exactly when the joint move
      along it would succeed. */
  lemma CarryActionsExact<Id>(w: World<Id>, a: Cell)
    requires Valid(w) && IsAttached(w) && a in UnitActions
    ensures a in DroneActions(w).value <==> JointMove(w, a).ok
  {
    OfferedCases(w, a);
    JointFreeCases(w, a);
    JointMoveSpec(w, a);
  }

  /** No action is offered twice. */
  lemma DroneActionsNoDup<Id>(w: World<Id>)
    requires Valid(w) && w.drone.Some?
    ensures NoDup(DroneActions(w).value)
  {
    if IsAttached(w) {
      var p := w.drone.value.body.pos;
      var b := w.blocks[w.drone.value.attached.value].pos;
      var up, down := Cell(0, 1, 0), Cell(0, -1, 0);
      var c := CommonMoves(w, p, b);
      var ups := if CanMoveTo(w, Above(p)) then [up] else [];
      var downs := if CanMoveTo(w, Below(b)) then [down] else [];
      assert DroneActions(w).value == c + ups + downs;
      RankOrderedNoDup(c);
      CommonNotVertical(w);
      NoDupConcat(c, ups);
      NoDupConcat(c + ups, downs);
    } else {
      RankOrderedNoDup(UnitMoves(w, w.drone.value.body.pos));
    }
  }

  /** The offered actions are exactly the unit moves that would succeed, with
      or without a block, and none is offered twice. */
  lemma DroneActionsExact<Id>(w: World<Id>, a: Cell)
    requires Valid(w) && w.drone.Some? && a in UnitActions
    ensures a in DroneActions(w).value <==> DroneMove(w, a).value.ok
    ensures NoDup(DroneActions(w).value)
  {
    DroneActionsNoDup(w);
    if IsAttached(w) {
      CarryActionsExact(w, a);
    }
  }
}
