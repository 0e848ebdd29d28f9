/** Putting objects into a world: the drone on a free cell, a block on a free
    cell from which it falls until something stops it. Both trees share these
    steps; they differ only in the checks they add in front. */
module Placement {
  import opened Common
  import opened WorldModel

  /** `add_drone`: refused when a drone exists or the cell is not free. The new
      drone starts with a zero counter and nothing attached. */
  function AddDrone<Id(==)>(w: World<Id>, c: Cell, id: Id): (r: Result<World<Id>>)
    ensures w.drone.Some? ==> r == Err(RuntimeError)
    ensures w.drone.None? ==> (r.Ok? <==> CanMoveTo(w, c))
    ensures w.drone.None? && r.Err? ==> r.error == ValueError
    ensures r.Ok? ==> r.value.bounds == w.bounds && r.value.blocks == w.blocks
    ensures r.Ok? ==> r.value.drone == Some(Drone(Obj(id, c, 0), None))
    ensures r.Ok? && Valid(w) ==> Valid(r.value)
  {
    if w.drone.Some? then Err(RuntimeError)
    else if !CanMoveTo(w, c) then Err(ValueError)
    else Ok(w.(drone := Some(Drone(Obj(id, c, 0), None))))
  }

  /** `add_block` after its own checks: refused on a cell that is not free;
      otherwise one block is appended and dropped. */
  function PlaceBlock<Id(==)>(w: World<Id>, c: Cell, id: Id): (r: Result<World<Id>>)
    ensures r.Ok? <==> CanMoveTo(w, c)
    ensures r.Err? ==> r.error == ValueError
    ensures r.Ok? ==> r.value.bounds == w.bounds && r.value.drone == w.drone
    ensures r.Ok? ==> |r.value.blocks| == |w.blocks| + 1 && r.value.blocks[..|w.blocks|] == w.blocks
    ensures r.Ok? ==>
      var b := r.value.blocks[|w.blocks|];
      && b.id == id && b.pos.x == c.x && b.pos.z == c.z && b.pos.y <= c.y
      && b.moves == c.y - b.pos.y
      && !CanMoveTo(r.value, Below(b.pos))
    ensures r.Ok? && Valid(w) ==> Valid(r.value)
  {
    if !CanMoveTo(w, c) then Err(ValueError)
    else
      var n := |w.blocks|;
      var w1 := w.(blocks := w.blocks + [Obj(id, c, 0)]);
      var r := Drop(w1, n);
      assert r.blocks[..n] == w.blocks by {
        forall j | 0 <= j < n ensures r.blocks[j] == w.blocks[j] {
          assert w1.blocks[j] == w.blocks[j];
        }
      }
      assert Valid(w) ==> Valid(r) by {
        if Valid(w) {
          assert Sound(w1) by {
            forall j | 0 <= j < n ensures w1.blocks[j].pos != c {
              assert w1.blocks[j] == w.blocks[j];
            }
          }
          DropSound(w1, n);
        }
      }
      Ok(r)
  }
}
