/** The newer tree's `DroneWorld`: objects are labelled with free-form colour
    strings, the drone is labelled "black", and a label mentioning "drone"
    (in any case) asks for the drone instead of a block. */
module NewerWorld {
  import opened Common
  import opened Labels
  import opened WorldModel
  import opened Placement

  type Label = string

  /** The label `add_drone` gives the drone. */
  const DroneLabel: Label := "black"

  /** `add_object`: a label containing "drone", in any case, adds the drone;
      every other label adds a block carrying that label. */
  function AddObject(w: World<Label>, c: Cell, colour: Label): (r: Result<World<Label>>)
    ensures ContainsIgnoreCase(colour, "drone") ==>
      (w.drone.Some? ==> r == Err(RuntimeError))
      && (r.Ok? ==> r.value.blocks == w.blocks && r.value.drone == Some(Drone(Obj(DroneLabel, c, 0), None)))
    ensures !ContainsIgnoreCase(colour, "drone") ==>
      (r.Ok? <==> CanMoveTo(w, c))
      && (r.Ok? ==> |r.value.blocks| == |w.blocks| + 1 && r.value.blocks[|w.blocks|].id == colour
                    && r.value.drone == w.drone)
    ensures r.Ok? && Valid(w) ==> Valid(r.value)
  {
    if ContainsIgnoreCase(colour, "drone") then AddDrone(w, c, DroneLabel)
    else PlaceBlock(w, c, colour)
  }

  /** `get_drone_location`, which dereferences the drone. */
  function DroneLocation(w: World<Label>): (r: Result<Cell>)
    ensures r.Ok? <==> w.drone.Some?
    ensures r.Ok? ==> DroneAt(w, r.value)
    ensures r.Err? ==> r.error == AttributeError
  {
    if w.drone.None? then Err(AttributeError) else Ok(w.drone.value.body.pos)
  }
}
