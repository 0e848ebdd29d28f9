/** The array-grid prototype at the root of the older tree: a world that
    stores each object in a three-dimensional array indexed by the offset
    of a cell from the world's minimum corner, and objects that register
    themselves in it and move through it. */
module GridWorld {
  import opened Common
  import opened WorldModel

  /** An index into the array: the offset of a cell on every axis. */
  datatype Slot = Slot(i: int, j: int, k: int)

  /** A prototype object: its id and its own record of its cell. */
  datatype Piece = Piece(id: int, pos: Cell)

  /** The world: its bounds, the array (the slots that hold an object, each
      mapped to that object's position in `objects`) and the objects in the
      order they were added. */
  datatype Grid = Grid(bounds: Bounds, cells: map<Slot, nat>, objects: seq<Piece>)

  /** The extent of the array on every axis. */
  function Ranges(b: Bounds): Slot {
    Slot(b.xMax - b.xMin + 1, b.yMax - b.yMin + 1, b.zMax - b.zMin + 1)
  }

  /** The slot a cell would occupy, whether or not it lies in the world. */
  function SlotOf(b: Bounds, c: Cell): Slot {
    Slot(c.x - b.xMin, c.y - b.yMin, c.z - b.zMin)
  }

  /** `_x_index`, `_y_index`, `_z_index`: the offset of `c` from `lo`,
      which lies in the axis's range; outside `[lo, hi]` it is a bounds
      error. */
  function AxisIndex(c: int, lo: int, hi: int): (r: Result<int>)
    ensures r.Ok? <==> lo <= c <= hi
    ensures r.Ok? ==> 0 <= r.value < hi - lo + 1 && lo + r.value == c
    ensures r.Err? ==> r.error == BoundsError
  {
    if c < lo || c > hi then Err(BoundsError) else Ok(c - lo)
  }

  /** The three index helpers in turn: the slot of a cell in the world. */
  function Index(b: Bounds, c: Cell): (r: Result<Slot>)
    ensures r.Ok? <==> InBounds(b, c)
    ensures r.Err? ==> r.error == BoundsError
    ensures r.Ok? ==> 0 <= r.value.i < Ranges(b).i && 0 <= r.value.j < Ranges(b).j && 0 <= r.value.k < Ranges(b).k
    ensures r.Ok? ==> Cell(b.xMin + r.value.i, b.yMin + r.value.j, b.zMin + r.value.k) == c
  {
    match AxisIndex(c.x, b.xMin, b.xMax)
    case Err(e) => Err(e)
    case Ok(i) =>
      match AxisIndex(c.y, b.yMin, b.yMax)
      case Err(e) => Err(e)
      case Ok(j) =>
        match AxisIndex(c.z, b.zMin, b.zMax)
        case Err(e) => Err(e)
        case Ok(k) => Ok(Slot(i, j, k))
  }

  /** Different cells of the world never share a slot. */
  lemma IndexInjective(b: Bounds, c: Cell, d: Cell)
    requires Index(b, c).Ok? && Index(b, c) == Index(b, d)
    ensures c == d
  {
  }

  /** The slots of the world are exactly the cells of the world. */
  lemma IndexIsSlotOf(b: Bounds, c: Cell)
    ensures InBounds(b, c) ==> Index(b, c) == Ok(SlotOf(b, c))
  {
  }

  /** Every object's record of its cell agrees with the array: its cell is
      in the world and its slot names it, and every filled slot names an
      object that records that slot's cell. */
  predicate Consistent(g: Grid) {
    && (forall n :: 0 <= n < |g.objects| ==>
          InBounds(g.bounds, g.objects[n].pos)
          && SlotOf(g.bounds, g.objects[n].pos) in g.cells
          && g.cells[SlotOf(g.bounds, g.objects[n].pos)] == n)
    && (forall s :: s in g.cells ==>
          g.cells[s] < |g.objects| && SlotOf(g.bounds, g.objects[g.cells[s]].pos) == s)
  }

  /** The constructor: an axis whose minimum exceeds its maximum is a
      ValueError; otherwise the array spans every axis's range, which is at
      least one slot wide, and holds nothing. */
  function NewGrid(b: Bounds): (r: Result<Grid>)
    ensures r.Ok? <==> BoundsOk(b)
    ensures r.Err? ==> r.error == ValueError
    ensures r.Ok? ==> r.value.bounds == b && |r.value.cells| == 0 && r.value.objects == []
    ensures r.Ok? ==> Ranges(b).i >= 1 && Ranges(b).j >= 1 && Ranges(b).k >= 1
    ensures r.Ok? ==> Consistent(r.value)
  {
    if b.xMin > b.xMax then Err(ValueError)
    else if b.yMin > b.yMax then Err(ValueError)
    else if b.zMin > b.zMax then Err(ValueError)
    else Ok(Grid(b, map[], []))
  }

  /** `get_object`: the position in `objects` of what the cell's slot
      holds, or nothing; a cell outside the world is a bounds error. */
  function GetObject(g: Grid, c: Cell): (r: Result<Option<nat>>)
    ensures r.Err? <==> !InBounds(g.bounds, c)
    ensures r.Err? ==> r.error == BoundsError
    ensures Consistent(g) && r.Ok? && r.value.Some? ==>
      r.value.value < |g.objects| && g.objects[r.value.value].pos == c
    ensures Consistent(g) && r.Ok? && r.value.None? ==>
      forall n :: 0 <= n < |g.objects| ==> g.objects[n].pos != c
  {
    match Index(g.bounds, c)
    case Err(e) => Err(e)
    case Ok(s) =>
      if s in g.cells then
        assert Consistent(g) ==> g.objects[g.cells[s]].pos == c by {
          if Consistent(g) {
            IndexIsSlotOf(g.bounds, g.objects[g.cells[s]].pos);
            IndexInjective(g.bounds, c, g.objects[g.cells[s]].pos);
          }
        }
        Ok(Some(g.cells[s]))
      else Ok(None)
  }

  /** `is_occupied`: the cell's slot holds an object. In a consistent grid,
      exactly when some object records that cell. */
  function IsOccupied(g: Grid, c: Cell): (r: Result<bool>)
    ensures r.Err? <==> !InBounds(g.bounds, c)
    ensures r.Err? ==> r.error == BoundsError
    ensures r.Ok? ==> (r.value <==> SlotOf(g.bounds, c) in g.cells)
    ensures Consistent(g) && r.Ok? ==>
      (r.value <==> exists n :: 0 <= n < |g.objects| && g.objects[n].pos == c)
  {
    match GetObject(g, c)
    case Err(e) => Err(e)
    case Ok(o) => Ok(o.Some?)
  }

  /** `add_object`: a cell outside the world is a bounds error and an
      occupied cell a ValueError; otherwise the object goes into the cell's
      slot and onto the end of `objects`. */
  function AddObject(g: Grid, p: Piece, c: Cell): (r: Result<Grid>)
    ensures r.Ok? <==> InBounds(g.bounds, c) && SlotOf(g.bounds, c) !in g.cells
    ensures !InBounds(g.bounds, c) ==> r == Err(BoundsError)
    ensures InBounds(g.bounds, c) && SlotOf(g.bounds, c) in g.cells ==> r == Err(ValueError)
    ensures r.Ok? ==> r.value.bounds == g.bounds && r.value.objects == g.objects + [p]
    ensures r.Ok? ==> r.value.cells == g.cells[SlotOf(g.bounds, c) := |g.objects|]
  {
    match IsOccupied(g, c)
    case Err(e) => Err(e)
    case Ok(occupied) =>
      if occupied then Err(ValueError)
      else Ok(Grid(g.bounds, g.cells[Index(g.bounds, c).value := |g.objects|], g.objects + [p]))
  }

  /** `DroneWorldObject.__init__`: the object records its cell and id and
      registers itself there. */
  function NewPiece(g: Grid, c: Cell, id: int): (r: Result<Grid>)
    ensures r.Ok? <==> InBounds(g.bounds, c) && SlotOf(g.bounds, c) !in g.cells
    ensures r.Ok? ==> r.value.objects == g.objects + [Piece(id, c)]
    ensures Consistent(g) && r.Ok? ==> Consistent(r.value)
    ensures Consistent(g) && r.Ok? ==> GetObject(r.value, c) == Ok(Some(|g.objects|))
  {
    var r := AddObject(g, Piece(id, c), c);
    assert r.Ok? && Consistent(g) ==> Consistent(r.value) by {
      if r.Ok? && Consistent(g) {
        AddKeeps(g, Piece(id, c), c);
      }
    }
    r
  }

  /** Adding an object to a free cell of a consistent grid keeps it
      consistent. */
  lemma AddKeeps(g: Grid, p: Piece, c: Cell)
    requires Consistent(g) && AddObject(g, p, c).Ok? && p.pos == c
    ensures Consistent(AddObject(g, p, c).value)
  {
    var g2 := AddObject(g, p, c).value;
    var s := SlotOf(g.bounds, c);
    forall n | 0 <= n < |g2.objects|
      ensures SlotOf(g2.bounds, g2.objects[n].pos) in g2.cells && g2.cells[SlotOf(g2.bounds, g2.objects[n].pos)] == n
    {
      if n < |g.objects| {
        assert g2.objects[n] == g.objects[n];
        assert SlotOf(g.bounds, g.objects[n].pos) != s;
      }
    }
  }

  /** `can_move_object`: only the target's occupancy is asked; the current
      cell is not looked at. */
  function CanMoveObject(g: Grid, cur: Cell, dest: Cell): (r: Result<bool>)
    ensures r.Err? <==> !InBounds(g.bounds, dest)
    ensures r.Ok? ==> (r.value <==> SlotOf(g.bounds, dest) !in g.cells)
  {
    match IsOccupied(g, dest)
    case Err(e) => Err(e)
    case Ok(occupied) => Ok(!occupied)
  }

  /** The array after the content of slot `from` is written to slot `to`
      and `from` is then cleared. */
  function Shift(cells: map<Slot, nat>, from: Slot, to: Slot): (r: map<Slot, nat>)
    ensures from !in r
    ensures from != to && from in cells ==> to in r && r[to] == cells[from]
    ensures from != to && from !in cells ==> to !in r
    ensures forall s :: s != from && s != to ==> (s in r <==> s in cells) && (s in cells ==> r[s] == cells[s])
  {
    var written := if from in cells then cells[to := cells[from]] else cells - {to};
    written - {from}
  }

  /** `move_object` as written: both cells must lie in the world, then the
      content of the current cell's slot is copied over the target's and the
      current slot is cleared, with no occupancy check, and nothing is
      returned. The objects' own records of their cells are not touched. */
  function MoveObjectAsWritten(g: Grid, cur: Cell, dest: Cell): (r: Result<Grid>)
    ensures r.Ok? <==> InBounds(g.bounds, cur) && InBounds(g.bounds, dest)
    ensures r.Err? ==> r.error == BoundsError
    ensures r.Ok? ==> r.value == Grid(g.bounds, Shift(g.cells, SlotOf(g.bounds, cur), SlotOf(g.bounds, dest)), g.objects)
  {
    match Index(g.bounds, cur)
    case Err(e) => Err(e)
    case Ok(from) =>
      match Index(g.bounds, dest)
      case Err(e) => Err(e)
      case Ok(to) => Ok(Grid(g.bounds, Shift(g.cells, from, to), g.objects))
  }

  /** With no occupancy check, moving onto an occupied cell drops its
      occupant from the array, and moving an object onto its own cell
      drops the object. */
  lemma MoveAsWrittenDrops(g: Grid, cur: Cell, dest: Cell)
    requires Consistent(g) && MoveObjectAsWritten(g, cur, dest).Ok?
    requires SlotOf(g.bounds, dest) in g.cells
    ensures var dropped := g.cells[SlotOf(g.bounds, dest)];
      forall s :: s in MoveObjectAsWritten(g, cur, dest).value.cells ==>
        MoveObjectAsWritten(g, cur, dest).value.cells[s] != dropped
  {
    var dropped := g.cells[SlotOf(g.bounds, dest)];
    var cells := MoveObjectAsWritten(g, cur, dest).value.cells;
    forall s | s in cells ensures cells[s] != dropped {
      if s != SlotOf(g.bounds, cur) && s != SlotOf(g.bounds, dest) {
        assert g.cells[s] == cells[s];
        assert SlotOf(g.bounds, g.objects[g.cells[s]].pos) == s;
      } else if s == SlotOf(g.bounds, dest) && SlotOf(g.bounds, cur) != s {
        assert cells[s] == g.cells[SlotOf(g.bounds, cur)];
        assert SlotOf(g.bounds, g.objects[g.cells[SlotOf(g.bounds, cur)]].pos) == SlotOf(g.bounds, cur);
      }
    }
  }

  /** What a move reports, with the world after it. */
  datatype Report = Report(grid: Grid, ok: bool)

  /** `DroneWorldObject.move` as written: the world's `move_object` returns
      nothing, so the object never updates its own cell and always reports
      failure, although the array has moved it. */
  function PieceMoveAsWritten(g: Grid, n: nat, d: Cell): (r: Result<Report>)
    requires n < |g.objects|
    ensures r.Ok? <==> InBounds(g.bounds, g.objects[n].pos) && InBounds(g.bounds, Add(g.objects[n].pos, d))
    ensures r.Ok? ==> !r.value.ok && r.value.grid.objects == g.objects
  {
    var p := g.objects[n];
    match MoveObjectAsWritten(g, p.pos, Add(p.pos, d))
    case Err(e) => Err(e)
    case Ok(g2) => Ok(Report(g2, false))
  }

  /** Any real move of an object between cells of a consistent world
      leaves the world inconsistent: the array holds the object at its new
      cell while the object still records the old one, and the move reports
      failure. */
  lemma AsWrittenLosesTrack(g: Grid, n: nat, d: Cell)
    requires Consistent(g) && n < |g.objects| && d != Cell(0, 0, 0)
    requires InBounds(g.bounds, Add(g.objects[n].pos, d))
    ensures PieceMoveAsWritten(g, n, d).Ok?
    ensures !PieceMoveAsWritten(g, n, d).value.ok
    ensures !Consistent(PieceMoveAsWritten(g, n, d).value.grid)
  {
    var g2 := PieceMoveAsWritten(g, n, d).value.grid;
    var from := SlotOf(g.bounds, g.objects[n].pos);
    assert from !in g2.cells;
    assert g2.objects[n] == g.objects[n];
  }

  /** `move_object` doing what the object's `move` expects of it: a move
      onto an occupied cell is refused and reported as such, and a move
      that is made is reported. */
  function MoveObject(g: Grid, cur: Cell, dest: Cell): (r: Result<Report>)
    ensures r.Ok? <==> InBounds(g.bounds, cur) && InBounds(g.bounds, dest)
    ensures r.Err? ==> r.error == BoundsError
    ensures r.Ok? ==> (r.value.ok <==> CanMoveObject(g, cur, dest) == Ok(true))
    ensures r.Ok? && !r.value.ok ==> r.value.grid == g
    ensures r.Ok? && r.value.ok ==> r.value.grid == MoveObjectAsWritten(g, cur, dest).value
  {
    match MoveObjectAsWritten(g, cur, dest)
    case Err(e) => Err(e)
    case Ok(g2) => if SlotOf(g.bounds, dest) in g.cells then Ok(Report(g, false)) else Ok(Report(g2, true))
  }

  /** `DroneWorldObject.move` over the corrected `move_object`, as its
      documentation promises: a target that is occupied or outside the
      world is refused with `False`, and the object takes its new cell
      exactly when the world made the move. Only an object whose own cell
      lies outside the world, which a consistent grid never holds, meets
      the bounds error of the index helpers. */
  function PieceMove(g: Grid, n: nat, d: Cell): (r: Result<Report>)
    requires n < |g.objects|
    ensures r.Ok? <==> InBounds(g.bounds, g.objects[n].pos)
    ensures r.Err? ==> r.error == BoundsError
    ensures InBounds(g.bounds, g.objects[n].pos) && !InBounds(g.bounds, Add(g.objects[n].pos, d)) ==>
      r == Ok(Report(g, false))
    ensures r.Ok? ==> |r.value.grid.objects| == |g.objects| && r.value.grid.bounds == g.bounds
    ensures r.Ok? ==> (r.value.ok <==>
      InBounds(g.bounds, Add(g.objects[n].pos, d)) && SlotOf(g.bounds, Add(g.objects[n].pos, d)) !in g.cells)
    ensures r.Ok? && !r.value.ok ==> r.value.grid == g
    ensures r.Ok? ==> (r.value.grid.objects[n] ==
      if r.value.ok then Piece(g.objects[n].id, Add(g.objects[n].pos, d)) else g.objects[n])
    ensures r.Ok? ==> forall m :: 0 <= m < |g.objects| && m != n ==> r.value.grid.objects[m] == g.objects[m]
  {
    var p := g.objects[n];
    var dest := Add(p.pos, d);
    if InBounds(g.bounds, p.pos) && !InBounds(g.bounds, dest) then Ok(Report(g, false))
    else
      match MoveObject(g, p.pos, dest)
      case Err(e) => Err(e)
      case Ok(m) =>
        if m.ok then Ok(Report(Grid(m.grid.bounds, m.grid.cells, g.objects[n := Piece(p.id, dest)]), true))
        else Ok(m)
  }

  /** The corrected move keeps the array and the objects' records in
      agreement. */
  lemma PieceMoveKeeps(g: Grid, n: nat, d: Cell)
    requires Consistent(g) && n < |g.objects| && PieceMove(g, n, d).Ok?
    ensures Consistent(PieceMove(g, n, d).value.grid)
  {
    var r := PieceMove(g, n, d).value;
    if r.ok {
      var g2 := r.grid;
      var from := SlotOf(g.bounds, g.objects[n].pos);
      var to := SlotOf(g.bounds, Add(g.objects[n].pos, d));
      assert from in g.cells && g.cells[from] == n;
      assert to != from;
      forall m | 0 <= m < |g2.objects|
        ensures SlotOf(g2.bounds, g2.objects[m].pos) in g2.cells && g2.cells[SlotOf(g2.bounds, g2.objects[m].pos)] == m
      {
        if m != n {
          assert g2.objects[m] == g.objects[m];
          assert SlotOf(g.bounds, g.objects[m].pos) != from;
          assert SlotOf(g.bounds, g.objects[m].pos) != to;
        }
      }
      forall s | s in g2.cells
        ensures g2.cells[s] < |g2.objects| && SlotOf(g2.bounds, g2.objects[g2.cells[s]].pos) == s
      {
        if s != to {
          assert g.cells[s] != n;
        }
      }
    }
  }

  /** `Block.drop` over the corrected move: the block moves one cell down
      for as long as the move is made. It keeps its column and id, never
      rises, and comes to rest where the cell below is outside the world
      or occupied; no other object's record changes. A block already on
      the floor stays where it is. */
  function PieceDrop(g: Grid, n: nat): (r: Result<Grid>)
    requires n < |g.objects|
    decreases g.objects[n].pos.y - g.bounds.yMin
    ensures r.Ok? <==> InBounds(g.bounds, g.objects[n].pos)
    ensures r.Err? ==> r.error == BoundsError
    ensures r.Ok? ==> r.value.bounds == g.bounds && |r.value.objects| == |g.objects|
    ensures r.Ok? ==> forall m :: 0 <= m < |g.objects| && m != n ==> r.value.objects[m] == g.objects[m]
    ensures r.Ok? ==> var q := r.value.objects[n].pos;
      r.value.objects[n].id == g.objects[n].id
      && q.x == g.objects[n].pos.x && q.z == g.objects[n].pos.z && q.y <= g.objects[n].pos.y
      && InBounds(g.bounds, q)
      && (!InBounds(g.bounds, Add(q, Cell(0, -1, 0))) || SlotOf(g.bounds, Add(q, Cell(0, -1, 0))) in r.value.cells)
    ensures InBounds(g.bounds, g.objects[n].pos) && g.objects[n].pos.y == g.bounds.yMin ==> r == Ok(g)
    ensures Consistent(g) ==> r.Ok? && Consistent(r.value)
  {
    match PieceMove(g, n, Cell(0, -1, 0))
    case Err(e) => Err(e)
    case Ok(m) =>
      if m.ok then
        assert Consistent(g) ==> Consistent(m.grid) by {
          if Consistent(g) {
            PieceMoveKeeps(g, n, Cell(0, -1, 0));
          }
        }
        PieceDrop(m.grid, n)
      else Ok(g)
  }

  /** `state`: one `(id, x, y, z)` entry per object, in the order they
      were added. */
  function State(g: Grid): (r: seq<Entry<int>>)
    ensures |r| == |g.objects|
    ensures forall n :: 0 <= n < |r| ==> r[n].id == g.objects[n].id && r[n].pos == g.objects[n].pos
  {
    seq(|g.objects|, n requires 0 <= n < |g.objects| => Entry(g.objects[n].id, g.objects[n].pos))
  }

  /** Registering an object adds its entry at the end of the state; a
      corrected move changes the moving object's entry alone, and only when
      the move is made. */
  lemma StateAfter(g: Grid, c: Cell, id: int, n: nat, d: Cell)
    requires n < |g.objects|
    ensures NewPiece(g, c, id).Ok? ==> State(NewPiece(g, c, id).value) == State(g) + [Entry(id, c)]
    ensures PieceMove(g, n, d).Ok? ==>
      State(PieceMove(g, n, d).value.grid) ==
        State(g)[n := Entry(g.objects[n].id, if PieceMove(g, n, d).value.ok then Add(g.objects[n].pos, d) else g.objects[n].pos)]
  {
  }
}
