/** The newer `PopulationAlgorithm`: the shared base of the high-level
    planners. It turns the world's state into colour pools, completes a goal
    so that no goal block floats, draws random assignments of blocks to goal
    slots, scores them and turns the best one into attach/release
    objectives. Entries are `(label, x, y, z)`; a goal label containing "?"
    marks a filler slot that any block may take. */
module PopulationSearch {
  import opened Common
  import opened Labels
  import opened WorldModel
  import opened NewerWorld
  import opened Oracle

  type Item = Entry<Label>

  /** The label of a filler slot. */
  const Filler: Label := "?"

  predicate NotBlack(e: Item) {
    !ContainsIgnoreCase(e.id, "black")
  }

  /** `filter_out_drone`: the drone's label is "black"; every entry whose
      label mentions it, in any case, is dropped and the rest keep their
      order. */
  function FilterOutDrone(objects: seq<Item>): (r: seq<Item>)
    ensures forall i :: 0 <= i < |r| ==> r[i] in objects && !ContainsIgnoreCase(r[i].id, "black")
    ensures forall i :: 0 <= i < |objects| && !ContainsIgnoreCase(objects[i].id, "black") ==> objects[i] in r
    ensures Subseq(r, objects)
  {
    Filter(objects, NotBlack)
  }

  /** The state of a world with a drone never keeps the drone's own entry. */
  lemma FilterOutDroneState(w: World<Label>)
    requires w.drone.Some? && w.drone.value.body.id == DroneLabel
    ensures State(w).Ok?
    ensures Entry(DroneLabel, w.drone.value.body.pos) !in FilterOutDrone(State(w).value)
  {
    assert Lower(DroneLabel) == DroneLabel;
    assert Contains(DroneLabel, "black");
  }

  function YKey(e: Item): real {
    e.pos.y as real
  }

  /** `sort_goal_y_ascending` as written: the sorted copy is discarded, so
      the entries come back in their original order. */
  function SortAscendingAsWritten(goal: seq<Item>): seq<Item> {
    goal
  }

  /** `sort_goal_y_descending` as written: the reverse of the above. */
  function SortDescendingAsWritten(goal: seq<Item>): (r: seq<Item>)
    ensures |r| == |goal|
    ensures forall i :: 0 <= i < |goal| ==> r[i] == goal[|goal| - 1 - i]
  {
    Reverse(SortAscendingAsWritten(goal))
  }

  function Reverse<T>(s: seq<T>): (r: seq<T>)
    ensures |r| == |s| && multiset(r) == multiset(s)
    ensures forall i :: 0 <= i < |s| ==> r[i] == s[|s| - 1 - i]
    decreases |s|
  {
    if |s| == 0 then []
    else
      assert s == s[..|s| - 1] + [s[|s| - 1]];
      [s[|s| - 1]] + Reverse(s[..|s| - 1])
  }

  /** Two goal entries out of height order stay out of order. */
  lemma SortAsWrittenUnsorted()
    ensures !SortedBy(SortAscendingAsWritten([Entry("red", Cell(0, 1, 0)), Entry("red", Cell(0, 0, 0))]), YKey)
  {
    var g := [Entry("red", Cell(0, 1, 0)), Entry("red", Cell(0, 0, 0))];
    assert YKey(g[0]) > YKey(g[1]);
  }

  /** `sort_goal_y_ascending` as intended: a stable sort on the height. */
  function SortAscending(goal: seq<Item>): (r: seq<Item>)
    ensures SortedBy(r, YKey) && multiset(r) == multiset(goal) && |r| == |goal|
  {
    SortBy(goal, YKey)
  }

  /** `sort_goal_y_descending` as intended. */
  function SortDescending(goal: seq<Item>): (r: seq<Item>)
    ensures forall i, j :: 0 <= i < j < |r| ==> YKey(r[i]) >= YKey(r[j])
    ensures multiset(r) == multiset(goal) && |r| == |goal|
  {
    ReverseDescends(SortAscending(goal));
    Reverse(SortAscending(goal))
  }

  /** Reversing a height-ascending sequence makes it height-descending. */
  lemma ReverseDescends(s: seq<Item>)
    requires SortedBy(s, YKey)
    ensures forall i, j :: 0 <= i < j < |s| ==> YKey(Reverse(s)[i]) >= YKey(Reverse(s)[j])
  {
    var r := Reverse(s);
    forall i, j | 0 <= i < j < |r| ensures YKey(r[i]) >= YKey(r[j]) {
      assert r[i] == s[|s| - 1 - i] && r[j] == s[|s| - 1 - j];
    }
  }

  /** The coordinates of a goal, in order. */
  function Coords(goal: seq<Item>): (r: seq<Cell>)
    ensures |r| == |goal| && forall i :: 0 <= i < |goal| ==> r[i] == goal[i].pos
  {
    seq(|goal|, i requires 0 <= i < |goal| => goal[i].pos)
  }

  /** The inner `while y > 0` loop of `fill_goal` for one column: the cells
      `(x, k, z)` for `k` from `y - 1` down to 0 that are not yet listed. */
  function FillColumn(x: int, z: int, y: int, have: seq<Cell>): (added: seq<Cell>)
    ensures forall k :: 0 <= k < y ==> Cell(x, k, z) in have + added
    ensures forall c :: c in added ==> c !in have && c.x == x && c.z == z && 0 <= c.y < y
    ensures NoDup(added)
    decreases y
  {
    if y <= 0 then []
    else
      var c := Cell(x, y - 1, z);
      var a := if c in have then [] else [c];
      var rest := FillColumn(x, z, y - 1, have + a);
      assert have + a + rest == have + (a + rest);
      NoDupConcat(a, rest);
      a + rest
  }

  /** A cell lies in the column under one of the listed coordinates, at or
      above the ground. */
  predicate Underneath(todo: seq<Cell>, c: Cell) {
    exists i :: 0 <= i < |todo| && c.x == todo[i].x && c.z == todo[i].z && 0 <= c.y < todo[i].y
  }

  /** The outer loop of `fill_goal`: every column in turn, each seeing the
      cells the earlier ones added. */
  function FillAll(todo: seq<Cell>, have: seq<Cell>): (added: seq<Cell>)
    ensures forall i, k :: 0 <= i < |todo| && 0 <= k < todo[i].y ==> Cell(todo[i].x, k, todo[i].z) in have + added
    ensures forall c :: c in added ==> c !in have && Underneath(todo, c)
    ensures NoDup(added)
    decreases |todo|
  {
    if |todo| == 0 then []
    else
      var a := FillColumn(todo[0].x, todo[0].z, todo[0].y, have);
      var rest := FillAll(todo[1..], have + a);
      assert have + a + rest == have + (a + rest);
      FillAllUnder(todo, a, rest);
      FillAllCovers(todo, have, a, rest);
      NoDupConcat(a, rest);
      a + rest
  }

  /** The cells of the first column and of the later ones all lie under
      some column. */
  lemma FillAllUnder(todo: seq<Cell>, a: seq<Cell>, rest: seq<Cell>)
    requires |todo| > 0
    requires forall c :: c in a ==> c.x == todo[0].x && c.z == todo[0].z && 0 <= c.y < todo[0].y
    requires forall c :: c in rest ==> Underneath(todo[1..], c)
    ensures forall c :: c in a + rest ==> Underneath(todo, c)
  {
    forall c | c in a + rest ensures Underneath(todo, c) {
      if c in a {
        assert c.x == todo[0].x && c.z == todo[0].z && 0 <= c.y < todo[0].y;
      } else {
        var i :| 0 <= i < |todo[1..]| && c.x == todo[1..][i].x && c.z == todo[1..][i].z && 0 <= c.y < todo[1..][i].y;
        assert todo[1..][i] == todo[i + 1];
      }
    }
  }

  /** Filling the first column and then the rest covers every column. */
  lemma FillAllCovers(todo: seq<Cell>, have: seq<Cell>, a: seq<Cell>, rest: seq<Cell>)
    requires |todo| > 0
    requires forall k :: 0 <= k < todo[0].y ==> Cell(todo[0].x, k, todo[0].z) in have + a
    requires forall i, k :: 0 <= i < |todo[1..]| && 0 <= k < todo[1..][i].y ==> Cell(todo[1..][i].x, k, todo[1..][i].z) in have + a + rest
    ensures forall i, k :: 0 <= i < |todo| && 0 <= k < todo[i].y ==> Cell(todo[i].x, k, todo[i].z) in have + (a + rest)
  {
    assert have + a + rest == have + (a + rest);
    forall i, k | 0 <= i < |todo| && 0 <= k < todo[i].y
      ensures Cell(todo[i].x, k, todo[i].z) in have + (a + rest)
    {
      if i > 0 {
        assert todo[i] == todo[1..][i - 1];
      } else {
        assert Cell(todo[0].x, k, todo[0].z) in have + a;
      }
    }
  }

  /** One filler entry per added cell. */
  function Fillers(cells: seq<Cell>): (r: seq<Item>)
    ensures |r| == |cells| && forall i :: 0 <= i < |cells| ==> r[i] == Entry(Filler, cells[i])
  {
    seq(|cells|, i requires 0 <= i < |cells| => Entry(Filler, cells[i]))
  }

  /** Coordinates distribute over concatenation. */
  lemma CoordsAppend(a: seq<Item>, b: seq<Item>)
    ensures Coords(a + b) == Coords(a) + Coords(b)
  {
  }

  /** Every entry of `a` is in `b`, so every coordinate of `a` is one of `b`. */
  lemma CoordsMember(a: seq<Item>, b: seq<Item>)
    requires forall e :: e in a ==> e in b
    ensures forall c :: c in Coords(a) ==> c in Coords(b)
  {
    forall c | c in Coords(a) ensures c in Coords(b) {
      var i :| 0 <= i < |a| && Coords(a)[i] == c;
      assert a[i] in b;
      var j :| 0 <= j < |b| && b[j] == a[i];
      assert Coords(b)[j] == c;
    }
  }

  /** Every cell under a goal entry, down to the ground, is the position of
      some entry of `r`. */
  predicate Grounded(goal: seq<Item>, r: seq<Item>) {
    forall i, k :: 0 <= i < |goal| && 0 <= k < goal[i].pos.y ==> Cell(goal[i].pos.x, k, goal[i].pos.z) in Coords(r)
  }

  /** Groundedness survives fewer goal entries and more listed cells. */
  lemma GroundedMono(goal: seq<Item>, g2: seq<Item>, r: seq<Item>, r2: seq<Item>)
    requires Grounded(g2, r)
    requires forall e :: e in goal ==> e in g2
    requires forall c :: c in Coords(r) ==> c in Coords(r2)
    ensures Grounded(goal, r2)
  {
    forall i, k | 0 <= i < |goal| && 0 <= k < goal[i].pos.y
      ensures Cell(goal[i].pos.x, k, goal[i].pos.z) in Coords(r2)
    {
      assert goal[i] in g2;
      var j :| 0 <= j < |g2| && g2[j] == goal[i];
      assert Cell(g2[j].pos.x, k, g2[j].pos.z) in Coords(r);
    }
  }

  /** The completion of a goal: the filler entries `fill_goal` appends after
      the goal's own entries when it visits them in the given order. */
  function Completion(goal: seq<Item>): (r: seq<Item>)
    ensures |r| >= |goal| && r[..|goal|] == goal
    ensures forall i :: |goal| <= i < |r| ==> r[i].id == Filler
    ensures Grounded(goal, r)
    ensures NoDup(Coords(r)[|goal|..])
    ensures forall i :: |goal| <= i < |r| ==> r[i].pos !in Coords(goal) && Underneath(Coords(goal), r[i].pos)
  {
    var xyz := Coords(goal);
    var added := FillAll(xyz, xyz);
    var f := Fillers(added);
    var r := goal + f;
    assert Coords(f) == added;
    CoordsAppend(goal, f);
    assert Coords(r)[|goal|..] == added;
    assert forall i :: |goal| <= i < |r| ==> r[i] == f[i - |goal|];
    r
  }

  /** `fill_goal` as written: since the sorts change nothing, the goal's own
      entries come first in their given order, followed by the fillers. */
  function FillGoalAsWritten(goal: seq<Item>): (r: seq<Item>)
    ensures |r| >= |goal| && r[..|goal|] == goal
    ensures Grounded(goal, r)
  {
    SortAscendingAsWritten(Completion(SortAscendingAsWritten(goal)))
  }

  /** A single raised goal block is followed by the filler under it, so the
      completed goal is not in height order. */
  lemma FillGoalAsWrittenUnsorted()
    ensures var r := FillGoalAsWritten([Entry("red", Cell(0, 1, 0))]);
      |r| == 2 && r[1] == Entry(Filler, Cell(0, 0, 0)) && !SortedBy(r, YKey)
  {
    var g := [Entry("red", Cell(0, 1, 0))];
    var r := FillGoalAsWritten(g);
    assert Cell(0, 0, 0) in Coords(r);
    assert Coords(r)[0] == Cell(0, 1, 0);
    assert |r| == 2 && r[1].pos == Cell(0, 0, 0);
    assert YKey(r[0]) > YKey(r[1]);
  }

  /** Sorting a goal, completing it and sorting the completion keeps every
      goal entry and grounds it. */
  lemma SortedCompletion(goal: seq<Item>)
    ensures var r := SortAscending(Completion(SortAscending(goal)));
      Grounded(goal, r) && forall e :: e in goal ==> e in r
  {
    var s := SortAscending(goal);
    var c := Completion(s);
    var r := SortAscending(c);
    forall e | e in s ensures e in c {
      var j :| 0 <= j < |s| && s[j] == e;
      assert c[..|s|][j] == e;
    }
    assert forall e :: e in goal ==> e in multiset(s);
    assert forall e :: e in c ==> e in multiset(r);
    CoordsMember(c, r);
    GroundedMono(goal, s, c, r);
  }

  /** `fill_goal` as intended: the goal is sorted by height first, completed,
      and the completion sorted again, so blocks are listed bottom-up. */
  function FillGoal(goal: seq<Item>): (r: seq<Item>)
    ensures SortedBy(r, YKey)
    ensures Grounded(goal, r)
    ensures multiset(r) == multiset(Completion(SortAscending(goal)))
    ensures forall e :: e in goal ==> e in r
  {
    SortedCompletion(goal);
    SortAscending(Completion(SortAscending(goal)))
  }

  /** One entry of the `blocks` dictionary: a label and the blocks carrying
      it. Python 2 does not fix the iteration order of a dictionary; the
      model iterates in insertion order. */
  datatype Pool = Pool(colour: Label, items: seq<Item>)

  /** The position of a label among the pools. */
  function Find(ps: seq<Pool>, c: Label): (r: Option<nat>)
    ensures r.Some? ==> r.value < |ps| && ps[r.value].colour == c
    ensures r.None? <==> forall k :: 0 <= k < |ps| ==> ps[k].colour != c
    decreases |ps|
  {
    if |ps| == 0 then None
    else if ps[|ps| - 1].colour == c then Some(|ps| - 1)
    else Find(ps[..|ps| - 1], c)
  }

  /** Each label has one pool, and every block sits in the pool of its own
      label, at most once. Blocks of different pools are then different. */
  predicate PoolsOk(ps: seq<Pool>) {
    && KeysDistinct(ps)
    && (forall k, e :: 0 <= k < |ps| && e in ps[k].items ==> e.id == ps[k].colour)
    && (forall k :: 0 <= k < |ps| ==> NoDup(ps[k].items))
  }

  predicate KeysDistinct(ps: seq<Pool>) {
    forall i, j :: 0 <= i < j < |ps| ==> ps[i].colour != ps[j].colour
  }

  /** With distinct labels, a label's pool is the one carrying it. */
  lemma FindUnique(ps: seq<Pool>, k: nat)
    requires KeysDistinct(ps) && k < |ps|
    ensures Find(ps, ps[k].colour) == Some(k)
  {
  }

  /** The block is in some pool. */
  predicate InPools(ps: seq<Pool>, e: Item) {
    exists k :: 0 <= k < |ps| && e in ps[k].items
  }

  /** Under `PoolsOk`, a block can only be in the pool of its own label. */
  lemma InPoolsFind(ps: seq<Pool>, e: Item)
    requires PoolsOk(ps)
    ensures InPools(ps, e) <==> Find(ps, e.id).Some? && e in ps[Find(ps, e.id).value].items
  {
  }

  /** `self.blocks[color].append(block)`, creating the entry on first use. */
  function Push(ps: seq<Pool>, c: Label, e: Item): (r: seq<Pool>)
    ensures Find(ps, c).None? ==> r == ps + [Pool(c, [e])]
    ensures Find(ps, c).Some? ==> |r| == |ps| && r[Find(ps, c).value].items == ps[Find(ps, c).value].items + [e]
    ensures forall k :: 0 <= k < |ps| ==> r[k].colour == ps[k].colour
    ensures forall k :: 0 <= k < |ps| && ps[k].colour != c ==> r[k] == ps[k]
  {
    match Find(ps, c)
    case None => ps + [Pool(c, [e])]
    case Some(k) => ps[k := Pool(c, ps[k].items + [e])]
  }

  /** Pushing adds exactly the pushed block, and keeps the pools well formed
      when the block carries the label and is new. */
  lemma PushMembers(ps: seq<Pool>, c: Label, e: Item)
    ensures forall x :: InPools(Push(ps, c, e), x) <==> InPools(ps, x) || x == e
    ensures PoolsOk(ps) && e.id == c && !InPools(ps, e) ==> PoolsOk(Push(ps, c, e))
  {
    var r := Push(ps, c, e);
    var k := if Find(ps, c).Some? then Find(ps, c).value else |ps|;
    assert e in r[k].items;
    forall x | InPools(r, x) ensures InPools(ps, x) || x == e {
      var m :| 0 <= m < |r| && x in r[m].items;
      if m != k { assert r[m] == ps[m]; }
    }
    forall x | InPools(ps, x) ensures InPools(r, x) {
      var m :| 0 <= m < |ps| && x in ps[m].items;
      assert x in r[m].items;
    }
    if PoolsOk(ps) && e.id == c && !InPools(ps, e) && k < |ps| {
      NoDupAppend(ps[k].items, e);
    }
  }

  /** The blocks carrying a label. */
  function OfColour(c: Label): Item -> bool {
    (e: Item) => e.id == c
  }

  /** `_organize_blocks`: one pool per label, created when the label is first
      met, holding that label's blocks in input order. */
  function Organize(raw: seq<Item>): (r: seq<Pool>)
    ensures KeysDistinct(r)
    ensures forall k :: 0 <= k < |r| ==> r[k].items != []
    decreases |raw|
  {
    if |raw| == 0 then []
    else Push(Organize(raw[..|raw| - 1]), raw[|raw| - 1].id, raw[|raw| - 1])
  }

  /** Every label of `raw` has a pool, and each pool holds exactly the
      blocks of `raw` carrying its label, in order. */
  predicate Organized(ps: seq<Pool>, raw: seq<Item>) {
    Filed(ps, raw) && Covered(ps, raw)
  }

  /** Each pool holds exactly the blocks of `raw` carrying its label. */
  predicate Filed(ps: seq<Pool>, raw: seq<Item>) {
    forall k :: 0 <= k < |ps| ==> ps[k].items == Filter(raw, OfColour(ps[k].colour))
  }

  /** Every label of `raw` has a pool. */
  predicate Covered(ps: seq<Pool>, raw: seq<Item>) {
    forall i :: 0 <= i < |raw| ==> Find(ps, raw[i].id).Some?
  }

  /** No block of `init` carries a label that has no pool. */
  lemma NoPoolNoBlocks(ps: seq<Pool>, init: seq<Item>, c: Label)
    requires Covered(ps, init) && Find(ps, c).None?
    ensures Filter(init, OfColour(c)) == []
  {
    assert forall x :: x in init ==> !OfColour(c)(x) by {
      forall x | x in init ensures !OfColour(c)(x) {
        var i :| 0 <= i < |init| && init[i] == x;
        assert Find(ps, init[i].id).Some?;
      }
    }
  }

  /** Filing one block: the pool at `k` is the filter of the longer input. */
  lemma FiledStepAt(ps: seq<Pool>, init: seq<Item>, e: Item, k: nat)
    requires KeysDistinct(ps) && Filed(ps, init) && Covered(ps, init) && k < |Push(ps, e.id, e)|
    ensures Push(ps, e.id, e)[k].items == Filter(init + [e], OfColour(Push(ps, e.id, e)[k].colour))
  {
    var r := Push(ps, e.id, e);
    var c := r[k].colour;
    FilterSnoc(init, e, OfColour(c));
    if k == |ps| {
      assert Find(ps, e.id).None? && c == e.id;
      NoPoolNoBlocks(ps, init, e.id);
    } else if c == e.id {
      FindUnique(ps, k);
    } else {
      assert r[k] == ps[k];
    }
  }

  /** Filing one block keeps every pool the filter of its label. */
  lemma FiledStep(ps: seq<Pool>, init: seq<Item>, e: Item)
    requires KeysDistinct(ps) && Filed(ps, init) && Covered(ps, init)
    ensures Filed(Push(ps, e.id, e), init + [e])
  {
    var r := Push(ps, e.id, e);
    forall k | 0 <= k < |r| ensures r[k].items == Filter(init + [e], OfColour(r[k].colour)) {
      FiledStepAt(ps, init, e, k);
    }
  }

  /** Filing one block gives its label a pool and keeps the others. */
  lemma CoveredStep(ps: seq<Pool>, init: seq<Item>, e: Item)
    requires Covered(ps, init)
    ensures Covered(Push(ps, e.id, e), init + [e])
  {
    var r := Push(ps, e.id, e);
    var raw := init + [e];
    forall i | 0 <= i < |raw| ensures Find(r, raw[i].id).Some? {
      if i < |init| {
        var k := Find(ps, init[i].id).value;
        assert r[k].colour == raw[i].id;
      } else {
        var k := if Find(ps, e.id).Some? then Find(ps, e.id).value else |ps|;
        assert r[k].colour == e.id;
      }
    }
  }

  /** `_organize_blocks` organises its whole input. */
  lemma {:induction false} OrganizeContents(raw: seq<Item>)
    ensures Organized(Organize(raw), raw)
    decreases |raw|
  {
    if |raw| > 0 {
      var init := raw[..|raw| - 1];
      var e := raw[|raw| - 1];
      assert raw == init + [e];
      OrganizeContents(init);
      FiledStep(Organize(init), init, e);
      CoveredStep(Organize(init), init, e);
    }
  }

  /** Organised pools are well formed when the blocks are pairwise
      different. */
  lemma OrganizeOk(raw: seq<Item>)
    requires NoDup(raw)
    ensures PoolsOk(Organize(raw))
  {
    var r := Organize(raw);
    OrganizeContents(raw);
    forall k | 0 <= k < |r| ensures NoDup(r[k].items) {
      FilterNoDup(raw, OfColour(r[k].colour));
    }
    forall k, e | 0 <= k < |r| && e in r[k].items ensures e.id == r[k].colour {
      assert OfColour(r[k].colour)(e);
    }
  }

  /** The pools hold exactly the input blocks. */
  lemma OrganizeMembers(raw: seq<Item>)
    ensures forall e :: InPools(Organize(raw), e) <==> e in raw
  {
    var r := Organize(raw);
    OrganizeContents(raw);
    forall e | e in raw ensures InPools(r, e) {
      var i :| 0 <= i < |raw| && raw[i] == e;
      var k := Find(r, e.id).value;
      assert OfColour(r[k].colour)(e);
      assert e in r[k].items;
    }
  }

  /** The block `pop()` takes from pool `k`: its last one. */
  function Last(ps: seq<Pool>, k: nat): Item
    requires k < |ps| && ps[k].items != []
  {
    ps[k].items[|ps[k].items| - 1]
  }

  /** `pop()` on pool `k`. */
  function Pop(ps: seq<Pool>, k: nat): (r: seq<Pool>)
    requires k < |ps| && ps[k].items != []
    ensures |r| == |ps| && forall m :: 0 <= m < |ps| ==> r[m].colour == ps[m].colour
    ensures forall m :: 0 <= m < |ps| && m != k ==> r[m] == ps[m]
    ensures r[k].items + [Last(ps, k)] == ps[k].items
  {
    ps[k := ps[k].(items := ps[k].items[..|ps[k].items| - 1])]
  }

  /** Popping removes exactly the popped block. */
  lemma PopMembers(ps: seq<Pool>, k: nat)
    requires PoolsOk(ps) && k < |ps| && ps[k].items != []
    ensures PoolsOk(Pop(ps, k))
    ensures forall x :: InPools(Pop(ps, k), x) <==> InPools(ps, x) && x != Last(ps, k)
  {
    var r := Pop(ps, k);
    var x0 := Last(ps, k);
    var items := ps[k].items;
    assert items == r[k].items + [x0];
    NoDupCons(items);
    assert x0 !in r[k].items by {
      assert items[|items| - 1] == x0;
      forall i | 0 <= i < |r[k].items| ensures r[k].items[i] != x0 {
        assert r[k].items[i] == items[i];
      }
    }
    assert NoDup(r[k].items) by {
      forall i, j | 0 <= i < j < |r[k].items| ensures r[k].items[i] != r[k].items[j] {
        assert r[k].items[i] == items[i] && r[k].items[j] == items[j];
      }
    }
    forall x | InPools(r, x) ensures InPools(ps, x) && x != x0 {
      var m :| 0 <= m < |r| && x in r[m].items;
      if m != k {
        assert x in ps[m].items;
        assert x.id == ps[m].colour && x0.id == ps[k].colour;
      } else {
        assert x in items;
      }
    }
    forall x | InPools(ps, x) && x != x0 ensures InPools(r, x) {
      var m :| 0 <= m < |ps| && x in ps[m].items;
      if m == k {
        assert x in r[k].items;
      } else {
        assert x in r[m].items;
      }
    }
  }

  /** How many blocks the pool of a label holds; none when it has no pool. */
  function Size(ps: seq<Pool>, c: Label): nat {
    match Find(ps, c)
    case None => 0
    case Some(k) => |ps[k].items|
  }

  /** The blocks of all pools together. */
  function Total(ps: seq<Pool>): nat
    decreases |ps|
  {
    if |ps| == 0 then 0 else Total(ps[..|ps| - 1]) + |ps[|ps| - 1].items|
  }

  /** Replacing one pool changes the total by the difference in sizes. */
  lemma {:induction false} TotalUpdate(ps: seq<Pool>, k: nat, p: Pool)
    requires k < |ps|
    ensures Total(ps[k := p]) == Total(ps) - |ps[k].items| + |p.items|
    decreases |ps|
  {
    var n := |ps| - 1;
    if k < n {
      TotalUpdate(ps[..n], k, p);
      assert ps[k := p][..n] == ps[..n][k := p];
    } else {
      assert ps[k := p][..n] == ps[..n];
    }
  }

  /** Popping takes one block off the total and off its label's size, and
      leaves the other labels' sizes alone. */
  lemma PopSizes(ps: seq<Pool>, k: nat)
    requires KeysDistinct(ps) && k < |ps| && ps[k].items != []
    ensures Total(Pop(ps, k)) == Total(ps) - 1
    ensures Size(Pop(ps, k), ps[k].colour) == Size(ps, ps[k].colour) - 1
    ensures forall d :: d != ps[k].colour ==> Size(Pop(ps, k), d) == Size(ps, d)
    ensures KeysDistinct(Pop(ps, k))
  {
    TotalUpdate(ps, k, ps[k].(items := ps[k].items[..|ps[k].items| - 1]));
    FindUnique(ps, k);
    FindUnique(Pop(ps, k), k);
    forall d | d != ps[k].colour ensures Size(Pop(ps, k), d) == Size(ps, d) {
      FindSameKeys(ps, Pop(ps, k), d);
    }
  }

  /** `Find` looks at labels only. */
  lemma {:induction false} FindSameKeys(ps: seq<Pool>, qs: seq<Pool>, c: Label)
    requires |ps| == |qs| && forall m :: 0 <= m < |ps| ==> ps[m].colour == qs[m].colour
    ensures Find(ps, c) == Find(qs, c)
    decreases |ps|
  {
    if |ps| > 0 {
      FindSameKeys(ps[..|ps| - 1], qs[..|qs| - 1], c);
    }
  }

  /** Pushing adds one block to its label's size and leaves the others. */
  lemma PushSizes(ps: seq<Pool>, c: Label, e: Item)
    requires KeysDistinct(ps)
    ensures KeysDistinct(Push(ps, c, e))
    ensures Size(Push(ps, c, e), c) == Size(ps, c) + 1
    ensures forall d :: d != c ==> Size(Push(ps, c, e), d) == Size(ps, d)
  {
    var r := Push(ps, c, e);
    if Find(ps, c).None? {
      FindUnique(r, |ps|);
      forall d | d != c ensures Size(r, d) == Size(ps, d) {
        assert r[..|r| - 1] == ps;
      }
    } else {
      var k := Find(ps, c).value;
      FindUnique(r, k);
      forall d | d != c ensures Size(r, d) == Size(ps, d) {
        FindSameKeys(ps, r, d);
      }
    }
  }

  /** How many non-filler goal entries ask for label `c`. */
  function Demand(goal: seq<Item>, c: Label): nat
    decreases |goal|
  {
    if |goal| == 0 then 0
    else (if !IsFiller(goal[0].id) && goal[0].id == c then 1 else 0) + Demand(goal[1..], c)
  }

  /** The pools can serve the goal: every label asked for has a pool holding
      at least as many blocks as it is asked for, and there are at least as
      many blocks in all as there are goal slots. */
  predicate Feasible(ps: seq<Pool>, goal: seq<Item>) {
    Enough(ps, goal) && Total(ps) >= |goal|
  }

  /** Every label asked for has a pool holding at least as many blocks as
      it is asked for. */
  predicate Enough(ps: seq<Pool>, goal: seq<Item>) {
    forall i :: 0 <= i < |goal| && !IsFiller(goal[i].id) ==>
      Find(ps, goal[i].id).Some? && Demand(goal, goal[i].id) <= Size(ps, goal[i].id)
  }

  /** How many goal entries are fillers. */
  function FillerCount(goal: seq<Item>): (r: nat)
    ensures r <= |goal|
    decreases |goal|
  {
    if |goal| == 0 then 0 else (if IsFiller(goal[0].id) then 1 else 0) + FillerCount(goal[1..])
  }

  /** The working pools and the blocks set aside per label. */
  datatype Reserved = Reserved(blocks: seq<Pool>, prio: seq<Pool>)

  /** The blocks and set-aside blocks are well formed and disjoint. */
  ghost predicate Split(rv: Reserved) {
    PoolsOk(rv.blocks) && PoolsOk(rv.prio) && forall x :: !(InPools(rv.blocks, x) && InPools(rv.prio, x))
  }

  /** The first loop of `_generate_random_solution`: for every non-filler
      goal entry, pop a block of its label from the working copy and set it
      aside. A label without a pool is a KeyError; an exhausted pool a
      RuntimeError. */
  function Reserve(goal: seq<Item>, rv: Reserved): (r: Result<Reserved>)
    ensures r.Err? ==> r.error == KeyError || r.error == RuntimeError
    ensures r.Ok? ==> (|r.value.blocks| == |rv.blocks|
      && forall m :: 0 <= m < |rv.blocks| ==> r.value.blocks[m].colour == rv.blocks[m].colour)
    decreases |goal|
  {
    if |goal| == 0 then Ok(rv)
    else if IsFiller(goal[0].id) then Reserve(goal[1..], rv)
    else match Find(rv.blocks, goal[0].id)
      case None => Err(KeyError)
      case Some(k) =>
        if |rv.blocks[k].items| == 0 then Err(RuntimeError)
        else Reserve(goal[1..], Reserved(Pop(rv.blocks, k), Push(rv.prio, goal[0].id, Last(rv.blocks, k))))
  }

  /** A label that no non-filler goal entry asks for has no demand; one
      that some entry asks for has. */
  lemma {:induction false} DemandZero(goal: seq<Item>, c: Label)
    ensures Demand(goal, c) == 0 <==> forall i :: 0 <= i < |goal| && !IsFiller(goal[i].id) ==> goal[i].id != c
    decreases |goal|
  {
    if |goal| > 0 {
      DemandZero(goal[1..], c);
      assert forall i :: 1 <= i < |goal| ==> goal[i] == goal[1..][i - 1];
    }
  }

  /** Setting aside the blocks of the first goal entry: the pools are enough
      for the goal exactly when the remaining pools are enough for the rest. */
  lemma EnoughStep(ps: seq<Pool>, goal: seq<Item>, k: nat)
    requires KeysDistinct(ps) && |goal| > 0 && !IsFiller(goal[0].id)
    requires k < |ps| && ps[k].colour == goal[0].id && ps[k].items != []
    ensures Enough(ps, goal) <==> Enough(Pop(ps, k), goal[1..])
  {
    var c := goal[0].id;
    var q := Pop(ps, k);
    PopSizes(ps, k);
    FindUnique(ps, k);
    FindSameKeys(ps, q, c);
    forall d ensures Find(q, d) == Find(ps, d) {
      FindSameKeys(ps, q, d);
    }
    assert forall i :: 1 <= i < |goal| ==> goal[i] == goal[1..][i - 1];
    if Enough(q, goal[1..]) {
      forall i | 0 <= i < |goal| && !IsFiller(goal[i].id)
        ensures Find(ps, goal[i].id).Some? && Demand(goal, goal[i].id) <= Size(ps, goal[i].id)
      {
        if goal[i].id == c {
          DemandZero(goal[1..], c);
        }
      }
    }
  }

  /** A filler asks for nothing. */
  lemma FillerStep(ps: seq<Pool>, goal: seq<Item>)
    requires |goal| > 0 && IsFiller(goal[0].id)
    ensures Enough(ps, goal) <==> Enough(ps, goal[1..])
  {
    assert forall i :: 1 <= i < |goal| ==> goal[i] == goal[1..][i - 1];
  }

  /** The first loop succeeds exactly when the pools are enough for the
      goal. */
  lemma {:induction false} ReserveEnough(goal: seq<Item>, rv: Reserved)
    requires KeysDistinct(rv.blocks)
    ensures Reserve(goal, rv).Ok? <==> Enough(rv.blocks, goal)
    decreases |goal|
  {
    if |goal| > 0 {
      var c := goal[0].id;
      if IsFiller(c) {
        FillerStep(rv.blocks, goal);
        ReserveEnough(goal[1..], rv);
      } else if Find(rv.blocks, c).Some? {
        var k := Find(rv.blocks, c).value;
        if |rv.blocks[k].items| == 0 {
          assert Demand(goal, c) >= 1;
        } else {
          EnoughStep(rv.blocks, goal, k);
          PopSizes(rv.blocks, k);
          ReserveEnough(goal[1..], Reserved(Pop(rv.blocks, k), Push(rv.prio, c, Last(rv.blocks, k))));
        }
      }
    }
  }

  /** The first loop only moves blocks: afterwards the two sides are still
      well formed and disjoint, and together hold the same blocks. */
  lemma {:induction false} ReserveSplit(goal: seq<Item>, rv: Reserved)
    requires Split(rv) && Reserve(goal, rv).Ok?
    ensures Split(Reserve(goal, rv).value)
    ensures forall x :: InPools(Reserve(goal, rv).value.blocks, x) || InPools(Reserve(goal, rv).value.prio, x)
                   <==> InPools(rv.blocks, x) || InPools(rv.prio, x)
    decreases |goal|
  {
    if |goal| > 0 {
      var c := goal[0].id;
      if IsFiller(c) {
        ReserveSplit(goal[1..], rv);
      } else {
        var k := Find(rv.blocks, c).value;
        var e := Last(rv.blocks, k);
        assert e in rv.blocks[k].items;
        var next := Reserved(Pop(rv.blocks, k), Push(rv.prio, c, e));
        PopMembers(rv.blocks, k);
        PushMembers(rv.prio, c, e);
        ReserveSplit(goal[1..], next);
      }
    }
  }

  /** After the first loop every label has exactly its demand set aside, and
      the working pools have lost one block per non-filler entry. */
  lemma {:induction false} ReserveSizes(goal: seq<Item>, rv: Reserved)
    requires KeysDistinct(rv.blocks) && KeysDistinct(rv.prio) && Reserve(goal, rv).Ok?
    ensures KeysDistinct(Reserve(goal, rv).value.prio)
    ensures forall d :: Size(Reserve(goal, rv).value.prio, d) == Size(rv.prio, d) + Demand(goal, d)
    ensures Total(Reserve(goal, rv).value.blocks) + |goal| == Total(rv.blocks) + FillerCount(goal)
    decreases |goal|
  {
    if |goal| > 0 {
      var c := goal[0].id;
      if IsFiller(c) {
        ReserveSizes(goal[1..], rv);
      } else {
        var k := Find(rv.blocks, c).value;
        var e := Last(rv.blocks, k);
        var next := Reserved(Pop(rv.blocks, k), Push(rv.prio, c, e));
        PopSizes(rv.blocks, k);
        PushSizes(rv.prio, c, e);
        ReserveSizes(goal[1..], next);
      }
    }
  }

  /** The first loop fails with a KeyError only for a label that has no
      pool. */
  lemma {:induction false} ReserveKeyError(goal: seq<Item>, rv: Reserved)
    requires Reserve(goal, rv) == Err(KeyError)
    ensures exists i :: 0 <= i < |goal| && !IsFiller(goal[i].id) && Find(rv.blocks, goal[i].id).None?
    decreases |goal|
  {
    var c := goal[0].id;
    if IsFiller(c) {
      ReserveKeyError(goal[1..], rv);
      var i :| 0 <= i < |goal[1..]| && !IsFiller(goal[1..][i].id) && Find(rv.blocks, goal[1..][i].id).None?;
      assert goal[i + 1] == goal[1..][i];
    } else if Find(rv.blocks, c).Some? {
      var k := Find(rv.blocks, c).value;
      var next := Reserved(Pop(rv.blocks, k), Push(rv.prio, c, Last(rv.blocks, k)));
      ReserveKeyError(goal[1..], next);
      var i :| 0 <= i < |goal[1..]| && !IsFiller(goal[1..][i].id) && Find(next.blocks, goal[1..][i].id).None?;
      FindSameKeys(rv.blocks, next.blocks, goal[1..][i].id);
      assert goal[i + 1] == goal[1..][i];
    }
  }

  /** `blocks.keys()`. */
  function Keys(ps: seq<Pool>): (r: seq<Label>)
    ensures |r| == |ps| && forall m :: 0 <= m < |ps| ==> r[m] == ps[m].colour
  {
    seq(|ps|, m requires 0 <= m < |ps| => ps[m].colour)
  }

  /** `for color_key in blocks` with its `break`: the first pool that still
      holds a block. */
  function FirstNonEmpty(ps: seq<Pool>): (r: Option<nat>)
    ensures r.Some? ==> r.value < |ps| && ps[r.value].items != []
                        && forall m :: 0 <= m < r.value ==> ps[m].items == []
    ensures r.None? ==> forall m :: 0 <= m < |ps| ==> ps[m].items == []
    decreases |ps|
  {
    if |ps| == 0 then None
    else if ps[0].items != [] then Some(0)
    else match FirstNonEmpty(ps[1..])
      case None => None
      case Some(k) => Some(k + 1)
  }

  /** All pools are empty exactly when they hold no blocks in all. */
  lemma {:induction false} TotalZero(ps: seq<Pool>)
    ensures Total(ps) == 0 <==> forall m :: 0 <= m < |ps| ==> ps[m].items == []
    decreases |ps|
  {
    if |ps| > 0 {
      TotalZero(ps[..|ps| - 1]);
    }
  }

  /** The second loop of `_generate_random_solution`: a filler slot takes
      the last block of the first non-empty working pool (after shuffling a
      list of the labels that is never read), any other slot the last block
      set aside for its label. */
  function Build(goal: seq<Item>, rv: Reserved, o: Draws): (r: Result<Drawn<seq<Item>>>)
    ensures r.Ok? ==> |r.value.value| == |goal|
    decreases |goal|
  {
    if |goal| == 0 then Ok(Drawn([], o))
    else if IsFiller(goal[0].id) then
      match Shuffle(Keys(rv.blocks), o)
      case Err(e) => Err(e)
      case Ok(sh) =>
        match FirstNonEmpty(rv.blocks)
        case None => Err(RuntimeError)
        case Some(k) =>
          match Build(goal[1..], Reserved(Pop(rv.blocks, k), rv.prio), sh.rest)
          case Err(e) => Err(e)
          case Ok(b) => Ok(Drawn([Last(rv.blocks, k)] + b.value, b.rest))
    else
      match Find(rv.prio, goal[0].id)
      case None => Err(KeyError)
      case Some(k) =>
        if |rv.prio[k].items| == 0 then Err(IndexError)
        else match Build(goal[1..], Reserved(rv.blocks, Pop(rv.prio, k)), o)
          case Err(e) => Err(e)
          case Ok(b) => Ok(Drawn([Last(rv.prio, k)] + b.value, b.rest))
  }

  /** A solution for the goal drawn from the pools: one block per slot, the
      slot's label wherever the slot is not a filler, no block twice. */
  predicate Assignment(ps: seq<Pool>, goal: seq<Item>, sol: seq<Item>) {
    && |sol| == |goal|
    && NoDup(sol)
    && (forall i :: 0 <= i < |goal| && !IsFiller(goal[i].id) ==> sol[i].id == goal[i].id)
    && (forall i :: 0 <= i < |sol| ==> InPools(ps, sol[i]))
  }

  /** Both sides together. */
  ghost predicate InEither(rv: Reserved, x: Item) {
    InPools(rv.blocks, x) || InPools(rv.prio, x)
  }

  /** Taking the last block of one side keeps the sides split and removes
      exactly that block. */
  lemma PopSplit(rv: Reserved, k: nat, fromPrio: bool)
    requires Split(rv)
    requires fromPrio ==> k < |rv.prio| && rv.prio[k].items != []
    requires !fromPrio ==> k < |rv.blocks| && rv.blocks[k].items != []
    ensures var e := if fromPrio then Last(rv.prio, k) else Last(rv.blocks, k);
      var next := if fromPrio then Reserved(rv.blocks, Pop(rv.prio, k)) else Reserved(Pop(rv.blocks, k), rv.prio);
      Split(next) && InEither(rv, e) && forall x :: InEither(next, x) <==> InEither(rv, x) && x != e
  {
    if fromPrio {
      PopMembers(rv.prio, k);
      assert Last(rv.prio, k) in rv.prio[k].items;
    } else {
      PopMembers(rv.blocks, k);
      assert Last(rv.blocks, k) in rv.blocks[k].items;
    }
  }

  /** The solution facts the second loop keeps, for a solution of the goal
      drawn from the two sides. */
  ghost predicate DrawnFrom(goal: seq<Item>, rv: Reserved, sol: seq<Item>) {
    && |sol| == |goal|
    && NoDup(sol)
    && (forall i :: 0 <= i < |goal| && !IsFiller(goal[i].id) ==> sol[i].id == goal[i].id)
    && (forall i :: 0 <= i < |sol| ==> InEither(rv, sol[i]))
  }

  /** Putting a block taken off the sides in front of a solution built from
      what remains. */
  lemma ConsSolution(goal: seq<Item>, rv: Reserved, next: Reserved, e: Item, tail: seq<Item>)
    requires |goal| > 0 && DrawnFrom(goal[1..], next, tail)
    requires InEither(rv, e) && forall x :: InEither(next, x) <==> InEither(rv, x) && x != e
    requires !IsFiller(goal[0].id) ==> e.id == goal[0].id
    ensures DrawnFrom(goal, rv, [e] + tail)
  {
    var sol := [e] + tail;
    assert forall i :: 0 <= i < |tail| ==> tail[i] !in [e];
    NoDupConcat([e], tail);
    assert forall i :: 1 <= i < |goal| ==> goal[i] == goal[1..][i - 1] && sol[i] == tail[i - 1];
  }

  /** What the second loop builds is a solution drawn from the two sides. */
  lemma {:induction false} BuildSolution(goal: seq<Item>, rv: Reserved, o: Draws)
    requires Split(rv) && Build(goal, rv, o).Ok?
    ensures DrawnFrom(goal, rv, Build(goal, rv, o).value.value)
    decreases |goal|
  {
    if |goal| > 0 {
      if !IsFiller(goal[0].id) {
        var k := Find(rv.prio, goal[0].id).value;
        var next := Reserved(rv.blocks, Pop(rv.prio, k));
        assert Last(rv.prio, k) in rv.prio[k].items;
        PopSplit(rv, k, true);
        BuildSolution(goal[1..], next, o);
        ConsSolution(goal, rv, next, Last(rv.prio, k), Build(goal[1..], next, o).value.value);
      } else {
        var k := FirstNonEmpty(rv.blocks).value;
        var next := Reserved(Pop(rv.blocks, k), rv.prio);
        var o2 := Shuffle(Keys(rv.blocks), o).value.rest;
        PopSplit(rv, k, false);
        BuildSolution(goal[1..], next, o2);
        ConsSolution(goal, rv, next, Last(rv.blocks, k), Build(goal[1..], next, o2).value.value);
      }
    }
  }

  /** With at least the demand set aside, the second loop fails only for
      want of draws or of blocks for the fillers, and it lacks blocks for the
      fillers exactly when the working pools hold fewer blocks than there are
      filler slots. */
  lemma {:induction false} BuildErrors(goal: seq<Item>, rv: Reserved, o: Draws)
    requires KeysDistinct(rv.blocks) && KeysDistinct(rv.prio)
    requires forall d :: Size(rv.prio, d) >= Demand(goal, d)
    ensures Build(goal, rv, o).Err? ==> Build(goal, rv, o).error in {RuntimeError, OracleExhausted}
    ensures Build(goal, rv, o) == Err(RuntimeError) ==> Total(rv.blocks) < FillerCount(goal)
    ensures Total(rv.blocks) < FillerCount(goal) ==> Build(goal, rv, o).Err?
    decreases |goal|
  {
    if |goal| > 0 {
      var c := goal[0].id;
      if IsFiller(c) {
        var sh := Shuffle(Keys(rv.blocks), o);
        if sh.Ok? {
          TotalZero(rv.blocks);
          if FirstNonEmpty(rv.blocks).Some? {
            var k := FirstNonEmpty(rv.blocks).value;
            PopSizes(rv.blocks, k);
            BuildErrors(goal[1..], Reserved(Pop(rv.blocks, k), rv.prio), sh.value.rest);
          }
        }
      } else {
        assert Demand(goal, c) >= 1;
        var k := Find(rv.prio, c).value;
        PopSizes(rv.prio, k);
        BuildErrors(goal[1..], Reserved(rv.blocks, Pop(rv.prio, k)), o);
      }
    }
  }

  /** `random.shuffle` on every pool, in pool order. */
  function ShuffleAll(ps: seq<Pool>, o: Draws): (r: Result<Drawn<seq<Pool>>>)
    ensures r.Err? ==> r.error == OracleExhausted
    ensures r.Ok? ==> SamePools(ps, r.value.value)
    decreases |ps|
  {
    if |ps| == 0 then Ok(Drawn([], o))
    else match Shuffle(ps[0].items, o)
      case Err(e) => Err(e)
      case Ok(first) =>
        match ShuffleAll(ps[1..], first.rest)
        case Err(e) => Err(e)
        case Ok(more) =>
          var r := [Pool(ps[0].colour, first.value)] + more.value;
          assert r[1..] == more.value;
          Ok(Drawn(r, more.rest))
  }

  /** The same labels in the same order, each pool a permutation of the
      other's. */
  predicate SamePools(ps: seq<Pool>, qs: seq<Pool>)
    decreases |ps|
  {
    |qs| == |ps| &&
    (|ps| == 0 ||
     (qs[0].colour == ps[0].colour && multiset(qs[0].items) == multiset(ps[0].items)
      && SamePools(ps[1..], qs[1..])))
  }

  /** `SamePools`, pool by pool. */
  lemma {:induction false} SamePoolsAt(ps: seq<Pool>, qs: seq<Pool>)
    requires SamePools(ps, qs)
    ensures |qs| == |ps| && forall m :: 0 <= m < |ps| ==>
      qs[m].colour == ps[m].colour && multiset(qs[m].items) == multiset(ps[m].items)
    decreases |ps|
  {
    if |ps| > 0 {
      SamePoolsAt(ps[1..], qs[1..]);
      assert forall m :: 1 <= m < |ps| ==> ps[m] == ps[1..][m - 1] && qs[m] == qs[1..][m - 1];
    }
  }

  /** Two shuffles in a row still permute each pool. */
  lemma {:induction false} SamePoolsTrans(a: seq<Pool>, b: seq<Pool>, c: seq<Pool>)
    requires SamePools(a, b) && SamePools(b, c)
    ensures SamePools(a, c)
    decreases |a|
  {
    if |a| > 0 {
      SamePoolsTrans(a[1..], b[1..], c[1..]);
    }
  }

  /** Every pool is a permutation of itself. */
  lemma {:induction false} SamePoolsRefl(ps: seq<Pool>)
    ensures SamePools(ps, ps)
    decreases |ps|
  {
    if |ps| > 0 {
      SamePoolsRefl(ps[1..]);
    }
  }

  /** Permuting is symmetric. */
  lemma {:induction false} SamePoolsSym(ps: seq<Pool>, qs: seq<Pool>)
    requires SamePools(ps, qs)
    ensures SamePools(qs, ps)
    decreases |ps|
  {
    if |ps| > 0 {
      SamePoolsSym(ps[1..], qs[1..]);
    }
  }

  /** Permuting every pool keeps the pools well formed and holding the same
      blocks. */
  lemma SamePoolsOk(ps: seq<Pool>, qs: seq<Pool>)
    requires SamePools(ps, qs)
    ensures PoolsOk(ps) ==> PoolsOk(qs)
    ensures forall x :: InPools(qs, x) <==> InPools(ps, x)
  {
    SamePoolsAt(ps, qs);
    forall m | 0 <= m < |ps| ensures forall x :: x in qs[m].items <==> x in ps[m].items {
      forall x ensures x in qs[m].items <==> x in ps[m].items {
        assert x in qs[m].items <==> x in multiset(qs[m].items);
      }
    }
    if PoolsOk(ps) {
      forall m | 0 <= m < |ps| ensures NoDup(qs[m].items) {
        NoDupPerm(ps[m].items, qs[m].items);
      }
    }
    forall x | InPools(ps, x) ensures InPools(qs, x) {
      var m :| 0 <= m < |ps| && x in ps[m].items;
      assert x in qs[m].items;
    }
  }

  /** A drawn solution, the pools as the shuffle left them, and the unused
      draws. */
  datatype Generated = Generated(solution: seq<Item>, pools: seq<Pool>, rest: Draws)

  /** `_generate_random_solution`. The solution is drawn from a copy taken
      before the pools are shuffled, so the shuffle only affects later calls;
      its draws come first. */
  function GenerateRandomSolution(ps: seq<Pool>, goal: seq<Item>, o: Draws): (r: Result<Generated>)
    ensures r.Ok? ==> SamePools(ps, r.value.pools)
  {
    match ShuffleAll(ps, o)
    case Err(e) => Err(e)
    case Ok(sh) =>
      match Reserve(goal, Reserved(ps, []))
      case Err(e) => Err(e)
      case Ok(rv) =>
        match Build(goal, rv, sh.rest)
        case Err(e) => Err(e)
        case Ok(b) => Ok(Generated(b.value, sh.value, b.rest))
  }

  /** A drawn solution is an assignment of the pools' blocks to the goal,
      and the shuffled pools stay well formed. */
  lemma GenerateAssignment(ps: seq<Pool>, goal: seq<Item>, o: Draws)
    requires PoolsOk(ps) && GenerateRandomSolution(ps, goal, o).Ok?
    ensures Assignment(ps, goal, GenerateRandomSolution(ps, goal, o).value.solution)
    ensures PoolsOk(GenerateRandomSolution(ps, goal, o).value.pools)
  {
    var sh := ShuffleAll(ps, o).value;
    var start := Reserved(ps, []);
    SamePoolsOk(ps, sh.value);
    ReserveSplit(goal, start);
    var rv := Reserve(goal, start).value;
    BuildSolution(goal, rv, sh.rest);
  }

  /** Nothing is set aside before the first loop. */
  lemma NothingSetAside(goal: seq<Item>)
    ensures KeysDistinct([]) && forall d :: Size([], d) == 0
  {
  }

  /** Other than for want of draws, drawing a solution fails only when the
      pools cannot serve the goal, and it always fails when they cannot. A
      KeyError names a label without a pool. */
  lemma GenerateErrors(ps: seq<Pool>, goal: seq<Item>, o: Draws)
    requires KeysDistinct(ps)
    ensures var r := GenerateRandomSolution(ps, goal, o);
      && (r.Err? && r.error != OracleExhausted ==> !Feasible(ps, goal))
      && (!Feasible(ps, goal) ==> r.Err?)
      && (r == Err(KeyError) ==>
            exists i :: 0 <= i < |goal| && !IsFiller(goal[i].id) && Find(ps, goal[i].id).None?)
  {
    var sh := ShuffleAll(ps, o);
    var start := Reserved(ps, []);
    ReserveEnough(goal, start);
    if sh.Ok? {
      var res := Reserve(goal, start);
      if res.Err? {
        if res.error == KeyError {
          ReserveKeyError(goal, start);
        }
      } else {
        NothingSetAside(goal);
        ReserveSizes(goal, start);
        BuildErrors(goal, res.value, sh.value.rest);
      }
    }
  }

  /** The distances from each solution block to its goal slot, summed. */
  function SlotDistances(dist: Metric, sol: seq<Item>, goal: seq<Item>): real
    requires |sol| == |goal|
    decreases |sol|
  {
    if |sol| == 0 then 0.0 else dist(sol[0].pos, goal[0].pos) + SlotDistances(dist, sol[1..], goal[1..])
  }

  /** `_evaluate_fitness`: a solution of another length than the goal is a
      RuntimeError; otherwise the distances from each block to its slot,
      summed. */
  function EvaluateFitness(dist: Metric, sol: seq<Item>, goal: seq<Item>): (r: Result<real>)
    ensures r.Err? <==> |sol| != |goal|
    ensures r.Err? ==> r.error == RuntimeError
  {
    if |sol| != |goal| then Err(RuntimeError) else Ok(SlotDistances(dist, sol, goal))
  }

  /** Under a metric, the fitness is never negative, and it is zero exactly
      when every block already sits on its slot. */
  lemma {:induction false} FitnessZero(dist: Metric, sol: seq<Item>, goal: seq<Item>)
    requires IsMetric(dist) && |sol| == |goal|
    ensures EvaluateFitness(dist, sol, goal).value >= 0.0
    ensures EvaluateFitness(dist, sol, goal).value == 0.0 <==>
      forall i :: 0 <= i < |sol| ==> sol[i].pos == goal[i].pos
    decreases |sol|
  {
    if |sol| > 0 {
      FitnessZero(dist, sol[1..], goal[1..]);
      assert forall i :: 1 <= i < |sol| ==> sol[i] == sol[1..][i - 1] && goal[i] == goal[1..][i - 1];
      assert dist(sol[0].pos, goal[0].pos) >= 0.0;
    }
  }

  /** Fitness adds up over consecutive stretches of the goal. */
  lemma {:induction false} FitnessSplit(dist: Metric, s1: seq<Item>, s2: seq<Item>, g1: seq<Item>, g2: seq<Item>)
    requires |s1| == |g1| && |s2| == |g2|
    ensures EvaluateFitness(dist, s1 + s2, g1 + g2).value
         == EvaluateFitness(dist, s1, g1).value + EvaluateFitness(dist, s2, g2).value
    decreases |s1|
  {
    if |s1| > 0 {
      FitnessSplit(dist, s1[1..], s2, g1[1..], g2);
      assert (s1 + s2)[1..] == s1[1..] + s2 && (g1 + g2)[1..] == g1[1..] + g2;
    } else {
      assert s1 + s2 == s2 && g1 + g2 == g2;
    }
  }

  /** One trip of the plan: where the drone picks a block up and where it
      puts it down, each one cell above the block. */
  datatype Trip = Trip(pickUp: Cell, dropOff: Cell)

  /** `get_actions`: with no best solution yet, `len(None)` is a TypeError;
      a best solution of another length than the goal is a RuntimeError;
      otherwise one trip per slot, from above the chosen block to above its
      slot. */
  function GetActions(best: Option<seq<Item>>, goal: seq<Item>): (r: Result<seq<Trip>>)
    ensures best.None? <==> r == Err(TypeError)
    ensures best.Some? ==> (r.Ok? <==> |best.value| == |goal|)
    ensures r.Ok? ==> |r.value| == |goal| && forall i :: 0 <= i < |goal| ==>
      Below(r.value[i].pickUp) == best.value[i].pos && Below(r.value[i].dropOff) == goal[i].pos
  {
    match best
    case None => Err(TypeError)
    case Some(s) =>
      if |s| != |goal| then Err(RuntimeError)
      else Ok(seq(|s|, i requires 0 <= i < |s| => Trip(Above(s[i].pos), Above(goal[i].pos))))
  }

  /** An argument of `PopulationAlgorithm.__init__`, whose type Python
      only finds out at run time: a world, or a list of entries. */
  datatype Arg = WorldArg(world: World<Label>) | ListArg(entries: seq<Item>)

  /** The state every population planner starts from: the world, the
      blocks to build with, the filled goal and the pools. */
  datatype Population = Population(world: World<Label>, raw: seq<Item>, goal: seq<Item>, pools: seq<Pool>)

  /** `PopulationAlgorithm.__init__`: a first argument that is not a world
      is a TypeError, and so is a block list or goal that is not a list,
      since both are iterated. Otherwise the drone's entry is dropped from
      the blocks, the goal is filled and sorted, and the blocks are organised
      by label. */
  function PopulationInit(droneWorld: Arg, blocks: Arg, goal: Arg): (r: Result<Population>)
    ensures r == Err(TypeError) <==> !(droneWorld.WorldArg? && blocks.ListArg? && goal.ListArg?)
    ensures r.Ok? ==> (r.value.world == droneWorld.world
      && (forall e :: e in r.value.raw <==> e in blocks.entries && NotBlack(e))
      && SortedBy(r.value.goal, YKey) && Grounded(goal.entries, r.value.goal)
      && (forall e :: e in goal.entries ==> e in r.value.goal)
      && Organized(r.value.pools, r.value.raw))
    ensures r.Ok? ==> r.value.goal == FillGoal(goal.entries)
    ensures r.Ok? && NoDup(blocks.entries) ==> PoolsOk(r.value.pools)
  {
    if !(droneWorld.WorldArg? && blocks.ListArg? && goal.ListArg?) then Err(TypeError)
    else
      var raw := FilterOutDrone(blocks.entries);
      OrganizeContents(raw);
      assert NoDup(blocks.entries) ==> PoolsOk(Organize(raw)) by {
        if NoDup(blocks.entries) {
          FilterNoDup(blocks.entries, NotBlack);
          OrganizeOk(raw);
        }
      }
      Ok(Population(droneWorld.world, raw, FillGoal(goal.entries), Organize(raw)))
  }

  /** `PopulationAlgorithm.__init__` as written, with `fill_goal`'s sorts
      changing nothing: the goal keeps its given order ahead of the
      fillers, so a raised goal block can come before the filler under it. */
  function PopulationInitAsWritten(droneWorld: Arg, blocks: Arg, goal: Arg): (r: Result<Population>)
    ensures r == Err(TypeError) <==> !(droneWorld.WorldArg? && blocks.ListArg? && goal.ListArg?)
    ensures r.Ok? ==> (r.value.world == droneWorld.world
      && (forall e :: e in r.value.raw <==> e in blocks.entries && NotBlack(e))
      && |r.value.goal| >= |goal.entries| && r.value.goal[..|goal.entries|] == goal.entries
      && Grounded(goal.entries, r.value.goal)
      && Organized(r.value.pools, r.value.raw))
  {
    if !(droneWorld.WorldArg? && blocks.ListArg? && goal.ListArg?) then Err(TypeError)
    else
      var raw := FilterOutDrone(blocks.entries);
      OrganizeContents(raw);
      Ok(Population(droneWorld.world, raw, FillGoalAsWritten(goal.entries), Organize(raw)))
  }

  /** A goal of one raised block: the planner built as written holds a
      goal that is not bottom-up, where the intended one is. */
  lemma PopulationInitAsWrittenUnsorted(w: World<Label>, blocks: seq<Item>)
    ensures var g := [Entry("red", Cell(0, 1, 0))];
      var r := PopulationInitAsWritten(WorldArg(w), ListArg(blocks), ListArg(g));
      r.Ok? && !SortedBy(r.value.goal, YKey)
      && PopulationInit(WorldArg(w), ListArg(blocks), ListArg(g)).Ok?
      && SortedBy(PopulationInit(WorldArg(w), ListArg(blocks), ListArg(g)).value.goal, YKey)
  {
    FillGoalAsWrittenUnsorted();
  }

  /** Replacing one block of a solution by a block of the pools that it
      does not hold yet, of the slot's label unless the slot is a filler,
      keeps it a solution. */
  lemma ReplaceKeeps(ps: seq<Pool>, goal: seq<Item>, s: seq<Item>, j: nat, x: Item)
    requires Assignment(ps, goal, s) && j < |s| && InPools(ps, x) && x !in s
    requires !IsFiller(goal[j].id) ==> x.id == goal[j].id
    ensures Assignment(ps, goal, s[j := x])
  {
    var t := s[j := x];
    forall a, b | 0 <= a < b < |t| ensures t[a] != t[b] {
      if a != j && b != j {
        assert t[a] == s[a] && t[b] == s[b];
      } else if a == j {
        assert t[b] == s[b];
      } else {
        assert t[a] == s[a];
      }
    }
  }

  /** A solution stays a solution over pools holding the same blocks. */
  lemma AssignmentSamePools(ps: seq<Pool>, qs: seq<Pool>, goal: seq<Item>, s: seq<Item>)
    requires SamePools(ps, qs) && Assignment(qs, goal, s)
    ensures Assignment(ps, goal, s)
  {
    SamePoolsOk(ps, qs);
  }
}
