/** The population planners of the older tree share one shape: the world's
    blocks, as `(id, x, y, z)` tuples, are filed into four colour pools; a
    random solution draws, for every goal entry, a block of the entry's
    colour that the solution does not hold yet; and a solution's fitness is
    the distance flown from the drone's column to each block and back up to
    the block's place in the tower. `PopulationAlgorithm` and the newer
    `DroneWorldNest` carry these word for word. */
module PopulationAlgorithm {
  import opened Common
  import opened Labels
  import opened WorldModel
  import opened Oracle

  /** A block as the older state lists it: its id and its cell. */
  type Block = Entry<ObjectId>

  /** `red_blocks`, `green_blocks`, `blue_blocks` and `yellow_blocks`. */
  datatype Pools = Pools(red: seq<Block>, green: seq<Block>, blue: seq<Block>, yellow: seq<Block>)

  /** The pools before `_organize_blocks` has run. */
  const NoPools := Pools([], [], [], [])

  /** The pool a goal id draws from; the drone has none. */
  function PoolOf(ps: Pools, id: ObjectId): (r: Option<seq<Block>>)
    ensures r.None? <==> id == DroneId
  {
    match id
    case DroneId => None
    case Red => Some(ps.red)
    case Green => Some(ps.green)
    case Blue => Some(ps.blue)
    case Yellow => Some(ps.yellow)
  }

  /** One pass of the `_organize_blocks` loop: the block joins the end of
      the pool of its colour, and a drone entry is passed over. */
  function File(ps: Pools, b: Block): Pools {
    match b.id
    case DroneId => ps
    case Red => ps.(red := ps.red + [b])
    case Green => ps.(green := ps.green + [b])
    case Blue => ps.(blue := ps.blue + [b])
    case Yellow => ps.(yellow := ps.yellow + [b])
  }

  /** Filing a block extends the pool of its colour by it and leaves the
      other pools alone. */
  lemma FileAt(ps: Pools, b: Block, c: ObjectId)
    requires c != DroneId
    ensures PoolOf(File(ps, b), c) == Some(PoolOf(ps, c).value + if b.id == c then [b] else [])
  {
    assert PoolOf(ps, c).value + [] == PoolOf(ps, c).value;
    match b.id
    case DroneId => assert File(ps, b) == ps;
    case Red =>
    case Green =>
    case Blue =>
    case Yellow =>
  }

  /** `_organize_blocks`, over the blocks in order. */
  function OrganizeBlocks(blocks: seq<Block>): Pools
    decreases |blocks|
  {
    if |blocks| == 0 then NoPools
    else File(OrganizeBlocks(blocks[..|blocks| - 1]), blocks[|blocks| - 1])
  }

  /** Blocks of colour `c`. */
  function OfId(c: ObjectId): Block -> bool {
    (b: Block) => b.id == c
  }

  /** Each colour's pool is exactly the blocks of that colour, in input
      order; entries of any other id land in no pool. */
  lemma {:induction false} OrganizeFiltersAt(blocks: seq<Block>, c: ObjectId)
    requires c != DroneId
    ensures PoolOf(OrganizeBlocks(blocks), c) == Some(Filter(blocks, OfId(c)))
    decreases |blocks|
  {
    if |blocks| > 0 {
      var init := blocks[..|blocks| - 1];
      var b := blocks[|blocks| - 1];
      assert blocks == init + [b];
      OrganizeFiltersAt(init, c);
      FileAt(OrganizeBlocks(init), b, c);
      FilterSnoc(init, b, OfId(c));
      assert OfId(c)(b) == (b.id == c);
    }
  }

  /** The same, for all four colours at once. */
  lemma OrganizeFilters(blocks: seq<Block>)
    ensures forall c :: c != DroneId ==> PoolOf(OrganizeBlocks(blocks), c) == Some(Filter(blocks, OfId(c)))
  {
    forall c | c != DroneId
      ensures PoolOf(OrganizeBlocks(blocks), c) == Some(Filter(blocks, OfId(c)))
    {
      OrganizeFiltersAt(blocks, c);
    }
  }

  /** A block lies in the pool of a colour exactly when it is one of the
      blocks and has that colour. */
  lemma OrganizedMembers(blocks: seq<Block>, c: ObjectId, x: Block)
    requires c != DroneId
    ensures x in PoolOf(OrganizeBlocks(blocks), c).value <==> x in blocks && x.id == c
  {
    OrganizeFilters(blocks);
    FilterHas(blocks, OfId(c));
  }

  /** The `while not found` loop of one goal entry: draw from the pool until
      a block the solution does not hold turns up. An empty pool is
      `random.choice`'s IndexError. */
  function Pick(pool: seq<Block>, sol: seq<Block>, o: Draws): (r: Result<Drawn<Block>>)
    ensures pool == [] ==> r == Err(IndexError)
    ensures r.Err? ==> r.error == IndexError || r.error == OracleExhausted
    ensures r == Err(IndexError) ==> pool == []
    ensures r.Ok? ==> r.value.value in pool && r.value.value !in sol && |r.value.rest| < |o|
    decreases |o|
  {
    match Choice(pool, o)
    case Err(e) => Err(e)
    case Ok(d) => if d.value !in sol then Ok(d) else Pick(pool, sol, d.rest)
  }

  /** When every block of the pool is taken, the loop never finds one: it
      draws until the answers run out, however many there are. */
  lemma {:induction false} PickStuck(pool: seq<Block>, sol: seq<Block>, o: Draws)
    requires pool != [] && forall x :: x in pool ==> x in sol
    ensures Pick(pool, sol, o) == Err(OracleExhausted)
    decreases |o|
  {
    if |o| > 0 {
      PickStuck(pool, sol, Choice(pool, o).value.rest);
    }
  }

  /** A partial solution: the first `|sol|` goal entries are served by
      distinct blocks from their colour's pools. */
  predicate Partial(ps: Pools, goal: seq<Block>, sol: seq<Block>) {
    && |sol| <= |goal|
    && NoDup(sol)
    && forall i :: 0 <= i < |sol| ==> PoolOf(ps, goal[i].id).Some? && sol[i] in PoolOf(ps, goal[i].id).value
  }

  /** A solution: one distinct pooled block for every goal entry. */
  predicate Solves(ps: Pools, goal: seq<Block>, sol: seq<Block>) {
    Partial(ps, goal, sol) && |sol| == |goal|
  }

  /** The outer loop of `_generate_random_solution`, from entry `|sol|` on.
      An entry of no colour finds no branch of the `if` chain and spins
      forever without drawing. */
  function Fill(ps: Pools, goal: seq<Block>, sol: seq<Block>, o: Draws): (r: Result<Drawn<seq<Block>>>)
    requires |sol| <= |goal|
    decreases |goal| - |sol|
  {
    if |sol| == |goal| then Ok(Drawn(sol, o))
    else match PoolOf(ps, goal[|sol|].id)
      case None => Err(Diverges)
      case Some(pool) =>
        match Pick(pool, sol, o)
        case Err(e) => Err(e)
        case Ok(d) => Fill(ps, goal, sol + [d.value], d.rest)
  }

  /** Filling extends a partial solution to a solution, and fails only
      through an entry of no colour, an empty pool or a want of draws. */
  lemma {:induction false} FillSolves(ps: Pools, goal: seq<Block>, sol: seq<Block>, o: Draws)
    requires Partial(ps, goal, sol)
    ensures Fill(ps, goal, sol, o).Ok? ==> Solves(ps, goal, Fill(ps, goal, sol, o).value.value)
    ensures Fill(ps, goal, sol, o).Ok? ==> Fill(ps, goal, sol, o).value.value[..|sol|] == sol
    ensures Fill(ps, goal, sol, o) == Err(Diverges) ==> exists k :: |sol| <= k < |goal| && goal[k].id == DroneId
    ensures Fill(ps, goal, sol, o) == Err(IndexError) ==> exists k :: |sol| <= k < |goal| && PoolOf(ps, goal[k].id) == Some([])
    ensures Fill(ps, goal, sol, o).Err? ==> Fill(ps, goal, sol, o).error in {Diverges, IndexError, OracleExhausted}
    decreases |goal| - |sol|
  {
    if |sol| < |goal| && PoolOf(ps, goal[|sol|].id).Some? {
      var pool := PoolOf(ps, goal[|sol|].id).value;
      var p := Pick(pool, sol, o);
      if p.Ok? {
        var next := sol + [p.value.value];
        assert Partial(ps, goal, next) by {
          NoDupAppend(sol, p.value.value);
        }
        FillSolves(ps, goal, next, p.value.rest);
        assert next[..|sol|] == sol;
      }
    }
  }

  /** `_generate_random_solution`. */
  function RandomSolution(ps: Pools, goal: seq<Block>, o: Draws): (r: Result<Drawn<seq<Block>>>)
    ensures r.Ok? ==> Solves(ps, goal, r.value.value)
    ensures r == Err(Diverges) ==> exists k :: 0 <= k < |goal| && goal[k].id == DroneId
    ensures r == Err(IndexError) ==> exists k :: 0 <= k < |goal| && PoolOf(ps, goal[k].id) == Some([])
    ensures r.Err? ==> r.error in {Diverges, IndexError, OracleExhausted}
  {
    FillSolves(ps, goal, [], o);
    Fill(ps, goal, [], o)
  }

  /** A solution over organised pools, stated over the blocks themselves:
      every slot holds one of the blocks, of the slot's colour, and no block
      is used twice. */
  predicate Fits(blocks: seq<Block>, goal: seq<Block>, sol: seq<Block>) {
    && |sol| == |goal|
    && NoDup(sol)
    && forall i :: 0 <= i < |sol| ==> goal[i].id != DroneId && sol[i] in blocks && sol[i].id == goal[i].id
  }

  /** Over the organised pools, being a solution is exactly fitting the goal. */
  lemma SolvesFits(blocks: seq<Block>, goal: seq<Block>, sol: seq<Block>)
    ensures Solves(OrganizeBlocks(blocks), goal, sol) <==> Fits(blocks, goal, sol)
  {
    var ps := OrganizeBlocks(blocks);
    forall i | 0 <= i < |sol| && i < |goal| && goal[i].id != DroneId
      ensures sol[i] in PoolOf(ps, goal[i].id).value <==> sol[i] in blocks && sol[i].id == goal[i].id
    {
      OrganizedMembers(blocks, goal[i].id, sol[i]);
    }
  }

  /** The draws under which filling from `sol[..k]` rebuilds `sol`: for
      each remaining slot, the position of its block in the pool. */
  function Answers(ps: Pools, goal: seq<Block>, sol: seq<Block>, k: nat): (r: Draws)
    requires |sol| == |goal| && k <= |sol|
    ensures |r| == |sol| - k
    decreases |sol| - k
  {
    if k == |sol| then []
    else
      var pool := PoolOf(ps, goal[k].id);
      var j := if pool.Some? && sol[k] in pool.value then IndexOf(pool.value, sol[k]) else 0;
      [j] + Answers(ps, goal, sol, k + 1)
  }

  /** Every solution is drawn by some answers: those of `Answers`. */
  lemma {:induction false} FillReaches(ps: Pools, goal: seq<Block>, sol: seq<Block>, k: nat, o: Draws)
    requires Solves(ps, goal, sol) && k <= |sol|
    ensures Fill(ps, goal, sol[..k], Answers(ps, goal, sol, k) + o) == Ok(Drawn(sol, o))
    decreases |sol| - k
  {
    if k == |sol| {
      assert sol[..k] == sol;
      assert Answers(ps, goal, sol, k) + o == o;
    } else {
      var pool := PoolOf(ps, goal[k].id).value;
      var j := IndexOf(pool, sol[k]);
      var a := Answers(ps, goal, sol, k + 1) + o;
      assert Answers(ps, goal, sol, k) + o == [j] + a;
      ChoiceReaches(pool, j, a);
      assert sol[k] !in sol[..k] by {
        forall i | 0 <= i < k ensures sol[..k][i] != sol[k] {
          assert sol[..k][i] == sol[i];
        }
      }
      assert Pick(pool, sol[..k], [j] + a) == Ok(Drawn(sol[k], a));
      assert sol[..k] + [sol[k]] == sol[..k + 1];
      FillReaches(ps, goal, sol, k + 1, o);
    }
  }

  /** Every solution of the goal over the organised pools is the random
      solution of some answers, and the answers are used up exactly. */
  lemma RandomSolutionReaches(blocks: seq<Block>, goal: seq<Block>, sol: seq<Block>)
    requires Fits(blocks, goal, sol)
    ensures RandomSolution(OrganizeBlocks(blocks), goal, Answers(OrganizeBlocks(blocks), goal, sol, 0)) == Ok(Drawn(sol, []))
  {
    var ps := OrganizeBlocks(blocks);
    SolvesFits(blocks, goal, sol);
    assert sol[..0] == [];
    assert Answers(ps, goal, sol, 0) + [] == Answers(ps, goal, sol, 0);
    FillReaches(ps, goal, sol, 0, []);
  }

  /** How many goal entries ask for colour `c`. */
  function Demand(goal: seq<Block>, c: ObjectId): nat {
    |Filter(goal, OfId(c))|
  }

  /** Two sequences with the same id slot by slot hold as many blocks of
      each colour. */
  lemma {:induction false} SameIdsDemand(sol: seq<Block>, goal: seq<Block>, c: ObjectId)
    requires |sol| == |goal| && forall i :: 0 <= i < |sol| ==> sol[i].id == goal[i].id
    ensures |Filter(sol, OfId(c))| == Demand(goal, c)
    decreases |sol|
  {
    if |sol| > 0 {
      SameIdsDemand(sol[1..], goal[1..], c);
    }
  }

  /** The sampling loop ends only if each colour's pool is at least as large
      as the number of goal entries of that colour. */
  lemma RandomSolutionNeedsEnough(blocks: seq<Block>, goal: seq<Block>, o: Draws, c: ObjectId)
    requires c != DroneId
    requires RandomSolution(OrganizeBlocks(blocks), goal, o).Ok?
    ensures Demand(goal, c) <= |Filter(blocks, OfId(c))|
  {
    var ps := OrganizeBlocks(blocks);
    var sol := RandomSolution(ps, goal, o).value.value;
    SolvesFits(blocks, goal, sol);
    SameIdsDemand(sol, goal, c);
    var mine := Filter(sol, OfId(c));
    FilterNoDup(sol, OfId(c));
    OrganizeFilters(blocks);
    forall x | x in mine ensures x in Filter(blocks, OfId(c)) {
      OrganizedMembers(blocks, c, x);
    }
    NoDupWithin(mine, Filter(blocks, OfId(c)));
  }

  /** The two legs slot `i` costs: from the drone's column at height `+i`
      to the block, and from the block to height `+i+1`. */
  function Legs(dist: Metric, drone: Cell, b: Block, i: nat): real {
    dist(b.pos, Vertical(drone, i)) + dist(b.pos, Vertical(drone, i + 1))
  }

  /** `_evaluate_fitness`: the legs of all slots, summed in slot order. */
  function ColumnFitness(dist: Metric, drone: Cell, sol: seq<Block>): real
    decreases |sol|
  {
    if |sol| == 0 then 0.0
    else ColumnFitness(dist, drone, sol[..|sol| - 1]) + Legs(dist, drone, sol[|sol| - 1], |sol| - 1)
  }

  /** A one-slot solution costs the two legs of its block. */
  lemma ColumnFitnessSingle(dist: Metric, drone: Cell, b: Block)
    ensures ColumnFitness(dist, drone, [b]) == dist(b.pos, drone) + dist(b.pos, Vertical(drone, 1))
  {
    assert [b][..0] == [];
    assert Vertical(drone, 0) == drone;
  }

  /** The legs of slots `k` onward, summed from the front. */
  function LegsFrom(dist: Metric, drone: Cell, sol: seq<Block>, k: nat): real
    requires k <= |sol|
    decreases |sol| - k
  {
    if k == |sol| then 0.0 else Legs(dist, drone, sol[k], k) + LegsFrom(dist, drone, sol, k + 1)
  }

  /** Summing from the back, as the loop does, or from the front gives the
      same total; so a solution's fitness splits at any slot. */
  lemma {:induction false} ColumnFitnessSplit(dist: Metric, drone: Cell, sol: seq<Block>, k: nat)
    requires k <= |sol|
    ensures ColumnFitness(dist, drone, sol) == ColumnFitness(dist, drone, sol[..k]) + LegsFrom(dist, drone, sol, k)
    decreases |sol| - k
  {
    if k == |sol| {
      assert sol[..k] == sol;
    } else {
      ColumnFitnessSplit(dist, drone, sol, k + 1);
      assert sol[..k + 1][..k] == sol[..k];
    }
  }

  /** Under the metric laws every slot costs something: the two heights
      differ, so the block cannot be at both. A non-empty solution has a
      positive fitness. */
  lemma {:induction false} ColumnFitnessPositive(dist: Metric, drone: Cell, sol: seq<Block>)
    requires IsMetric(dist)
    ensures ColumnFitness(dist, drone, sol) >= 0.0
    ensures |sol| > 0 ==> ColumnFitness(dist, drone, sol) > 0.0
    decreases |sol|
  {
    if |sol| > 0 {
      var b := sol[|sol| - 1];
      var i := |sol| - 1;
      ColumnFitnessPositive(dist, drone, sol[..i]);
      assert Vertical(drone, i) != Vertical(drone, i + 1);
      assert dist(b.pos, Vertical(drone, i)) > 0.0 || dist(b.pos, Vertical(drone, i + 1)) > 0.0;
    }
  }

  /** What a population planner is built from: the distance, the drone's
      cell, the world's blocks and the goal. */
  datatype Setup = Setup(dist: Metric, drone: Cell, blocks: seq<Block>, goal: seq<Block>)

  /** The pools the constructor files from the blocks. */
  function PoolsOf(s: Setup): Pools {
    OrganizeBlocks(s.blocks)
  }

  /** `_evaluate_fitness` of a solution under the planner's setup. */
  function Fitness(s: Setup, sol: seq<Block>): real {
    ColumnFitness(s.dist, s.drone, sol)
  }

  /** Every one of the solutions solves the goal from the pools. */
  predicate AllSolve(ps: Pools, goal: seq<Block>, sols: seq<seq<Block>>) {
    forall i :: 0 <= i < |sols| ==> Solves(ps, goal, sols[i])
  }

  /** The initialisation loop of the planners: `n` more random solutions
      appended to `sols`. */
  function RandomSolutions(ps: Pools, goal: seq<Block>, n: nat, sols: seq<seq<Block>>, o: Draws): (r: Result<Drawn<seq<seq<Block>>>>)
    requires AllSolve(ps, goal, sols)
    ensures r.Ok? ==> |r.value.value| == |sols| + n && AllSolve(ps, goal, r.value.value)
    ensures r.Ok? ==> r.value.value[..|sols|] == sols
    decreases n
  {
    if n == 0 then Ok(Drawn(sols, o))
    else match RandomSolution(ps, goal, o)
      case Err(e) => Err(e)
      case Ok(d) =>
        var r := RandomSolutions(ps, goal, n - 1, sols + [d.value], d.rest);
        assert r.Ok? ==> r.value.value[..|sols|] == (sols + [d.value])[..|sols|];
        r
  }
}
