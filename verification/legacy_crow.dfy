/** `CrowSearch` of the older tree. Its pools start empty and are filled
    when `run` starts. Every crow begins with a random solution as both
    position and memory. In each iteration a crow that is not noticed
    follows the memory of a crow it picks: a short flight copies some of
    that memory's blocks into its position, a long flight starts from that
    memory. A noticed crow jumps to a fresh random solution. Memories take
    strictly fitter positions, and the fittest memory is returned. */
module LegacyCrow {
  import opened Common
  import opened Labels
  import opened WorldModel
  import opened Oracle
  import opened PopulationAlgorithm
  import CrowSearch

  /** `maxiter`. */
  const MaxIter: nat := 50
  /** `NC`, the number of crows. */
  const Flock: nat := 100

  /** The planner as the constructor leaves it: the pools are still empty. */
  datatype Planner = Planner(drone: Cell, blocks: seq<Block>, goal: seq<Block>, pools: Pools)

  /** `CrowSearch(drone_pos, blocks, goal)`. Until `run` files the blocks,
      a goal that starts with a colour cannot be drawn: its pool is empty. */
  function NewCrowSearch(drone: Cell, blocks: seq<Block>, goal: seq<Block>): (r: Planner)
    ensures r.drone == drone && r.blocks == blocks && r.goal == goal
    ensures forall o :: |goal| > 0 && goal[0].id != DroneId ==> RandomSolution(r.pools, goal, o) == Err(IndexError)
  {
    var r := Planner(drone, blocks, goal, NoPools);
    assert forall o :: |goal| > 0 && goal[0].id != DroneId ==> Fill(r.pools, goal, [], o) == Err(IndexError);
    r
  }

  /** A distance that does not depend on the direction. */
  ghost predicate Symmetric(dist: Metric) {
    forall a, b :: dist(a, b) == dist(b, a)
  }

  /** The loop of `_evaluate_fitness` over consecutive slots `k` and `k+1`:
      from the drone to block `k`, and from block `k+1` to the drone. */
  function Pairs(dist: Metric, drone: Cell, sol: seq<Block>, k: nat): real
    decreases |sol| - k
  {
    if k + 1 >= |sol| then 0.0
    else dist(drone, sol[k].pos) + dist(sol[k + 1].pos, drone) + Pairs(dist, drone, sol, k + 1)
  }

  /** `_evaluate_fitness`: the leg from the first block to the drone, the
      pairs, and a last leg from the drone to the last block. The last leg
      reads the variables of the loop's final pass, which hold the last
      block, or the first one when there is only one. An empty solution is
      an IndexError at `solution[0]`. */
  function CrowFitness(dist: Metric, drone: Cell, sol: seq<Block>): (r: Result<real>)
    ensures r.Ok? <==> |sol| > 0
    ensures r.Err? ==> r.error == IndexError
  {
    if |sol| == 0 then Err(IndexError)
    else Ok(dist(sol[0].pos, drone) + Pairs(dist, drone, sol, 0) + dist(drone, sol[|sol| - 1].pos))
  }

  /** The distances from the drone to blocks `k` onward. */
  function Spokes(dist: Metric, drone: Cell, sol: seq<Block>, k: nat): real
    decreases |sol| - k
  {
    if k >= |sol| then 0.0 else dist(drone, sol[k].pos) + Spokes(dist, drone, sol, k + 1)
  }

  lemma {:induction false} PairsSpokes(dist: Metric, drone: Cell, sol: seq<Block>, k: nat)
    requires Symmetric(dist) && k < |sol|
    ensures Pairs(dist, drone, sol, k) + dist(sol[k].pos, drone) + dist(drone, sol[|sol| - 1].pos)
            == 2.0 * Spokes(dist, drone, sol, k)
    decreases |sol| - k
  {
    assert dist(sol[k].pos, drone) == dist(drone, sol[k].pos);
    if k + 1 < |sol| {
      PairsSpokes(dist, drone, sol, k + 1);
    }
  }

  /** With a symmetric distance the fitness is twice the distance from the
      drone to every block: each inner block is reached once from either
      side, and the ends once each way. */
  lemma CrowFitnessSpokes(dist: Metric, drone: Cell, sol: seq<Block>)
    requires Symmetric(dist) && |sol| > 0
    ensures CrowFitness(dist, drone, sol) == Ok(2.0 * Spokes(dist, drone, sol, 0))
  {
    PairsSpokes(dist, drone, sol, 0);
  }

  /** The long flight for the sampled slots, from the target memory: slot
      `j` takes a block of its colour the position does not hold, drawn
      until one turns up, and then takes back `target[j]` if the position
      no longer holds it. */
  function GlobalFlight(ps: Pools, target: seq<Block>, idx: seq<nat>, pos: seq<Block>, o: Draws): (r: Result<Drawn<seq<Block>>>)
    ensures r.Ok? ==> |r.value.value| == |pos|
    decreases |idx|
  {
    if |idx| == 0 then Ok(Drawn(pos, o))
    else
      var j := idx[0];
      if j >= |pos| then Err(IndexError)
      else match PoolOf(ps, pos[j].id)
        case None => Err(Diverges)
        case Some(pool) =>
          match Pick(pool, pos, o)
          case Err(e) => Err(e)
          case Ok(d) =>
            var p := pos[j := d.value];
            if j >= |target| then Err(IndexError)
            else GlobalFlight(ps, target, idx[1..], if target[j] !in p then p[j := target[j]] else p, d.rest)
  }

  /** Started from a duplicate-free target, the long flight always puts
      the target's block back: the drawn block was not in the position,
      so the target's block is nowhere else. The crow lands on the target
      memory itself. */
  lemma {:induction false} GlobalFlightReturns(ps: Pools, target: seq<Block>, idx: seq<nat>, o: Draws)
    requires NoDup(target)
    ensures GlobalFlight(ps, target, idx, target, o).Ok? ==> GlobalFlight(ps, target, idx, target, o).value.value == target
    decreases |idx|
  {
    var r := GlobalFlight(ps, target, idx, target, o);
    if |idx| > 0 && r.Ok? {
      var j := idx[0];
      var pool := PoolOf(ps, target[j].id).value;
      var d := Pick(pool, target, o).value;
      var p := target[j := d.value];
      assert target[j] !in p by {
        forall k | 0 <= k < |p| ensures p[k] != target[j] {
          if k != j {
            assert p[k] == target[k];
          }
        }
      }
      assert p[j := target[j]] == target;
      assert r == GlobalFlight(ps, target, idx[1..], target, d.rest);
      GlobalFlightReturns(ps, target, idx[1..], d.rest);
    }
  }

  /** A short flight between solutions yields a solution: each slot keeps
      its block or takes the target's, and only blocks the position lacks
      are written. */
  lemma LocalFlightSolves(ps: Pools, goal: seq<Block>, pos: seq<Block>, target: seq<Block>, idx: seq<nat>)
    requires Solves(ps, goal, pos) && Solves(ps, goal, target)
    requires CrowSearch.LocalFlight(pos, target, idx).Ok?
    ensures Solves(ps, goal, CrowSearch.LocalFlight(pos, target, idx).value)
  {
    CrowSearch.LocalFlightNoDup(pos, target, idx);
  }

  /** One crow's new position. With a percentile of at least `AP` it picks
      a memory to follow and a flight length; otherwise it takes a fresh
      random solution. */
  function MoveCrow(ps: Pools, goal: seq<Block>, mem: seq<seq<Block>>, pos: seq<Block>, o: Draws): (r: Result<Drawn<seq<Block>>>)
  {
    match Chance(o)
    case Err(e) => Err(e)
    case Ok(a) =>
      if a.value < CrowSearch.Awareness then RandomSolution(ps, goal, a.rest)
      else match Choice(mem, a.rest)
        case Err(e) => Err(e)
        case Ok(t) =>
          match Chance(t.rest)
          case Err(e) => Err(e)
          case Ok(f) =>
            if CrowSearch.ShortFlight(f.value) then
              match Sample(|goal|, CrowSearch.ShortCount(f.value, |goal|), f.rest)
              case Err(e) => Err(e)
              case Ok(ix) =>
                match CrowSearch.LocalFlight(pos, t.value, ix.value)
                case Err(e) => Err(e)
                case Ok(np) => Ok(Drawn(np, ix.rest))
            else
              match Sample(|goal|, CrowSearch.LongCount(f.value, |goal|), f.rest)
              case Err(e) => Err(e)
              case Ok(ix) => GlobalFlight(ps, t.value, ix.value, t.value, ix.rest)
  }

  /** A crow's move keeps its position a solution; a long flight lands it
      exactly on the memory it follows. */
  lemma MoveCrowSolves(ps: Pools, goal: seq<Block>, mem: seq<seq<Block>>, pos: seq<Block>, o: Draws)
    requires AllSolve(ps, goal, mem) && Solves(ps, goal, pos)
    ensures MoveCrow(ps, goal, mem, pos, o).Ok? ==> Solves(ps, goal, MoveCrow(ps, goal, mem, pos, o).value.value)
  {
    var r := MoveCrow(ps, goal, mem, pos, o);
    if r.Ok? {
      var a := Chance(o).value;
      if a.value >= CrowSearch.Awareness {
        var t := Choice(mem, a.rest).value;
        assert Solves(ps, goal, t.value);
        var f := Chance(t.rest).value;
        if CrowSearch.ShortFlight(f.value) {
          var ix := Sample(|goal|, CrowSearch.ShortCount(f.value, |goal|), f.rest).value;
          LocalFlightSolves(ps, goal, pos, t.value, ix.value);
        } else {
          var ix := Sample(|goal|, CrowSearch.LongCount(f.value, |goal|), f.rest).value;
          GlobalFlightReturns(ps, t.value, ix.value, ix.rest);
        }
      }
    }
  }

  /** The crows' move loop, from crow `k` on; memories stay as they are. */
  function MoveAll(ps: Pools, goal: seq<Block>, mem: seq<seq<Block>>, pos: seq<seq<Block>>, k: nat, o: Draws): (r: Result<Drawn<seq<seq<Block>>>>)
    ensures r.Ok? ==> |r.value.value| == |pos|
    decreases |pos| - k
  {
    if k >= |pos| then Ok(Drawn(pos, o))
    else match MoveCrow(ps, goal, mem, pos[k], o)
      case Err(e) => Err(e)
      case Ok(d) => MoveAll(ps, goal, mem, pos[k := d.value], k + 1, d.rest)
  }

  lemma {:induction false} MoveAllSolves(ps: Pools, goal: seq<Block>, mem: seq<seq<Block>>, pos: seq<seq<Block>>, k: nat, o: Draws)
    requires AllSolve(ps, goal, mem) && AllSolve(ps, goal, pos)
    ensures MoveAll(ps, goal, mem, pos, k, o).Ok? ==> AllSolve(ps, goal, MoveAll(ps, goal, mem, pos, k, o).value.value)
    decreases |pos| - k
  {
    var r := MoveAll(ps, goal, mem, pos, k, o);
    if k < |pos| && r.Ok? {
      var d := MoveCrow(ps, goal, mem, pos[k], o).value;
      MoveCrowSolves(ps, goal, mem, pos[k], o);
      var next := pos[k := d.value];
      assert AllSolve(ps, goal, next) by {
        forall i | 0 <= i < |next| ensures Solves(ps, goal, next[i]) {
          if i != k {
            assert next[i] == pos[i];
          }
        }
      }
      assert r == MoveAll(ps, goal, mem, next, k + 1, d.rest);
      MoveAllSolves(ps, goal, mem, next, k + 1, d.rest);
    }
  }

  /** The memory update from crow `k` on: a memory changes only to its
      crow's position when that is strictly fitter, every strictly fitter
      position is taken, and a successful update has scored every crow
      and memory from `k` on. */
  function Update(dist: Metric, drone: Cell, mem: seq<seq<Block>>, pos: seq<seq<Block>>, k: nat): (r: Result<seq<seq<Block>>>)
    requires |pos| == |mem|
    ensures r.Ok? ==> |r.value| == |mem|
    ensures r.Ok? ==> forall i :: 0 <= i < |mem| ==>
      r.value[i] == mem[i] ||
      (k <= i && r.value[i] == pos[i] && CrowFitness(dist, drone, pos[i]).Ok? && CrowFitness(dist, drone, mem[i]).Ok?
       && CrowFitness(dist, drone, pos[i]).value < CrowFitness(dist, drone, mem[i]).value)
    ensures r.Ok? ==> forall i :: k <= i < |mem| ==>
      CrowFitness(dist, drone, pos[i]).Ok? && CrowFitness(dist, drone, mem[i]).Ok?
      && (CrowFitness(dist, drone, pos[i]).value < CrowFitness(dist, drone, mem[i]).value ==> r.value[i] == pos[i])
    decreases |mem| - k
  {
    if k >= |mem| then Ok(mem)
    else match CrowFitness(dist, drone, pos[k])
      case Err(e) => Err(e)
      case Ok(fp) =>
        match CrowFitness(dist, drone, mem[k])
        case Err(e) => Err(e)
        case Ok(fm) =>
          var r := Update(dist, drone, if fp < fm then mem[k := pos[k]] else mem, pos, k + 1);
          assert r.Ok? ==> forall i :: 0 <= i < |mem| && i != k ==> (if fp < fm then mem[k := pos[k]] else mem)[i] == mem[i];
          r
  }

  /** `Best` from slot `k`: the loop that keeps the first memory of strictly
      smaller fitness than the one held. */
  function Best(dist: Metric, drone: Cell, mem: seq<seq<Block>>, cand: seq<Block>, k: nat): (r: Result<seq<Block>>)
    ensures r.Ok? ==> r.value == cand || exists i :: k <= i < |mem| && r.value == mem[i]
    ensures r.Ok? ==> |cand| > 0 && |r.value| > 0
    ensures r.Ok? ==> CrowFitness(dist, drone, r.value).value <= CrowFitness(dist, drone, cand).value
    ensures r.Ok? ==> forall i :: k <= i < |mem| ==>
      |mem[i]| > 0 && CrowFitness(dist, drone, r.value).value <= CrowFitness(dist, drone, mem[i]).value
    decreases |mem| - k
  {
    if k >= |mem| then
      match CrowFitness(dist, drone, cand)
      case Err(e) => Err(e)
      case Ok(_) => Ok(cand)
    else match CrowFitness(dist, drone, cand)
      case Err(e) => Err(e)
      case Ok(fc) =>
        match CrowFitness(dist, drone, mem[k])
        case Err(e) => Err(e)
        case Ok(fm) => Best(dist, drone, mem, if fc > fm then mem[k] else cand, k + 1)
  }

  /** The crows' memories and positions. */
  datatype Swarm = Swarm(mem: seq<seq<Block>>, pos: seq<seq<Block>>)

  /** The iterations from `it` to `maxiter`: every crow moves, then every
      memory is updated. A memory is only ever replaced by a strictly
      fitter solution, so each one ends no worse than it started. */
  function Iterate(dist: Metric, drone: Cell, ps: Pools, goal: seq<Block>, w: Swarm, it: nat, o: Draws): (r: Result<Drawn<Swarm>>)
    requires |w.pos| == |w.mem|
    ensures r.Ok? ==> |r.value.value.mem| == |w.mem| == |r.value.value.pos|
    ensures r.Ok? ==> forall i :: 0 <= i < |w.mem| ==>
      r.value.value.mem[i] == w.mem[i] ||
      (|w.mem[i]| > 0 && |r.value.value.mem[i]| > 0 &&
       CrowFitness(dist, drone, r.value.value.mem[i]).value < CrowFitness(dist, drone, w.mem[i]).value)
    decreases MaxIter - it
  {
    if it >= MaxIter then Ok(Drawn(w, o))
    else match MoveAll(ps, goal, w.mem, w.pos, 0, o)
      case Err(e) => Err(e)
      case Ok(m) =>
        match Update(dist, drone, w.mem, m.value, 0)
        case Err(e) => Err(e)
        case Ok(mem) => Iterate(dist, drone, ps, goal, Swarm(mem, m.value), it + 1, m.rest)
  }

  predicate SwarmSolves(ps: Pools, goal: seq<Block>, w: Swarm) {
    AllSolve(ps, goal, w.mem) && AllSolve(ps, goal, w.pos)
  }

  lemma {:induction false} IterateSolves(dist: Metric, drone: Cell, ps: Pools, goal: seq<Block>, w: Swarm, it: nat, o: Draws)
    requires |w.pos| == |w.mem| && SwarmSolves(ps, goal, w)
    ensures Iterate(dist, drone, ps, goal, w, it, o).Ok? ==> SwarmSolves(ps, goal, Iterate(dist, drone, ps, goal, w, it, o).value.value)
    decreases MaxIter - it
  {
    var r := Iterate(dist, drone, ps, goal, w, it, o);
    if it < MaxIter && r.Ok? {
      var m := MoveAll(ps, goal, w.mem, w.pos, 0, o).value;
      MoveAllSolves(ps, goal, w.mem, w.pos, 0, o);
      var mem := Update(dist, drone, w.mem, m.value, 0).value;
      assert AllSolve(ps, goal, mem) by {
        forall i | 0 <= i < |mem| ensures Solves(ps, goal, mem[i]) {
          assert mem[i] == w.mem[i] || mem[i] == m.value[i];
        }
      }
      assert r == Iterate(dist, drone, ps, goal, Swarm(mem, m.value), it + 1, m.rest);
      IterateSolves(dist, drone, ps, goal, Swarm(mem, m.value), it + 1, m.rest);
    }
  }

  /** The swarm after `run`'s iterations, from pools filed from the blocks. */
  function Search(dist: Metric, drone: Cell, blocks: seq<Block>, goal: seq<Block>, o: Draws): (r: Result<Drawn<Swarm>>)
    ensures r.Ok? ==> |r.value.value.mem| == Flock
  {
    var ps := OrganizeBlocks(blocks);
    match RandomSolutions(ps, goal, Flock, [], o)
    case Err(e) => Err(e)
    case Ok(c) => Iterate(dist, drone, ps, goal, Swarm(c.value, c.value), 0, c.rest)
  }

  /** What `run` returns: the fitness of the best memory, and that memory. */
  datatype Answer = Answer(score: real, best: seq<Block>)

  /** `run`: search, then pick a memory at random and walk the memories
      for a strictly fitter one. The answer is one of the final memories,
      no memory is fitter, and the score is its fitness. */
  function Run(dist: Metric, drone: Cell, blocks: seq<Block>, goal: seq<Block>, o: Draws): (r: Result<Answer>)
    ensures r.Ok? ==> |r.value.best| > 0 && r.value.score == CrowFitness(dist, drone, r.value.best).value
  {
    match Search(dist, drone, blocks, goal, o)
    case Err(e) => Err(e)
    case Ok(w) =>
      var mem := w.value.mem;
      match Choice(mem, w.rest)
      case Err(e) => Err(e)
      case Ok(c) =>
        match Best(dist, drone, mem, c.value, 0)
        case Err(e) => Err(e)
        case Ok(best) =>
          Ok(Answer(CrowFitness(dist, drone, best).value, best))
  }

  /** The answer is one of the final memories and no final memory is
      strictly fitter. */
  lemma RunMinimal(dist: Metric, drone: Cell, blocks: seq<Block>, goal: seq<Block>, o: Draws)
    ensures Run(dist, drone, blocks, goal, o).Ok? ==> Search(dist, drone, blocks, goal, o).Ok?
    ensures Run(dist, drone, blocks, goal, o).Ok? ==>
      var mem := Search(dist, drone, blocks, goal, o).value.value.mem;
      var a := Run(dist, drone, blocks, goal, o).value;
      && a.best in mem
      && forall i :: 0 <= i < |mem| ==> |mem[i]| > 0 && a.score <= CrowFitness(dist, drone, mem[i]).value
  {
    var r := Run(dist, drone, blocks, goal, o);
    if r.Ok? {
      var w := Search(dist, drone, blocks, goal, o).value;
      var mem := w.value.mem;
      var c := Choice(mem, w.rest).value;
      var best := Best(dist, drone, mem, c.value, 0).value;
      assert r.value.best == best;
    }
  }

  /** The answer assigns to every goal slot a distinct block of the slot's
      colour. */
  lemma RunFits(dist: Metric, drone: Cell, blocks: seq<Block>, goal: seq<Block>, o: Draws)
    ensures Run(dist, drone, blocks, goal, o).Ok? ==> Fits(blocks, goal, Run(dist, drone, blocks, goal, o).value.best)
  {
    var r := Run(dist, drone, blocks, goal, o);
    if r.Ok? {
      var ps := OrganizeBlocks(blocks);
      var c := RandomSolutions(ps, goal, Flock, [], o).value;
      IterateSolves(dist, drone, ps, goal, Swarm(c.value, c.value), 0, c.rest);
      var mem := Search(dist, drone, blocks, goal, o).value.value.mem;
      assert Solves(ps, goal, r.value.best);
      SolvesFits(blocks, goal, r.value.best);
    }
  }
}
