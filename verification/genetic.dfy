/** `GeneticAlgorithmTowerPlanner`: a tower of `height` blocks at column
    (x, z) whose colours repeat a pattern. A string is one candidate tower
    (slot i holds the block for level i); the population is refined by
    proportional selection, reduced-surrogate crossover and mutation, and
    every gene the operators add is an uncovered block of the slot's colour
    that the string does not hold yet. The world is only read: `state()`
    once in the constructor and `can_move_object` for the covered test. */
module Genetic {
  import opened Common
  import opened Labels
  import opened WorldModel
  import opened Oracle
  import opened PopulationAlgorithm

  /** The constructor's defaults. */
  const DefaultPopSize := 10
  const DefaultIters := 500
  const DefaultHeight := 40
  const DefaultPattern := "rbgy"

  /** What the constructor keeps: the world, the tower's column and height,
      the run's parameters, the expanded colour pattern, the world's state
      and the colour pools filed from it. */
  datatype Planner = Planner(
    world: World<ObjectId>, x: int, z: int, height: int,
    popSize: nat, iters: nat, mutateProb: real,
    pattern: seq<ObjectId>, state: seq<Block>, pools: Pools)

  // ---------------------------------------------------------------------
  // The colour pattern
  // ---------------------------------------------------------------------

  /** The colour a pattern letter names; every other character is skipped. */
  function LetterId(ch: char): (r: Option<ObjectId>)
    ensures r.Some? <==> ch in "rbgy"
    ensures r.Some? ==> r.value != DroneId
  {
    if ch == 'r' then Some(Red)
    else if ch == 'b' then Some(Blue)
    else if ch == 'g' then Some(Green)
    else if ch == 'y' then Some(Yellow)
    else None
  }

  /** One pass of the inner `for color in list(pattern)` loop. */
  function Letters(p: string): (r: seq<ObjectId>)
    ensures |r| <= |p|
    ensures forall i :: 0 <= i < |r| ==> r[i] != DroneId
  {
    if |p| == 0 then []
    else (match LetterId(p[0]) case Some(c) => [c] case None => []) + Letters(p[1..])
  }

  /** `k` whole copies of `letters`, one after another. */
  function Repeat(letters: seq<ObjectId>, k: nat): (r: seq<ObjectId>)
    ensures |r| == k * |letters|
  {
    if k == 0 then [] else Repeat(letters, k - 1) + letters
  }

  /** The `while len(self._pattern) != height` loop: every pass appends all
      the recognised letters, so the length steps through multiples of
      their count and the loop only stops on landing exactly on `height`. */
  function PatternFrom(letters: seq<ObjectId>, height: int, acc: seq<ObjectId>): (r: Result<seq<ObjectId>>)
    ensures r.Ok? ==> |r.value| == height
    decreases height - |acc|
  {
    if |acc| == height then Ok(acc)
    else if |letters| == 0 || |acc| > height then Err(Diverges)
    else PatternFrom(letters, height, acc + letters)
  }

  /** `t` whole copies of a positive `m` reach at least `m`. */
  lemma {:induction false} MulAtLeast(t: int, m: int)
    requires m > 0 && t >= 1
    ensures t * m >= m
    decreases t
  {
    if t > 1 {
      MulAtLeast(t - 1, m);
      assert t * m == (t - 1) * m + m;
    }
  }

  /** Quotient and remainder are the unique pair that rebuilds `n`. */
  lemma DivModUnique(n: int, m: int, q: int, r: int)
    requires m > 0 && n == q * m + r && 0 <= r < m
    ensures n / m == q && n % m == r
  {
    var q', r' := n / m, n % m;
    assert n == q' * m + r';
    assert (q - q') * m == r' - r;
    if q - q' >= 1 {
      MulAtLeast(q - q', m);
    } else if q' - q >= 1 {
      MulAtLeast(q' - q, m);
    }
  }

  /** From `k` passes in, the loop ends exactly when the remaining length
      is a whole number of passes, and then holds `height / m` copies. */
  lemma {:induction false} PatternFromRepeat(letters: seq<ObjectId>, height: int, k: nat)
    requires |letters| > 0
    ensures PatternFrom(letters, height, Repeat(letters, k))
         == if height >= k * |letters| && height % |letters| == 0 then Ok(Repeat(letters, height / |letters|))
            else Err(Diverges)
    decreases height - k * |letters|
  {
    var m := |letters|;
    var acc := Repeat(letters, k);
    if |acc| == height {
      DivModUnique(height, m, k, 0);
    } else if |acc| > height {
    } else {
      var next := Repeat(letters, k + 1);
      assert acc + letters == next;
      assert |next| == |acc| + m;
      if height < |next| {
        DivModUnique(height, m, k, height - |acc|);
        assert PatternFrom(letters, height, next) == Err(Diverges);
      } else {
        PatternFromRepeat(letters, height, k + 1);
      }
    }
  }

  /** The pattern the constructor builds: it exists exactly when `height` is
      zero or a positive whole number of passes over the recognised letters,
      and it is then that many whole copies of them; otherwise the
      constructor never returns. */
  function Pattern(p: string, height: int): (r: Result<seq<ObjectId>>)
    ensures r.Ok? <==> height == 0 || (|Letters(p)| > 0 && height > 0 && height % |Letters(p)| == 0)
    ensures r.Err? ==> r.error == Diverges
    ensures r.Ok? ==> |r.value| == height
    ensures r.Ok? && height > 0 ==> r.value == Repeat(Letters(p), height / |Letters(p)|)
    ensures r.Ok? ==> forall i :: 0 <= i < |r.value| ==> r.value[i] != DroneId
  {
    var letters := Letters(p);
    var res := PatternFrom(letters, height, []);
    if |letters| == 0 then res
    else
      assert Repeat(letters, 0) == [];
      PatternFromRepeat(letters, height, 0);
      RepeatColours(letters, if height > 0 then height / |letters| else 0);
      res
  }

  lemma {:induction false} RepeatColours(letters: seq<ObjectId>, k: nat)
    requires forall i :: 0 <= i < |letters| ==> letters[i] != DroneId
    ensures forall i :: 0 <= i < |Repeat(letters, k)| ==> Repeat(letters, k)[i] != DroneId
  {
    if k > 0 {
      RepeatColours(letters, k - 1);
    }
  }

  // ---------------------------------------------------------------------
  // Construction
  // ---------------------------------------------------------------------

  /** The constructor: the argument checks in the order the source makes
      them, then the pattern loop, then `state()` (which needs a drone),
      and the state's blocks filed into the colour pools. */
  function NewPlanner(w: World<ObjectId>, popSize: int, mutateProb: real, iters: int,
                      x: int, z: int, height: int, pattern: string): (r: Result<Planner>)
    ensures x < w.bounds.xMin || x > w.bounds.xMax ==> r == Err(ValueError)
    ensures z < w.bounds.zMin || z > w.bounds.zMax ==> r == Err(ValueError)
    ensures height > w.bounds.yMax - 1 ==> r == Err(ValueError)
    ensures popSize < 2 || popSize % 2 == 1 ==> r == Err(ValueError)
    ensures iters < 1 ==> r == Err(ValueError)
    ensures mutateProb < 0.0 || mutateProb > 100.0 ==> r == Err(ValueError)
    ensures r.Ok? <==>
      && w.bounds.xMin <= x <= w.bounds.xMax && w.bounds.zMin <= z <= w.bounds.zMax
      && height <= w.bounds.yMax - 1 && popSize >= 2 && popSize % 2 == 0 && iters >= 1
      && 0.0 <= mutateProb <= 100.0 && Pattern(pattern, height).Ok? && w.drone.Some?
    ensures r.Ok? ==> (
      && r.value.world == w && r.value.popSize == popSize && r.value.iters == iters
      && r.value.x == x && r.value.z == z && r.value.height == height
      && r.value.pattern == Pattern(pattern, height).value && |r.value.pattern| == height
      && r.value.state == State(w).value && r.value.pools == OrganizeBlocks(r.value.state))
  {
    if x < w.bounds.xMin || x > w.bounds.xMax then Err(ValueError)
    else if z < w.bounds.zMin || z > w.bounds.zMax then Err(ValueError)
    else if height > w.bounds.yMax - 1 then Err(ValueError)
    else if popSize < 2 then Err(ValueError)
    else if popSize % 2 > 0 then Err(ValueError)
    else if iters < 1 then Err(ValueError)
    else if mutateProb < 0.0 || mutateProb > 100.0 then Err(ValueError)
    else match Pattern(pattern, height)
      case Err(e) => Err(e)
      case Ok(pat) =>
        match State(w)
        case Err(e) => Err(e)
        case Ok(st) => Ok(Planner(w, x, z, height, popSize, iters, mutateProb, pat, st, OrganizeBlocks(st)))
  }

  /** What the constructor leaves for the operators: a colour-only pattern,
      a duplicate-free state and the pools filed from it. */
  predicate Ready(p: Planner) {
    && (forall i :: 0 <= i < |p.pattern| ==> p.pattern[i] != DroneId)
    && NoDup(p.state)
    && p.pools == OrganizeBlocks(p.state)
  }

  /** In a sound world no two objects share a cell, so no state entry repeats. */
  lemma NewPlannerReady(w: World<ObjectId>, popSize: int, mutateProb: real, iters: int,
                        x: int, z: int, height: int, pattern: string)
    requires Sound(w)
    requires NewPlanner(w, popSize, mutateProb, iters, x, z, height, pattern).Ok?
    ensures Ready(NewPlanner(w, popSize, mutateProb, iters, x, z, height, pattern).value)
  {
    var st := State(w).value;
    forall i, j | 0 <= i < j < |st| ensures st[i] != st[j] {
      if j < |w.blocks| {
        assert st[i].pos == w.blocks[i].pos && st[j].pos == w.blocks[j].pos;
      } else {
        assert st[i].pos == w.blocks[i].pos && st[j].pos == w.drone.value.body.pos;
      }
    }
  }

  // ---------------------------------------------------------------------
  // Covered blocks and fitness
  // ---------------------------------------------------------------------

  /** `_is_covered`: a block counts as covered unless the drone could move
      onto the cell right above it, so a block on the top layer of the world
      is covered too. */
  function IsCovered(w: World<ObjectId>, b: Block): (r: bool)
    ensures r <==> !InBounds(w.bounds, Vertical(b.pos, 1)) || Occupied(w, Vertical(b.pos, 1))
  {
    !CanMoveTo(w, Vertical(b.pos, 1))
  }

  /** `_fitness` from slot `k` on: the distance from each block to its level
      in the tower's column. */
  function FitnessFrom(dist: Metric, p: Planner, s: seq<Block>, k: nat): real
    decreases |s| - k
  {
    if k >= |s| then 0.0 else dist(s[k].pos, Cell(p.x, k, p.z)) + FitnessFrom(dist, p, s, k + 1)
  }

  function Fitness(dist: Metric, p: Planner, s: seq<Block>): real {
    FitnessFrom(dist, p, s, 0)
  }

  /** A string's slots from `k` on are already in place. */
  predicate PlacedFrom(p: Planner, s: seq<Block>, k: nat) {
    forall i :: k <= i < |s| ==> s[i].pos == Cell(p.x, i, p.z)
  }

  /** Under a metric the fitness is never negative, and it is zero exactly
      when every block already stands on its level of the column. */
  lemma {:induction false} FitnessFromZero(dist: Metric, p: Planner, s: seq<Block>, k: nat)
    requires IsMetric(dist)
    ensures FitnessFrom(dist, p, s, k) >= 0.0
    ensures FitnessFrom(dist, p, s, k) == 0.0 <==> PlacedFrom(p, s, k)
    decreases |s| - k
  {
    if k < |s| {
      FitnessFromZero(dist, p, s, k + 1);
      assert dist(s[k].pos, Cell(p.x, k, p.z)) >= 0.0;
      assert dist(s[k].pos, Cell(p.x, k, p.z)) == 0.0 <==> s[k].pos == Cell(p.x, k, p.z);
    }
  }

  lemma FitnessZero(dist: Metric, p: Planner, s: seq<Block>)
    requires IsMetric(dist)
    ensures Fitness(dist, p, s) >= 0.0
    ensures Fitness(dist, p, s) == 0.0 <==> forall i :: 0 <= i < |s| ==> s[i].pos == Cell(p.x, i, p.z)
  {
    FitnessFromZero(dist, p, s, 0);
  }

  // ---------------------------------------------------------------------
  // get_best_plan
  // ---------------------------------------------------------------------

  /** The scan of `get_best_plan` from index `i`, holding the earliest string
      of least fitness among the first `i`; a later string only replaces it
      when strictly fitter. */
  function BestFrom(dist: Metric, p: Planner, pop: seq<seq<Block>>, i: nat, best: nat): (r: nat)
    requires best < i <= |pop|
    requires forall j :: 0 <= j < best ==> Fitness(dist, p, pop[j]) > Fitness(dist, p, pop[best])
    requires forall j :: best < j < i ==> Fitness(dist, p, pop[j]) >= Fitness(dist, p, pop[best])
    ensures r < |pop|
    ensures forall j :: 0 <= j < r ==> Fitness(dist, p, pop[j]) > Fitness(dist, p, pop[r])
    ensures forall j :: r < j < |pop| ==> Fitness(dist, p, pop[j]) >= Fitness(dist, p, pop[r])
    decreases |pop| - i
  {
    if i == |pop| then best
    else if Fitness(dist, p, pop[i]) < Fitness(dist, p, pop[best]) then BestFrom(dist, p, pop, i + 1, i)
    else BestFrom(dist, p, pop, i + 1, best)
  }

  /** `get_best_plan`: an empty population (the planner has not run) is a
      RuntimeError; otherwise the earliest string of least fitness. */
  function BestPlan(dist: Metric, p: Planner, pop: seq<seq<Block>>): (r: Result<seq<Block>>)
    ensures r.Err? <==> |pop| == 0
    ensures r.Err? ==> r.error == RuntimeError
    ensures r.Ok? ==> exists k :: (
      && 0 <= k < |pop| && pop[k] == r.value
      && (forall j :: 0 <= j < k ==> Fitness(dist, p, pop[j]) > Fitness(dist, p, r.value))
      && (forall j :: 0 <= j < |pop| ==> Fitness(dist, p, r.value) <= Fitness(dist, p, pop[j])))
  {
    if |pop| == 0 then Err(RuntimeError)
    else
      var k := BestFrom(dist, p, pop, 1, 0);
      Ok(pop[k])
  }

  // ---------------------------------------------------------------------
  // The initial population
  // ---------------------------------------------------------------------

  /** A gene list fit for a string: no block twice, every block from the
      world's state and none of them covered. */
  predicate Genes(w: World<ObjectId>, state: seq<Block>, s: seq<Block>) {
    && NoDup(s)
    && forall i :: 0 <= i < |s| ==> s[i] in state && !IsCovered(w, s[i])
  }

  /** A string the planner can use: one gene per pattern slot, of the slot's
      colour. */
  predicate Chromosome(p: Planner, s: seq<Block>) {
    && |s| == |p.pattern|
    && Genes(p.world, p.state, s)
    && forall i :: 0 <= i < |s| ==> s[i].id == p.pattern[i]
  }

  /** The four shuffles at the top of every pass, in the source's order:
      red, blue, green, yellow. */
  function ShufflePools(ps: Pools, o: Draws): (r: Result<Drawn<Pools>>)
    ensures r.Err? ==> r.error == OracleExhausted
    ensures r.Ok? ==> |r.value.rest| <= |o|
    ensures r.Ok? ==> Permutes(ps, r.value.value)
  {
    match Shuffle(ps.red, o)
    case Err(e) => Err(e)
    case Ok(red) =>
      match Shuffle(ps.blue, red.rest)
      case Err(e) => Err(e)
      case Ok(blue) =>
        match Shuffle(ps.green, blue.rest)
        case Err(e) => Err(e)
        case Ok(green) =>
          match Shuffle(ps.yellow, green.rest)
          case Err(e) => Err(e)
          case Ok(yellow) => Ok(Drawn(Pools(red.value, green.value, blue.value, yellow.value), yellow.rest))
  }

  /** Each pool of `qs` holds the blocks of the same pool of `ps`. */
  predicate Permutes(ps: Pools, qs: Pools) {
    && multiset(qs.red) == multiset(ps.red) && multiset(qs.green) == multiset(ps.green)
    && multiset(qs.blue) == multiset(ps.blue) && multiset(qs.yellow) == multiset(ps.yellow)
  }

  /** The colour pools with the one for `c` replaced. */
  function WithPool(ls: Pools, c: ObjectId, l: seq<Block>): (r: Pools)
    requires c != DroneId
    ensures forall d :: d != DroneId ==> PoolOf(r, d) == if d == c then Some(l) else PoolOf(ls, d)
  {
    if c == Red then ls.(red := l)
    else if c == Green then ls.(green := l)
    else if c == Blue then ls.(blue := l)
    else ls.(yellow := l)
  }

  /** `block = pop(0)` repeated while the block is covered: the first
      uncovered block and what follows it, or an IndexError once the list
      runs dry. */
  function TakeUncovered(w: World<ObjectId>, l: seq<Block>): (r: Result<(Block, seq<Block>)>)
    ensures r.Err? <==> forall i :: 0 <= i < |l| ==> IsCovered(w, l[i])
    ensures r.Err? ==> r.error == IndexError
    ensures r.Ok? ==> (
      && |r.value.1| < |l| && r.value.1 == l[|l| - |r.value.1|..]
      && l[|l| - |r.value.1| - 1] == r.value.0 && !IsCovered(w, r.value.0))
    ensures r.Ok? ==> forall i :: 0 <= i < |l| - |r.value.1| - 1 ==> IsCovered(w, l[i])
  {
    if |l| == 0 then Err(IndexError)
    else if IsCovered(w, l[0]) then
      var r := TakeUncovered(w, l[1..]);
      assert forall i :: 1 <= i < |l| ==> l[i] == l[1..][i - 1];
      r
    else Ok((l[0], l[1..]))
  }

  /** The `for color in self._pattern` loop of one pass: each slot takes the
      first uncovered block left in its colour's shuffled list. */
  function Build(w: World<ObjectId>, pattern: seq<ObjectId>, ls: Pools, acc: seq<Block>): (r: Result<seq<Block>>)
    requires |acc| <= |pattern|
    requires forall i :: 0 <= i < |pattern| ==> pattern[i] != DroneId
    ensures r.Err? ==> r.error == IndexError
    ensures r.Ok? ==> |r.value| == |pattern| && r.value[..|acc|] == acc
    decreases |pattern| - |acc|
  {
    if |acc| == |pattern| then Ok(acc)
    else
      var c := pattern[|acc|];
      var l := PoolOf(ls, c).value;
      match TakeUncovered(w, l)
      case Err(e) => Err(e)
      case Ok((b, rest)) =>
        var r := Build(w, pattern, WithPool(ls, c, rest), acc + [b]);
        assert r.Ok? ==> r.value[..|acc|] == (acc + [b])[..|acc|];
        r
  }

  /** The lists still to draw from: duplicate-free, each holding blocks of
      its own colour from the state, none of them already in the string. */
  predicate Fresh(ls: Pools, state: seq<Block>, acc: seq<Block>) {
    forall c :: c != DroneId ==> FreshList(PoolOf(ls, c).value, c, state, acc)
  }

  predicate FreshList(l: seq<Block>, c: ObjectId, state: seq<Block>, acc: seq<Block>) {
    && NoDup(l)
    && forall x :: x in l ==> x.id == c && x in state && x !in acc
  }

  /** Taking a block off its list keeps the lists fresh for the longer
      string. */
  lemma TakeFresh(state: seq<Block>, ls: Pools, acc: seq<Block>, c: ObjectId, k: nat)
    requires c != DroneId && Fresh(ls, state, acc) && k < |PoolOf(ls, c).value|
    ensures var l := PoolOf(ls, c).value;
      && l[k].id == c && l[k] in state && l[k] !in acc
      && Fresh(WithPool(ls, c, l[k + 1..]), state, acc + [l[k]])
  {
    var l := PoolOf(ls, c).value;
    assert FreshList(l, c, state, acc);
    var ls' := WithPool(ls, c, l[k + 1..]);
    forall d | d != DroneId ensures FreshList(PoolOf(ls', d).value, d, state, acc + [l[k]]) {
      if d == c {
        FreshSuffix(l, c, state, acc, k);
      } else {
        assert PoolOf(ls', d) == PoolOf(ls, d);
        FreshOther(PoolOf(ls, d).value, d, state, acc, l[k]);
      }
    }
  }

  /** What follows the taken block on its own list stays fresh. */
  lemma FreshSuffix(l: seq<Block>, c: ObjectId, state: seq<Block>, acc: seq<Block>, k: nat)
    requires FreshList(l, c, state, acc) && k < |l|
    ensures FreshList(l[k + 1..], c, state, acc + [l[k]])
  {
    var rest := l[k + 1..];
    forall i, j | 0 <= i < j < |rest| ensures rest[i] != rest[j] {
      assert rest[i] == l[k + 1 + i] && rest[j] == l[k + 1 + j];
    }
    forall x | x in rest ensures x.id == c && x in state && x !in acc + [l[k]] {
      var j :| 0 <= j < |rest| && rest[j] == x;
      assert l[k + 1 + j] == x;
    }
  }

  /** A list of another colour cannot hold the taken block. */
  lemma FreshOther(l: seq<Block>, d: ObjectId, state: seq<Block>, acc: seq<Block>, b: Block)
    requires FreshList(l, d, state, acc) && b.id != d
    ensures FreshList(l, d, state, acc + [b])
  {
  }

  /** Every string a pass builds is a chromosome, given fresh lists. */
  lemma {:induction false} BuildGenes(w: World<ObjectId>, state: seq<Block>, pattern: seq<ObjectId>, ls: Pools, acc: seq<Block>)
    requires |acc| <= |pattern|
    requires forall i :: 0 <= i < |pattern| ==> pattern[i] != DroneId
    requires Fresh(ls, state, acc) && Genes(w, state, acc)
    requires forall i :: 0 <= i < |acc| ==> acc[i].id == pattern[i]
    ensures Build(w, pattern, ls, acc).Ok? ==>
      && Genes(w, state, Build(w, pattern, ls, acc).value)
      && forall i :: 0 <= i < |pattern| ==> Build(w, pattern, ls, acc).value[i].id == pattern[i]
    decreases |pattern| - |acc|
  {
    if |acc| < |pattern| {
      var c := pattern[|acc|];
      var l := PoolOf(ls, c).value;
      if TakeUncovered(w, l).Ok? {
        var (b, rest) := TakeUncovered(w, l).value;
        TakeFresh(state, ls, acc, c, |l| - |rest| - 1);
        NoDupAppend(acc, b);
        BuildGenes(w, state, pattern, WithPool(ls, c, rest), acc + [b]);
      }
    }
  }

  /** The shuffled copies of the pools filed from a duplicate-free state are
      fresh for an empty string. */
  lemma ShuffledFresh(p: Planner, qs: Pools)
    requires Ready(p)
    requires Permutes(p.pools, qs)
    ensures Fresh(qs, p.state, [])
  {
    forall c | c != DroneId ensures FreshList(PoolOf(qs, c).value, c, p.state, []) {
      OrganizeFiltersAt(p.state, c);
      FilterNoDup(p.state, OfId(c));
      NoDupPerm(PoolOf(p.pools, c).value, PoolOf(qs, c).value);
      forall x | x in PoolOf(qs, c).value ensures x.id == c && x in p.state {
        assert x in multiset(PoolOf(p.pools, c).value);
        OrganizedMembers(p.state, c, x);
      }
    }
  }

  /** One pass over shuffled copies of the pools builds a chromosome. */
  lemma PassChromosome(p: Planner, qs: Pools)
    requires Ready(p) && Permutes(p.pools, qs)
    requires Build(p.world, p.pattern, qs, []).Ok?
    ensures Chromosome(p, Build(p.world, p.pattern, qs, []).value)
  {
    ShuffledFresh(p, qs);
    BuildGenes(p.world, p.state, p.pattern, qs, []);
  }

  /** `_initialize_population`: passes repeat until `pop_size` distinct
      strings are in; a pass whose string is already in is dropped. A pass
      that used no random numbers (every pool holds at most one block) would
      build the same string forever, so a repeat there never terminates. */
  function Populate(p: Planner, pop: seq<seq<Block>>, o: Draws): (r: Result<Drawn<seq<seq<Block>>>>)
    requires |pop| <= p.popSize
    requires forall i :: 0 <= i < |p.pattern| ==> p.pattern[i] != DroneId
    ensures r.Ok? ==> |r.value.value| == p.popSize
    ensures r.Err? ==> r.error in {IndexError, OracleExhausted, Diverges}
    decreases |o|, p.popSize - |pop|
  {
    if |pop| == p.popSize then Ok(Drawn(pop, o))
    else match ShufflePools(p.pools, o)
      case Err(e) => Err(e)
      case Ok(sh) =>
        match Build(p.world, p.pattern, sh.value, [])
        case Err(e) => Err(e)
        case Ok(s) =>
          if s in pop then
            if |sh.rest| == |o| then Err(Diverges)
            else Populate(p, pop, sh.rest)
          else Populate(p, pop + [s], sh.rest)
  }

  /** One pass of the loop, for the strings it keeps. */
  lemma PopulateStep(p: Planner, pop: seq<seq<Block>>, o: Draws) returns (pop': seq<seq<Block>>, rest: Draws)
    requires Ready(p) && |pop| < p.popSize
    requires NoDup(pop) && forall i :: 0 <= i < |pop| ==> Chromosome(p, pop[i])
    requires Populate(p, pop, o).Ok?
    ensures |pop| <= |pop'| <= p.popSize
    ensures Populate(p, pop, o) == Populate(p, pop', rest)
    ensures |rest| < |o| || (|rest| == |o| && |pop'| > |pop|)
    ensures NoDup(pop') && forall i :: 0 <= i < |pop'| ==> Chromosome(p, pop'[i])
  {
    var sh := ShufflePools(p.pools, o).value;
    var b := Build(p.world, p.pattern, sh.value, []).value;
    PassChromosome(p, sh.value);
    rest := sh.rest;
    if b in pop {
      pop' := pop;
    } else {
      pop' := pop + [b];
      JoinChromosome(p, pop, b);
    }
  }

  /** A new chromosome joins a population of distinct chromosomes. */
  lemma JoinChromosome(p: Planner, pop: seq<seq<Block>>, b: seq<Block>)
    requires NoDup(pop) && forall i :: 0 <= i < |pop| ==> Chromosome(p, pop[i])
    requires Chromosome(p, b) && b !in pop
    ensures NoDup(pop + [b]) && forall i :: 0 <= i < |pop + [b]| ==> Chromosome(p, (pop + [b])[i])
  {
    NoDupAppend(pop, b);
  }

  /** Every string of the initial population is a chromosome. */
  lemma {:induction false} PopulateChromosomes(p: Planner, pop: seq<seq<Block>>, o: Draws)
    requires Ready(p) && |pop| <= p.popSize
    requires NoDup(pop) && forall i :: 0 <= i < |pop| ==> Chromosome(p, pop[i])
    ensures Populate(p, pop, o).Ok? ==> (
      && NoDup(Populate(p, pop, o).value.value)
      && forall i :: 0 <= i < p.popSize ==> Chromosome(p, Populate(p, pop, o).value.value[i]))
    decreases |o|, p.popSize - |pop|
  {
    if |pop| < p.popSize && Populate(p, pop, o).Ok? {
      var pop', rest := PopulateStep(p, pop, o);
      PopulateChromosomes(p, pop', rest);
    }
  }

  /** `_initialize_population` from scratch: `pop_size` pairwise distinct
      chromosomes. */
  function Initialize(p: Planner, o: Draws): (r: Result<Drawn<seq<seq<Block>>>>)
    requires Ready(p)
    ensures r.Ok? ==> |r.value.value| == p.popSize && NoDup(r.value.value)
    ensures r.Ok? ==> forall i :: 0 <= i < |r.value.value| ==> Chromosome(p, r.value.value[i])
    ensures r.Err? ==> r.error in {IndexError, OracleExhausted, Diverges}
  {
    PopulateChromosomes(p, [], o);
    Populate(p, [], o)
  }

  // ---------------------------------------------------------------------
  // Selection
  // ---------------------------------------------------------------------

  /** `random.uniform(0, 1)`, read off the oracle in hundredths. */
  function Uniform(o: Draws): (r: Result<Drawn<real>>)
    ensures |o| == 0 <==> r == Err(OracleExhausted)
    ensures r.Ok? ==> 0.0 <= r.value.value <= 1.0 && r.value.rest == o[1..]
  {
    if |o| == 0 then Err(OracleExhausted) else Ok(Drawn((o[0] % 101) as real / 100.0, o[1..]))
  }

  /** `fitness_sum` over the strings from `k` on. */
  function FitnessSum(dist: Metric, p: Planner, pop: seq<seq<Block>>, k: nat): real
    decreases |pop| - k
  {
    if k >= |pop| then 0.0 else Fitness(dist, p, pop[k]) + FitnessSum(dist, p, pop, k + 1)
  }

  /** Under a metric the sum is zero exactly when every string from `k` on
      is already standing in the column. */
  lemma {:induction false} FitnessSumZero(dist: Metric, p: Planner, pop: seq<seq<Block>>, k: nat)
    requires IsMetric(dist)
    ensures FitnessSum(dist, p, pop, k) >= 0.0
    ensures FitnessSum(dist, p, pop, k) == 0.0 <==> forall i :: k <= i < |pop| ==> Fitness(dist, p, pop[i]) == 0.0
    decreases |pop| - k
  {
    if k < |pop| {
      FitnessSumZero(dist, p, pop, k + 1);
      FitnessZero(dist, p, pop[k]);
    }
  }

  /** The roulette loop: walk round the population, one uniform draw per
      visit, keeping the string when the draw is at most its share of the
      fitness sum, until as many strings are kept as there are. */
  function Spin(dist: Metric, p: Planner, pop: seq<seq<Block>>, sum: real, index: nat,
                sel: seq<seq<Block>>, o: Draws): (r: Result<Drawn<seq<seq<Block>>>>)
    requires index < |pop| && |sel| <= |pop| && sum != 0.0
    ensures r.Err? ==> r.error == OracleExhausted
    ensures r.Ok? ==> |r.value.value| == |pop| && r.value.value[..|sel|] == sel
    ensures r.Ok? ==> forall i :: |sel| <= i < |pop| ==> r.value.value[i] in pop
    decreases |o|
  {
    if |sel| == |pop| then Ok(Drawn(sel, o))
    else match Uniform(o)
      case Err(e) => Err(e)
      case Ok(u) =>
        var sel' := if u.value <= Fitness(dist, p, pop[index]) / sum then sel + [pop[index]] else sel;
        var next := if index + 1 == |pop| then 0 else index + 1;
        var r := Spin(dist, p, pop, sum, next, sel', u.rest);
        assert r.Ok? ==> r.value.value[..|sel|] == sel'[..|sel|];
        r
  }

  /** `_selection`: as many strings as the population holds, each one of
      them; a population whose fitness sum is zero divides by zero. */
  function Selection(dist: Metric, p: Planner, pop: seq<seq<Block>>, o: Draws): (r: Result<Drawn<seq<seq<Block>>>>)
    ensures r.Err? ==> r.error in {ZeroDivisionError, OracleExhausted}
    ensures r == Err(ZeroDivisionError) <==> |pop| > 0 && FitnessSum(dist, p, pop, 0) == 0.0
    ensures r.Ok? ==> |r.value.value| == |pop| && forall i :: 0 <= i < |pop| ==> r.value.value[i] in pop
  {
    if |pop| == 0 then Ok(Drawn([], o))
    else if FitnessSum(dist, p, pop, 0) == 0.0 then Err(ZeroDivisionError)
    else Spin(dist, p, pop, FitnessSum(dist, p, pop, 0), 0, [], o)
  }

  /** Selection only divides by zero when every string is already the
      finished tower. */
  lemma SelectionZero(dist: Metric, p: Planner, pop: seq<seq<Block>>, o: Draws)
    requires IsMetric(dist)
    ensures Selection(dist, p, pop, o) == Err(ZeroDivisionError) <==>
      |pop| > 0 && forall i :: 0 <= i < |pop| ==> PlacedFrom(p, pop[i], 0)
  {
    FitnessSumZero(dist, p, pop, 0);
    forall i | 0 <= i < |pop| ensures Fitness(dist, p, pop[i]) == 0.0 <==> PlacedFrom(p, pop[i], 0) {
      FitnessZero(dist, p, pop[i]);
    }
  }

  // ---------------------------------------------------------------------
  // Recombination and mutation
  // ---------------------------------------------------------------------

  /** `while element in string or self._is_covered(element)`: redraw the
      gene from the whole pool of its colour until it is new to the string
      and uncovered. An empty pool makes `randint(0, -1)` a ValueError; a
      drone entry matches no colour, never changes, and spins forever. */
  function Redraw(p: Planner, s: seq<Block>, e: Block, o: Draws): (r: Result<Drawn<Block>>)
    ensures r.Ok? ==> r.value.value !in s && !IsCovered(p.world, r.value.value) && |r.value.rest| <= |o|
    ensures e !in s && !IsCovered(p.world, e) ==> r == Ok(Drawn(e, o))
    ensures r.Err? ==> r.error in {Diverges, ValueError, OracleExhausted}
    decreases |o|
  {
    if e !in s && !IsCovered(p.world, e) then Ok(Drawn(e, o))
    else match PoolOf(p.pools, e.id)
      case None => Err(Diverges)
      case Some(pool) =>
        match RandInt(0, |pool| - 1, o)
        case Err(err) => Err(err)
        case Ok(d) => Redraw(p, s, pool[d.value], d.rest)
  }

  /** A redrawn gene keeps its colour and comes from the state. */
  lemma {:induction false} RedrawGene(p: Planner, s: seq<Block>, e: Block, o: Draws)
    requires Ready(p) && e in p.state
    ensures Redraw(p, s, e, o).Ok? ==> Redraw(p, s, e, o).value.value.id == e.id && Redraw(p, s, e, o).value.value in p.state
    decreases |o|
  {
    if !(e !in s && !IsCovered(p.world, e)) && e.id != DroneId {
      var pool := PoolOf(p.pools, e.id).value;
      var d := RandInt(0, |pool| - 1, o);
      if d.Ok? {
        OrganizedMembers(p.state, e.id, pool[d.value.value]);
        RedrawGene(p, s, pool[d.value.value], d.value.rest);
      }
    }
  }

  /** The `for element in ...` loops of `_recombination`: each incoming gene,
      redrawn as needed, joins the end of the kept prefix. */
  function Rebuild(p: Planner, acc: seq<Block>, genes: seq<Block>, o: Draws): (r: Result<Drawn<seq<Block>>>)
    ensures r.Err? ==> r.error in {Diverges, ValueError, OracleExhausted}
    ensures r.Ok? ==> |r.value.value| == |acc| + |genes| && r.value.value[..|acc|] == acc
    ensures r.Ok? && NoDup(acc) ==> NoDup(r.value.value)
    ensures r.Ok? ==> forall i :: |acc| <= i < |r.value.value| ==> !IsCovered(p.world, r.value.value[i])
    decreases |genes|
  {
    if |genes| == 0 then Ok(Drawn(acc, o))
    else match Redraw(p, acc, genes[0], o)
      case Err(e) => Err(e)
      case Ok(d) =>
        var r := Rebuild(p, acc + [d.value], genes[1..], d.rest);
        assert NoDup(acc) ==> NoDup(acc + [d.value]) by {
          if NoDup(acc) { NoDupAppend(acc, d.value); }
        }
        assert r.Ok? ==> r.value.value[..|acc|] == (acc + [d.value])[..|acc|];
        r
  }

  /** Rebuilt genes keep the colours of the genes they replace and come
      from the state. */
  lemma {:induction false} RebuildGenes(p: Planner, acc: seq<Block>, genes: seq<Block>, o: Draws)
    requires Ready(p) && forall i :: 0 <= i < |genes| ==> genes[i] in p.state
    requires forall i :: 0 <= i < |acc| ==> acc[i] in p.state
    ensures Rebuild(p, acc, genes, o).Ok? ==> forall i :: |acc| <= i < |acc| + |genes| ==>
      Rebuild(p, acc, genes, o).value.value[i].id == genes[i - |acc|].id
      && Rebuild(p, acc, genes, o).value.value[i] in p.state
    decreases |genes|
  {
    if |genes| > 0 {
      var d := Redraw(p, acc, genes[0], o);
      RedrawGene(p, acc, genes[0], o);
      if d.Ok? {
        var acc' := acc + [d.value.value];
        var r := Rebuild(p, acc, genes, o);
        assert r == Rebuild(p, acc', genes[1..], d.value.rest);
        RebuildGenes(p, acc', genes[1..], d.value.rest);
        if r.Ok? {
          GenesShift(p.state, acc, acc', genes, genes[1..], r.value.value);
        }
      }
    }
  }

  /** The step of the induction above, about sequences only: the first
      redrawn gene and the rebuilt rest line up with `genes`. */
  lemma GenesShift(state: seq<Block>, acc: seq<Block>, acc': seq<Block>, genes: seq<Block>, tail: seq<Block>, out: seq<Block>)
    requires |genes| > 0 && tail == genes[1..] && |acc'| == |acc| + 1
    requires acc'[|acc|].id == genes[0].id && acc'[|acc|] in state
    requires |out| == |acc'| + |tail| && out[..|acc'|] == acc'
    requires forall i :: |acc'| <= i < |acc'| + |tail| ==> out[i].id == tail[i - |acc'|].id && out[i] in state
    ensures forall i :: |acc| <= i < |acc| + |genes| ==> out[i].id == genes[i - |acc|].id && out[i] in state
  {
    forall i | |acc| <= i < |acc| + |genes|
      ensures out[i].id == genes[i - |acc|].id && out[i] in state
    {
      if i == |acc| {
        assert out[i] == out[..|acc'|][i] == acc'[i];
      } else {
        assert tail[i - |acc'|] == genes[i - |acc|];
      }
    }
  }

  /** The indices below `|a|`, from `j` on, where the parents differ. */
  function DiffPoints(a: seq<Block>, b: seq<Block>, j: nat): (r: seq<nat>)
    requires |a| <= |b|
    ensures forall k :: k in r <==> j <= k < |a| && a[k] != b[k]
    decreases |a| - j
  {
    if j >= |a| then [] else (if a[j] != b[j] then [j] else []) + DiffPoints(a, b, j + 1)
  }

  /** The two children for cut point `cp`: each keeps its own parent's
      prefix and takes the other parent's tail, redrawn gene by gene. */
  function Cross(p: Planner, a: seq<Block>, b: seq<Block>, cp: nat, o: Draws): (r: Result<Drawn<(seq<Block>, seq<Block>)>>)
    requires cp <= |a| <= |b|
    ensures r.Err? ==> r.error in {Diverges, ValueError, OracleExhausted}
    ensures r.Ok? ==> (
      && |r.value.value.0| == |b| && |r.value.value.1| == |a|
      && r.value.value.0[..cp] == a[..cp] && r.value.value.1[..cp] == b[..cp])
    ensures r.Ok? ==> forall i :: cp <= i < |b| ==> !IsCovered(p.world, r.value.value.0[i])
    ensures r.Ok? ==> forall i :: cp <= i < |a| ==> !IsCovered(p.world, r.value.value.1[i])
    ensures r.Ok? && NoDup(a[..cp]) ==> NoDup(r.value.value.0)
    ensures r.Ok? && NoDup(b[..cp]) ==> NoDup(r.value.value.1)
  {
    match Rebuild(p, a[..cp], b[cp..], o)
    case Err(e) => Err(e)
    case Ok(na) =>
      match Rebuild(p, b[..cp], a[cp..], na.rest)
      case Err(e) => Err(e)
      case Ok(nb) => Ok(Drawn((na.value, nb.value), nb.rest))
  }

  /** `_recombination` (reduced surrogate crossover): equal parents come back
      as they are; otherwise the cut is a random index where they differ.
      A second parent shorter than the first runs off its end, and parents
      that only differ in length leave no cut point: both are IndexErrors. */
  function Recombine(p: Planner, a: seq<Block>, b: seq<Block>, o: Draws): (r: Result<Drawn<(seq<Block>, seq<Block>)>>)
    ensures a == b ==> r == Ok(Drawn((a, b), o))
    ensures a != b && |b| < |a| ==> r == Err(IndexError)
    ensures r.Err? ==> r.error in {IndexError, Diverges, ValueError, OracleExhausted}
    ensures r.Ok? && a != b ==>
      exists cp: nat, o': Draws :: cp < |a| <= |b| && a[cp] != b[cp] && r == Cross(p, a, b, cp, o')
  {
    if a == b then Ok(Drawn((a, b), o))
    else if |b| < |a| then Err(IndexError)
    else
      var points := DiffPoints(a, b, 0);
      match Shuffle(points, o)
      case Err(e) => Err(e)
      case Ok(sh) =>
        if |sh.value| == 0 then Err(IndexError)
        else
          var cp := sh.value[0];
          assert cp in multiset(points);
          assert cp in points;
          Cross(p, a, b, cp, sh.rest)
  }

  /** Crossing two chromosomes of one length yields two chromosomes. */
  lemma CrossChromosomes(p: Planner, a: seq<Block>, b: seq<Block>, cp: nat, o: Draws)
    requires Ready(p) && Chromosome(p, a) && Chromosome(p, b) && cp <= |a|
    ensures Cross(p, a, b, cp, o).Ok? ==>
      Chromosome(p, Cross(p, a, b, cp, o).value.value.0) && Chromosome(p, Cross(p, a, b, cp, o).value.value.1)
  {
    var na := Rebuild(p, a[..cp], b[cp..], o);
    RebuiltChild(p, a, b, cp, o);
    if na.Ok? {
      var nb := Rebuild(p, b[..cp], a[cp..], na.value.rest);
      RebuiltChild(p, b, a, cp, na.value.rest);
      if nb.Ok? {
        assert Cross(p, a, b, cp, o) == Ok(Drawn((na.value.value, nb.value.value), nb.value.rest));
      }
    }
  }

  /** One child of a cross is a chromosome. */
  lemma RebuiltChild(p: Planner, a: seq<Block>, b: seq<Block>, cp: nat, o: Draws)
    requires Ready(p) && Chromosome(p, a) && Chromosome(p, b) && cp <= |a|
    ensures Rebuild(p, a[..cp], b[cp..], o).Ok? ==> Chromosome(p, Rebuild(p, a[..cp], b[cp..], o).value.value)
  {
    var na := Rebuild(p, a[..cp], b[cp..], o);
    if na.Ok? {
      assert NoDup(a[..cp]) by {
        PrefixNoDup(a, cp);
      }
      RebuildGenes(p, a[..cp], b[cp..], o);
      ChildChromosome(p, a, b, cp, na.value.value, a[..cp], b[cp..]);
    }
  }

  lemma PrefixNoDup(s: seq<Block>, k: nat)
    requires NoDup(s) && k <= |s|
    ensures NoDup(s[..k])
  {
    forall i, j | 0 <= i < j < k ensures s[..k][i] != s[..k][j] {
      assert s[..k][i] == s[i] && s[..k][j] == s[j];
    }
  }

  /** A child with its own parent's prefix and recoloured, uncovered,
      duplicate-free genes matching the other parent's tail. */
  lemma ChildChromosome(p: Planner, a: seq<Block>, b: seq<Block>, cp: nat, c: seq<Block>, acc: seq<Block>, genes: seq<Block>)
    requires Chromosome(p, a) && Chromosome(p, b) && cp <= |a|
    requires acc == a[..cp] && genes == b[cp..]
    requires |c| == |b| && c[..cp] == a[..cp] && NoDup(c)
    requires forall i :: cp <= i < |b| ==> !IsCovered(p.world, c[i])
    requires forall i :: |acc| <= i < |acc| + |genes| ==> c[i].id == genes[i - |acc|].id && c[i] in p.state
    ensures Chromosome(p, c)
  {
    forall i | 0 <= i < |c| ensures c[i].id == p.pattern[i] && c[i] in p.state && !IsCovered(p.world, c[i]) {
      if i < cp {
        assert c[i] == c[..cp][i] == a[i];
      } else {
        assert b[cp..][i - cp] == b[i];
      }
    }
  }

  /** Recombining two chromosomes of one length yields two chromosomes. */
  lemma RecombineChromosomes(p: Planner, a: seq<Block>, b: seq<Block>, o: Draws)
    requires Ready(p) && Chromosome(p, a) && Chromosome(p, b)
    ensures Recombine(p, a, b, o).Ok? ==>
      Chromosome(p, Recombine(p, a, b, o).value.value.0) && Chromosome(p, Recombine(p, a, b, o).value.value.1)
  {
    var r := Recombine(p, a, b, o);
    if r.Ok? && a != b {
      var cp: nat, o': Draws :| cp < |a| <= |b| && a[cp] != b[cp] && r == Cross(p, a, b, cp, o');
      CrossChromosomes(p, a, b, cp, o');
    }
  }

  /** `_mutate` from slot `i` on: one uniform draw per slot, and a slot whose
      draw is at most `mutate_prob` gets its gene redrawn against the string
      as it stands, which always replaces the gene since the gene is in the
      string already. */
  function MutateFrom(p: Planner, s: seq<Block>, i: nat, o: Draws): (r: Result<Drawn<seq<Block>>>)
    requires i <= |s|
    ensures r.Err? ==> r.error in {Diverges, ValueError, OracleExhausted}
    ensures r.Ok? ==> |r.value.value| == |s| && r.value.value[..i] == s[..i]
    ensures r.Ok? ==> forall j :: i <= j < |s| && r.value.value[j] != s[j] ==> !IsCovered(p.world, r.value.value[j])
    ensures r.Ok? && NoDup(s) ==> NoDup(r.value.value)
    decreases |s| - i
  {
    if i == |s| then Ok(Drawn(s, o))
    else match Uniform(o)
      case Err(e) => Err(e)
      case Ok(u) =>
        if u.value <= p.mutateProb then
          match Redraw(p, s, s[i], u.rest)
          case Err(e) => Err(e)
          case Ok(d) =>
            var r := MutateFrom(p, s[i := d.value], i + 1, d.rest);
            assert NoDup(s) ==> NoDup(s[i := d.value]) by {
              if NoDup(s) { NoDupUpdate(s, i, d.value); }
            }
            assert r.Ok? ==> r.value.value[i] == r.value.value[..i + 1][i];
            r
        else MutateFrom(p, s, i + 1, u.rest)
  }

  function Mutate(p: Planner, s: seq<Block>, o: Draws): (r: Result<Drawn<seq<Block>>>)
    ensures r.Err? ==> r.error in {Diverges, ValueError, OracleExhausted}
    ensures r.Ok? ==> |r.value.value| == |s|
    ensures r.Ok? ==> forall j :: 0 <= j < |s| && r.value.value[j] != s[j] ==> !IsCovered(p.world, r.value.value[j])
    ensures r.Ok? && NoDup(s) ==> NoDup(r.value.value)
  {
    MutateFrom(p, s, 0, o)
  }

  /** A gene swapped for an uncovered block of the same colour from the
      state, not yet in the string, leaves a chromosome. */
  lemma ChromosomeUpdate(p: Planner, s: seq<Block>, i: nat, x: Block)
    requires Chromosome(p, s) && i < |s|
    requires x.id == s[i].id && x in p.state && x !in s && !IsCovered(p.world, x)
    ensures Chromosome(p, s[i := x])
  {
    NoDupUpdate(s, i, x);
  }

  lemma {:induction false} MutateFromGenes(p: Planner, s: seq<Block>, i: nat, o: Draws)
    requires Ready(p) && i <= |s| && Chromosome(p, s)
    ensures MutateFrom(p, s, i, o).Ok? ==> Chromosome(p, MutateFrom(p, s, i, o).value.value)
    decreases |s| - i
  {
    if i < |s| {
      var u := Uniform(o);
      if u.Ok? {
        if u.value.value <= p.mutateProb {
          var d := Redraw(p, s, s[i], u.value.rest);
          RedrawGene(p, s, s[i], u.value.rest);
          if d.Ok? {
            ChromosomeUpdate(p, s, i, d.value.value);
            MutateFromGenes(p, s[i := d.value.value], i + 1, d.value.rest);
          }
        } else {
          MutateFromGenes(p, s, i + 1, u.value.rest);
        }
      }
    }
  }

  // ---------------------------------------------------------------------
  // Iterations and run
  // ---------------------------------------------------------------------

  /** A pair of parents. */
  type Pair = (seq<Block>, seq<Block>)

  /** The pairs `run` forms, as written: `(selection[i], selection[i * 2])`
      for `i < len(selection) / 2`. */
  function PairsAsWritten(sel: seq<seq<Block>>): (r: seq<Pair>)
    ensures |r| == |sel| / 2
    ensures forall i :: 0 <= i < |r| ==> r[i].0 == sel[i] && r[i].1 == sel[2 * i]
  {
    seq(|sel| / 2, i requires 0 <= i < |sel| / 2 => (sel[i], sel[2 * i]))
  }

  /** As written, the first pair is one string twice, so its crossover hands
      back the string unchanged and spends no random number. */
  lemma FirstPairAsWrittenUnchanged(p: Planner, sel: seq<seq<Block>>, o: Draws)
    requires |sel| >= 2
    ensures PairsAsWritten(sel)[0] == (sel[0], sel[0])
    ensures Recombine(p, PairsAsWritten(sel)[0].0, PairsAsWritten(sel)[0].1, o) == Ok(Drawn((sel[0], sel[0]), o))
  {
    assert PairsAsWritten(sel)[0].1 == sel[2 * 0];
  }

  /** As written, the last string of an even selection of four or more is
      never a parent. */
  lemma LastAsWrittenUnused(sel: seq<seq<Block>>)
    requires |sel| >= 4 && |sel| % 2 == 0
    ensures forall i :: 0 <= i < |sel| / 2 ==> i != |sel| - 1 && 2 * i != |sel| - 1
  {
  }

  /** The corrected pairing: consecutive strings, `(selection[2i], selection[2i + 1])`. */
  function Pairs(sel: seq<seq<Block>>): (r: seq<Pair>)
    ensures |r| == |sel| / 2
    decreases |sel|
  {
    if |sel| < 2 then [] else [(sel[0], sel[1])] + Pairs(sel[2..])
  }

  /** The parents of a list of pairs, in order. */
  function Parents(ps: seq<Pair>): seq<seq<Block>> {
    if |ps| == 0 then [] else [ps[0].0, ps[0].1] + Parents(ps[1..])
  }

  /** With the corrected pairing every string of an even selection is a
      parent exactly once, in selection order. */
  lemma {:induction false} PairsCover(sel: seq<seq<Block>>)
    requires |sel| % 2 == 0
    ensures Parents(Pairs(sel)) == sel
    decreases |sel|
  {
    if |sel| >= 2 {
      PairsCover(sel[2..]);
      assert [sel[0], sel[1]] + sel[2..] == sel;
    }
  }

  /** The body of the `for i` loop over the pairs: crossover, then mutation
      of each child. */
  function Offspring(p: Planner, pair: Pair, o: Draws): (r: Result<Drawn<Pair>>)
    ensures r.Err? ==> r.error in {IndexError, Diverges, ValueError, OracleExhausted}
  {
    match Recombine(p, pair.0, pair.1, o)
    case Err(e) => Err(e)
    case Ok(x) =>
      match Mutate(p, x.value.0, x.rest)
      case Err(e) => Err(e)
      case Ok(a) =>
        match Mutate(p, x.value.1, a.rest)
        case Err(e) => Err(e)
        case Ok(b) => Ok(Drawn((a.value, b.value), b.rest))
  }

  /** What one pair of parents yields, seen from outside. */
  type Brood = (Pair, Draws) -> Result<Drawn<Pair>>

  /** The loop over the pairs: both children of every pair join the new
      population, in the order of the pairs. */
  function BreedWith(brood: Brood, ps: seq<Pair>, o: Draws): (r: Result<Drawn<seq<seq<Block>>>>)
    ensures r.Ok? ==> |r.value.value| == 2 * |ps|
    decreases |ps|
  {
    if |ps| == 0 then Ok(Drawn([], o))
    else match brood(ps[0], o)
      case Err(e) => Err(e)
      case Ok(x) =>
        match BreedWith(brood, ps[1..], x.rest)
        case Err(e) => Err(e)
        case Ok(more) => Ok(Drawn([x.value.0, x.value.1] + more.value, more.rest))
  }

  /** Breeding fails only with errors a single pair can fail with. */
  lemma {:induction false} BreedWithErrors(brood: Brood, errs: set<Error>, ps: seq<Pair>, o: Draws)
    requires forall pair, d :: brood(pair, d).Err? ==> brood(pair, d).error in errs
    ensures BreedWith(brood, ps, o).Err? ==> BreedWith(brood, ps, o).error in errs
    decreases |ps|
  {
    if |ps| > 0 && brood(ps[0], o).Ok? {
      BreedWithErrors(brood, errs, ps[1..], brood(ps[0], o).value.rest);
    }
  }

  /** A property of strings that every pair hands down to its children holds
      of the whole new population when it holds of every parent. */
  lemma {:induction false} BreedWithKeeps(brood: Brood, inv: seq<Block> -> bool, ps: seq<Pair>, o: Draws)
    requires forall i :: 0 <= i < |ps| ==> inv(ps[i].0) && inv(ps[i].1)
    requires forall pair: Pair, d :: inv(pair.0) && inv(pair.1) && brood(pair, d).Ok? ==>
      inv(brood(pair, d).value.value.0) && inv(brood(pair, d).value.value.1)
    ensures BreedWith(brood, ps, o).Ok? ==>
      forall i :: 0 <= i < |BreedWith(brood, ps, o).value.value| ==> inv(BreedWith(brood, ps, o).value.value[i])
    decreases |ps|
  {
    if |ps| > 0 && brood(ps[0], o).Ok? {
      var x := brood(ps[0], o).value;
      BreedWithKeeps(brood, inv, ps[1..], x.rest);
      var r := BreedWith(brood, ps, o);
      if r.Ok? {
        var rest := BreedWith(brood, ps[1..], x.rest).value.value;
        assert r.value.value == [x.value.0, x.value.1] + rest;
        forall i | 0 <= i < |r.value.value| ensures inv(r.value.value[i]) {
          if i >= 2 {
            assert r.value.value[i] == rest[i - 2];
          }
        }
      }
    }
  }

  /** Crossover and mutation as the step of the loop over the pairs. */
  function Breeder(p: Planner): Brood {
    (pair, d) => Offspring(p, pair, d)
  }

  function Breed(p: Planner, ps: seq<Pair>, o: Draws): (r: Result<Drawn<seq<seq<Block>>>>)
    ensures r.Ok? ==> |r.value.value| == 2 * |ps|
    ensures r.Err? ==> r.error in {IndexError, Diverges, ValueError, OracleExhausted}
  {
    BreedErrors(p, ps, o);
    BreedWith(Breeder(p), ps, o)
  }

  lemma BreedErrors(p: Planner, ps: seq<Pair>, o: Draws)
    ensures BreedWith(Breeder(p), ps, o).Err? ==>
      BreedWith(Breeder(p), ps, o).error in {IndexError, Diverges, ValueError, OracleExhausted}
  {
    forall pair, d ensures Offspring(p, pair, d).Err? ==> Offspring(p, pair, d).error in {IndexError, Diverges, ValueError, OracleExhausted} {
    }
    BreedWithErrors(Breeder(p), {IndexError, Diverges, ValueError, OracleExhausted}, ps, o);
  }

  /** The pairs of a selection: as written, or the corrected pairing. */
  function PairsBy(asWritten: bool, sel: seq<seq<Block>>): (r: seq<Pair>)
    ensures |r| == |sel| / 2
  {
    if asWritten then PairsAsWritten(sel) else Pairs(sel)
  }

  /** One iteration of `run`: selection, then breeding over the pairs,
      formed as written or as intended. */
  function Generation(asWritten: bool, dist: Metric, p: Planner, pop: seq<seq<Block>>, o: Draws): (r: Result<Drawn<seq<seq<Block>>>>)
    ensures r.Ok? && |pop| % 2 == 0 ==> |r.value.value| == |pop|
    ensures r.Err? ==> r.error in {ZeroDivisionError, IndexError, Diverges, ValueError, OracleExhausted}
  {
    match Selection(dist, p, pop, o)
    case Err(e) => Err(e)
    case Ok(sel) => Breed(p, PairsBy(asWritten, sel.value), sel.rest)
  }

  /** One iteration, seen from outside. */
  function Iteration(asWritten: bool, dist: Metric, p: Planner): Step<seq<seq<Block>>> {
    (pop, o) => Generation(asWritten, dist, p, pop, o)
  }

  /** `run`: the initial population, then `iters` iterations, with the
      pairs formed as written or as intended. */
  function Run(asWritten: bool, dist: Metric, p: Planner, o: Draws): (r: Result<seq<seq<Block>>>)
    requires Ready(p)
  {
    match Initialize(p, o)
    case Err(e) => Err(e)
    case Ok(init) =>
      match Iterate(Iteration(asWritten, dist, p), init.value, p.iters, init.rest)
      case Err(e) => Err(e)
      case Ok(last) => Ok(last.value)
  }

  /** Every string of a population is a chromosome. */
  predicate AllChromosomes(p: Planner, pop: seq<seq<Block>>) {
    forall i :: 0 <= i < |pop| ==> Chromosome(p, pop[i])
  }

  /** Every parent of the corrected pairing comes from the selection. */
  lemma {:induction false} PairsFrom(sel: seq<seq<Block>>)
    ensures forall i :: 0 <= i < |Pairs(sel)| ==> Pairs(sel)[i].0 in sel && Pairs(sel)[i].1 in sel
    decreases |sel|
  {
    if |sel| >= 2 {
      PairsFrom(sel[2..]);
      forall i | 1 <= i < |Pairs(sel)| ensures Pairs(sel)[i].0 in sel && Pairs(sel)[i].1 in sel {
        assert Pairs(sel)[i] == Pairs(sel[2..])[i - 1];
      }
    }
  }

  /** Breeding chromosomes yields chromosomes. */
  lemma BreedChromosomes(p: Planner, ps: seq<Pair>, o: Draws)
    requires Ready(p) && forall i :: 0 <= i < |ps| ==> Chromosome(p, ps[i].0) && Chromosome(p, ps[i].1)
    ensures Breed(p, ps, o).Ok? ==> AllChromosomes(p, Breed(p, ps, o).value.value)
  {
    forall pair: Pair, d: Draws | Chromosome(p, pair.0) && Chromosome(p, pair.1) && Offspring(p, pair, d).Ok?
      ensures Chromosome(p, Offspring(p, pair, d).value.value.0) && Chromosome(p, Offspring(p, pair, d).value.value.1)
    {
      OffspringChromosomes(p, pair, d);
    }
    BreedWithKeeps(Breeder(p), s => Chromosome(p, s), ps, o);
  }

  /** Crossover and mutation turn two chromosomes into two chromosomes. */
  lemma OffspringChromosomes(p: Planner, pair: Pair, o: Draws)
    requires Ready(p) && Chromosome(p, pair.0) && Chromosome(p, pair.1)
    ensures Offspring(p, pair, o).Ok? ==>
      Chromosome(p, Offspring(p, pair, o).value.value.0) && Chromosome(p, Offspring(p, pair, o).value.value.1)
  {
    var x := Recombine(p, pair.0, pair.1, o);
    RecombineChromosomes(p, pair.0, pair.1, o);
    if x.Ok? {
      MutateFromGenes(p, x.value.value.0, 0, x.value.rest);
      var a := Mutate(p, x.value.value.0, x.value.rest);
      if a.Ok? {
        MutateFromGenes(p, x.value.value.1, 0, a.value.rest);
      }
    }
  }

  /** One iteration turns a population of chromosomes into another, with
      either pairing: both take their parents from the selection. */
  lemma GenerationChromosomes(asWritten: bool, dist: Metric, p: Planner, pop: seq<seq<Block>>, o: Draws)
    requires Ready(p) && AllChromosomes(p, pop)
    ensures Generation(asWritten, dist, p, pop, o).Ok? ==>
      AllChromosomes(p, Generation(asWritten, dist, p, pop, o).value.value)
  {
    var sel := Selection(dist, p, pop, o);
    if sel.Ok? {
      var ss := sel.value.value;
      var ps := PairsBy(asWritten, ss);
      PairsFrom(ss);
      forall i | 0 <= i < |ps| ensures Chromosome(p, ps[i].0) && Chromosome(p, ps[i].1) {
        if asWritten {
          assert ps[i] == (ss[i], ss[2 * i]);
        }
        var j :| 0 <= j < |sel.value.value| && sel.value.value[j] == ps[i].0;
        var k :| 0 <= k < |sel.value.value| && sel.value.value[k] == ps[i].1;
      }
      BreedChromosomes(p, ps, sel.value.rest);
    }
  }

  /** Every iteration, seen from outside, keeps a population of chromosomes. */
  lemma IterationChromosomes(asWritten: bool, dist: Metric, p: Planner)
    requires Ready(p)
    ensures forall q, d :: AllChromosomes(p, q) && Iteration(asWritten, dist, p)(q, d).Ok? ==>
      AllChromosomes(p, Iteration(asWritten, dist, p)(q, d).value.value)
  {
    forall q, d | AllChromosomes(p, q) && Iteration(asWritten, dist, p)(q, d).Ok?
      ensures AllChromosomes(p, Iteration(asWritten, dist, p)(q, d).value.value)
    {
      GenerationChromosomes(asWritten, dist, p, q, d);
    }
  }

  /** Every iteration keeps an even population size. */
  lemma IterationSize(asWritten: bool, dist: Metric, p: Planner, size: int)
    requires size % 2 == 0
    ensures forall q, d :: |q| == size && Iteration(asWritten, dist, p)(q, d).Ok? ==>
      |Iteration(asWritten, dist, p)(q, d).value.value| == size
  {
    forall q, d ensures Iteration(asWritten, dist, p)(q, d) == Generation(asWritten, dist, p, q, d) {
    }
  }

  /** An iteration fails only with the errors of selection and breeding. */
  lemma IterationFaults(asWritten: bool, dist: Metric, p: Planner)
    ensures forall q, d :: Iteration(asWritten, dist, p)(q, d).Err? ==>
      Iteration(asWritten, dist, p)(q, d).error in {ZeroDivisionError, IndexError, Diverges, ValueError, OracleExhausted}
  {
    forall q, d ensures Iteration(asWritten, dist, p)(q, d) == Generation(asWritten, dist, p, q, d) {
    }
  }

  /** Iterations fail only with the errors of selection and breeding. */
  lemma IterateFaults(asWritten: bool, dist: Metric, p: Planner, pop: seq<seq<Block>>, n: nat, o: Draws)
    ensures Iterate(Iteration(asWritten, dist, p), pop, n, o).Err? ==>
      Iterate(Iteration(asWritten, dist, p), pop, n, o).error in {ZeroDivisionError, IndexError, Diverges, ValueError, OracleExhausted}
  {
    IterationFaults(asWritten, dist, p);
    IterateErrors(Iteration(asWritten, dist, p), _ => true, {ZeroDivisionError, IndexError, Diverges, ValueError, OracleExhausted}, pop, n, o);
  }

  /** Every string `run` leaves behind is a chromosome: as long as the
      pattern, one gene per slot of the slot's colour, no block twice and
      none covered; so the plan `get_best_plan` returns after it is one too.
      This holds with either pairing. */
  lemma RunChromosomes(asWritten: bool, dist: Metric, p: Planner, o: Draws)
    requires Ready(p)
    ensures Run(asWritten, dist, p, o).Ok? ==> AllChromosomes(p, Run(asWritten, dist, p, o).value)
    ensures Run(asWritten, dist, p, o).Ok? && p.popSize % 2 == 0 ==> |Run(asWritten, dist, p, o).value| == p.popSize
    ensures Run(asWritten, dist, p, o).Err? ==>
      Run(asWritten, dist, p, o).error in {ZeroDivisionError, IndexError, Diverges, ValueError, OracleExhausted}
    ensures Run(asWritten, dist, p, o).Ok? && BestPlan(dist, p, Run(asWritten, dist, p, o).value).Ok? ==>
      Chromosome(p, BestPlan(dist, p, Run(asWritten, dist, p, o).value).value)
  {
    var init := Initialize(p, o);
    if init.Ok? {
      var step := Iteration(asWritten, dist, p);
      var pop, n, rest := init.value.value, p.iters, init.value.rest;
      IterateFaults(asWritten, dist, p, pop, n, rest);
      IterationChromosomes(asWritten, dist, p);
      IterateKeeps(step, q => AllChromosomes(p, q), pop, n, rest);
      if p.popSize % 2 == 0 {
        IterationSize(asWritten, dist, p, p.popSize);
        IterateKeeps(step, q => |q| == p.popSize, pop, n, rest);
      }
    }
  }
}
