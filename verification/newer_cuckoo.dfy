/** `CuckooSearch` of the newer tree, over `DroneWorldNest`s. A nest is a
    random solution of the goal with its fitness computed once, when the
    nest is made. Each generation sorts the nests, sets aside copies of the
    best `keep`, lets some nests lay an egg by a Lévy flight — every slot
    takes the block at a drawn index of its colour's pool — replaces the
    worst `keep` nests by the set-aside ones, and records the best nest
    seen. */
module NewerCuckoo {
  import opened Common
  import opened Labels
  import opened WorldModel
  import opened Oracle
  import opened PopulationAlgorithm

  /** `NP`, the number of nests. */
  const Nests: nat := 20
  /** `keep`, the elitism factor. */
  const Keep: nat := 2
  /** `MaxGen`; generations run from 1 while below it. */
  const MaxGen: nat := 40

  /** A `DroneWorldNest`: its solution and the fitness it stores. */
  datatype Nest = Nest(solution: seq<Block>, fitness: real)

  /** The stored fitness is the fitness of the stored solution. */
  predicate Cached(s: Setup, n: Nest) {
    n.fitness == Fitness(s, n.solution)
  }

  /** The solution has one block of the world per goal entry, of the
      entry's colour. */
  predicate Shaped(s: Setup, sol: seq<Block>) {
    && |sol| == |s.goal|
    && forall i :: 0 <= i < |sol| ==> s.goal[i].id != DroneId && sol[i] in s.blocks && sol[i].id == s.goal[i].id
  }

  /** A nest is sound when it is shaped and its fitness is cached. */
  predicate Sound(s: Setup, n: Nest) {
    Shaped(s, n.solution) && Cached(s, n)
  }

  predicate AllSound(s: Setup, ns: seq<Nest>) {
    forall i :: 0 <= i < |ns| ==> Sound(s, ns[i])
  }

  /** `DroneWorldNest(blocks, goal, drone_pos)`: a random solution over the
      organised pools and its fitness. */
  function NewNest(s: Setup, o: Draws): (r: Result<Drawn<Nest>>)
    ensures r.Ok? ==> Sound(s, r.value.value) && NoDup(r.value.value.solution)
    ensures r.Err? ==> r.error in {Diverges, IndexError, OracleExhausted}
  {
    match RandomSolution(PoolsOf(s), s.goal, o)
    case Err(e) => Err(e)
    case Ok(d) =>
      SolvesFits(s.blocks, s.goal, d.value);
      Ok(Drawn(Nest(d.value, Fitness(s, d.value)), d.rest))
  }

  /** The index of a Lévy step: `int(abs(levy * len(pool)))` is taken as the
      drawn `k`, and reduced modulo the pool's size when it is past the end.
      With an empty pool the test `k > -1` holds and `k % 0` divides by zero. */
  function StepIndex(k: nat, n: nat): (r: Result<nat>)
    ensures n == 0 <==> r == Err(ZeroDivisionError)
    ensures r.Ok? ==> r.value < n && (k < n ==> r.value == k)
  {
    if k > n - 1 then (if n == 0 then Err(ZeroDivisionError) else Ok(k % n)) else Ok(k)
  }

  /** The loop of `levy_flight`: every slot of a colour takes the pool block
      at its step index; a slot of no colour adds nothing. */
  function Steps(ps: Pools, sol: seq<Block>, o: Draws): (r: Result<Drawn<seq<Block>>>)
    ensures r.Ok? && (forall i :: 0 <= i < |sol| ==> sol[i].id != DroneId) ==>
      |r.value.value| == |sol| && forall i :: 0 <= i < |sol| ==> r.value.value[i] in PoolOf(ps, sol[i].id).value
    ensures r == Err(ZeroDivisionError) ==> exists i :: 0 <= i < |sol| && PoolOf(ps, sol[i].id) == Some([])
    ensures r.Err? ==> r.error in {ZeroDivisionError, OracleExhausted}
    decreases |sol|
  {
    if |sol| == 0 then Ok(Drawn([], o))
    else
      var rest := Steps(ps, sol[1..], if PoolOf(ps, sol[0].id).Some? && |o| > 0 then o[1..] else o);
      assert forall i :: 1 <= i < |sol| ==> sol[1..][i - 1] == sol[i];
      match PoolOf(ps, sol[0].id)
      case None => rest
      case Some(pool) =>
        if |o| == 0 then Err(OracleExhausted)
        else match StepIndex(o[0], |pool|)
          case Err(e) => Err(e)
          case Ok(j) =>
            match rest
            case Err(e) => Err(e)
            case Ok(d) => Ok(Drawn([pool[j]] + d.value, d.rest))
  }

  /** A shaped solution stays shaped under the steps: each slot keeps its
      colour, and the pools of a shaped solution's colours are not empty. */
  lemma StepsShaped(s: Setup, sol: seq<Block>, o: Draws)
    requires Shaped(s, sol)
    ensures Steps(PoolsOf(s), sol, o).Ok? ==> Shaped(s, Steps(PoolsOf(s), sol, o).value.value)
    ensures Steps(PoolsOf(s), sol, o).Err? ==> Steps(PoolsOf(s), sol, o).error == OracleExhausted
  {
    var r := Steps(PoolsOf(s), sol, o);
    forall i | 0 <= i < |sol|
      ensures PoolOf(PoolsOf(s), sol[i].id) != Some([])
      ensures r.Ok? ==> r.value.value[i] in s.blocks && r.value.value[i].id == s.goal[i].id
    {
      OrganizedMembers(s.blocks, sol[i].id, sol[i]);
      if r.Ok? {
        OrganizedMembers(s.blocks, sol[i].id, r.value.value[i]);
      }
    }
  }

  /** `levy_flight` as written: the new solution is computed, but the
      fitness it is given is the old nest's, copied with the nest. */
  function LevyFlightAsWritten(s: Setup, nest: Nest, o: Draws): (r: Result<Drawn<Nest>>)
    ensures r.Ok? ==> r.value.value.fitness == nest.fitness
  {
    match Steps(PoolsOf(s), nest.solution, o)
    case Err(e) => Err(e)
    case Ok(d) => Ok(Drawn(Nest(d.value, nest.fitness), d.rest))
  }

  /** `levy_flight` as evidently intended: the new nest carries the fitness
      of its own solution. */
  function LevyFlight(s: Setup, nest: Nest, o: Draws): (r: Result<Drawn<Nest>>)
    ensures r.Ok? ==> Cached(s, r.value.value)
    ensures r.Ok? && Shaped(s, nest.solution) ==> Shaped(s, r.value.value.solution)
    ensures Shaped(s, nest.solution) && r.Err? ==> r.error == OracleExhausted
  {
    var r := Steps(PoolsOf(s), nest.solution, o);
    assert Shaped(s, nest.solution) ==>
      (r.Ok? ==> Shaped(s, r.value.value)) && (r.Err? ==> r.error == OracleExhausted) by {
      if Shaped(s, nest.solution) {
        StepsShaped(s, nest.solution, o);
      }
    }
    match r
    case Err(e) => Err(e)
    case Ok(d) => Ok(Drawn(Nest(d.value, Fitness(s, d.value)), d.rest))
  }

  /** Both flights draw the same solution; only the stored fitness differs. */
  lemma LevyFlightsAgree(s: Setup, nest: Nest, o: Draws)
    ensures LevyFlightAsWritten(s, nest, o).Ok? <==> LevyFlight(s, nest, o).Ok?
    ensures LevyFlight(s, nest, o).Ok? ==>
      LevyFlightAsWritten(s, nest, o).value.value.solution == LevyFlight(s, nest, o).value.value.solution
      && LevyFlightAsWritten(s, nest, o).value.rest == LevyFlight(s, nest, o).value.rest
  {
  }

  /** The flight a generation uses: as written, or as intended. */
  function Flight(asWritten: bool, s: Setup, nest: Nest, o: Draws): Result<Drawn<Nest>> {
    if asWritten then LevyFlightAsWritten(s, nest, o) else LevyFlight(s, nest, o)
  }

  /** Squared distance as a metric, for concrete worlds. */
  function SqMetric(a: Cell, b: Cell): real {
    SqDist(a, b) as real
  }

  /** A concrete world where the stale fitness shows: one red block at
      x = 1 in the nest, a second at x = 5, and the step picks the second. */
  function Witness(): Setup {
    Setup(SqMetric, Cell(0, 0, 0), [Entry(Red, Cell(1, 0, 0)), Entry(Red, Cell(5, 0, 0))], [Entry(Red, Cell(0, 0, 0))])
  }

  /** A one-slot flight takes the block at the drawn index of the slot's pool. */
  lemma StepsSingle(ps: Pools, b: Block, k: nat)
    requires PoolOf(ps, b.id).Some? && k < |PoolOf(ps, b.id).value|
    ensures Steps(ps, [b], [k]) == Ok(Drawn([PoolOf(ps, b.id).value[k]], []))
  {
    assert [b][1..] == [];
    assert [k][1..] == [];
    assert Steps(ps, [], []) == Ok(Drawn([], []));
    assert [PoolOf(ps, b.id).value[k]] + [] == [PoolOf(ps, b.id).value[k]];
  }

  /** With one slot, the flights take the pool block at the drawn index;
      as written the nest keeps its fitness, as intended it takes the new
      block's. */
  lemma OneSlotFlights(s: Setup, b: Block, f: real, k: nat)
    requires PoolOf(PoolsOf(s), b.id).Some? && k < |PoolOf(PoolsOf(s), b.id).value|
    ensures var x := PoolOf(PoolsOf(s), b.id).value[k];
      && LevyFlightAsWritten(s, Nest([b], f), [k]) == Ok(Drawn(Nest([x], f), []))
      && LevyFlight(s, Nest([b], f), [k]) == Ok(Drawn(Nest([x], Fitness(s, [x])), []))
  {
    StepsSingle(PoolsOf(s), b, k);
  }

  /** The witness world files both blocks into the red pool. */
  lemma WitnessPools()
    ensures PoolOf(PoolsOf(Witness()), Red) == Some(Witness().blocks)
  {
    OrganizeFiltersAt(Witness().blocks, Red);
    FilterKeepsAll(Witness().blocks, OfId(Red));
  }

  /** The one-slot fitness of the witness's two blocks. */
  lemma WitnessFitness()
    ensures Fitness(Witness(), [Witness().blocks[0]]) == 3.0
    ensures Fitness(Witness(), [Witness().blocks[1]]) == 51.0
  {
    var o := Cell(0, 0, 0);
    assert Vertical(o, 1) == Cell(0, 1, 0);
    ColumnFitnessSingle(SqMetric, o, Entry(Red, Cell(1, 0, 0)));
    ColumnFitnessSingle(SqMetric, o, Entry(Red, Cell(5, 0, 0)));
    assert SqDist(Cell(1, 0, 0), o) == 1 && SqDist(Cell(1, 0, 0), Cell(0, 1, 0)) == 2;
    assert SqDist(Cell(5, 0, 0), o) == 25 && SqDist(Cell(5, 0, 0), Cell(0, 1, 0)) == 26;
  }

  /** As written, the flown nest's fitness is not its solution's: with
      squared distances the nest keeps 3.0, the legs 1 and 2 of the near
      block, while its solution now costs 51.0, the legs 25 and 26 of the
      far one. The intended flight stores 51.0. */
  lemma StaleFitness()
    ensures var s := Witness();
      var nest := Nest([s.blocks[0]], 3.0);
      && Cached(s, nest)
      && LevyFlightAsWritten(s, nest, [1]) == Ok(Drawn(Nest([s.blocks[1]], 3.0), []))
      && !Cached(s, LevyFlightAsWritten(s, nest, [1]).value.value)
      && LevyFlight(s, nest, [1]) == Ok(Drawn(Nest([s.blocks[1]], 51.0), []))
  {
    WitnessPools();
    WitnessFitness();
    OneSlotFlights(Witness(), Witness().blocks[0], 3.0, 1);
  }

  /** The key `sort_population` sorts by. */
  function Fit(n: Nest): real {
    n.fitness
  }

  /** `keep_best_cuckoos`: copies of the first `keep` nests join the
      set-aside list, which is then sorted. The list is never cleared, so it
      grows by `keep` every generation. */
  function KeepBest(nests: seq<Nest>, kept: seq<Nest>): (r: Result<seq<Nest>>)
    ensures r.Ok? <==> |nests| >= Keep
    ensures r.Err? ==> r.error == IndexError
    ensures r.Ok? ==> |r.value| == |kept| + Keep && SortedBy(r.value, Fit)
    ensures r.Ok? ==> multiset(r.value) == multiset(kept) + multiset(nests[..Keep])
  {
    if |nests| < Keep then Err(IndexError) else Ok(SortBy(kept + nests[..Keep], Fit))
  }

  /** `replace_worst_cuckoos`: `keep` nests are popped from the end, then
      the first `keep` set-aside nests are appended. */
  function ReplaceWorst(nests: seq<Nest>, kept: seq<Nest>): (r: Result<seq<Nest>>)
    ensures r.Ok? <==> |nests| >= Keep && |kept| >= Keep
    ensures r.Err? ==> r.error == IndexError
    ensures r.Ok? ==> |r.value| == |nests|
    ensures r.Ok? ==> r.value[..|nests| - Keep] == nests[..|nests| - Keep]
    ensures r.Ok? ==> forall k :: |nests| - Keep <= k < |nests| ==> r.value[k] == kept[k - (|nests| - Keep)]
  {
    if |nests| < Keep || |kept| < Keep then Err(IndexError)
    else Ok(nests[..|nests| - Keep] + kept[..Keep])
  }

  /** `select_cuckoo(i)`: a draw from `[0, NP - 1]` hits `i`. */
  function Select(i: nat, o: Draws): (r: Result<Drawn<bool>>)
    ensures |o| > 0 <==> r.Ok?
    ensures r.Ok? ==> r.value.rest == o[1..] && (r.value.value <==> o[0] % Nests == i)
  {
    match RandInt(0, Nests - 1, o)
    case Err(e) => Err(e)
    case Ok(v) => Ok(Drawn(v.value == i, v.rest))
  }

  /** The egg-laying loop of `run`, from nest `i` to `NP - 1`: a selected
      nest flies, and the flown nest, if fitter, is moved to the end in
      its place. */
  function Lay(asWritten: bool, s: Setup, nests: seq<Nest>, i: nat, o: Draws): (r: Result<Drawn<seq<Nest>>>)
    ensures r.Ok? ==> |r.value.value| == |nests|
    decreases Nests - i, |o|
  {
    if i >= Nests then Ok(Drawn(nests, o))
    else match Select(i, o)
      case Err(e) => Err(e)
      case Ok(v) =>
        if !v.value then Lay(asWritten, s, nests, i + 1, v.rest)
        else if i >= |nests| then Err(IndexError)
        else match Flight(asWritten, s, nests[i], v.rest)
          case Err(e) => Err(e)
          case Ok(f) =>
            var next := if f.value.fitness < nests[i].fitness then nests[..i] + nests[i + 1..] + [f.value] else nests;
            Lay(asWritten, s, next, i + 1, f.rest)
  }

  /** As written no egg is ever laid: the flown nest carries its parent's
      fitness, so the test `new_nest.fitness < nest.fitness` never holds
      and the loop only spends draws. */
  lemma {:induction false} LayAsWrittenStill(s: Setup, nests: seq<Nest>, i: nat, o: Draws)
    ensures Lay(true, s, nests, i, o).Ok? ==> Lay(true, s, nests, i, o).value.value == nests
    decreases Nests - i, |o|
  {
    if i < Nests {
      var v := Select(i, o);
      if v.Ok? {
        if !v.value.value {
          LayAsWrittenStill(s, nests, i + 1, v.value.rest);
        } else if i < |nests| {
          var f := Flight(true, s, nests[i], v.value.rest);
          if f.Ok? {
            LayAsWrittenStill(s, nests, i + 1, f.value.rest);
          }
        }
      }
    }
  }

  /** Moving a sound nest to the end in place of nest `i` keeps every
      nest sound. */
  lemma MoveToEndSound(s: Setup, nests: seq<Nest>, i: nat, x: Nest)
    requires AllSound(s, nests) && Sound(s, x) && i < |nests|
    ensures AllSound(s, nests[..i] + nests[i + 1..] + [x])
  {
    var next := nests[..i] + nests[i + 1..] + [x];
    forall k | 0 <= k < |next| ensures Sound(s, next[k]) {
      if k < i {
        assert next[k] == nests[k];
      } else if k < |nests| - 1 {
        assert next[k] == nests[k + 1];
      }
    }
  }

  /** As intended, laying keeps every nest sound: a flown nest of a sound
      one is shaped and carries its own fitness. */
  lemma {:induction false} LayKeepsSound(s: Setup, nests: seq<Nest>, i: nat, o: Draws)
    requires AllSound(s, nests)
    ensures Lay(false, s, nests, i, o).Ok? ==> AllSound(s, Lay(false, s, nests, i, o).value.value)
    decreases Nests - i, |o|
  {
    var r := Lay(false, s, nests, i, o);
    if i < Nests {
      var v := Select(i, o);
      if v.Ok? {
        if !v.value.value {
          assert r == Lay(false, s, nests, i + 1, v.value.rest);
          LayKeepsSound(s, nests, i + 1, v.value.rest);
        } else if i < |nests| {
          var f := Flight(false, s, nests[i], v.value.rest);
          if f.Ok? {
            var x := f.value.value;
            var next := if x.fitness < nests[i].fitness then nests[..i] + nests[i + 1..] + [x] else nests;
            assert Sound(s, x);
            if x.fitness < nests[i].fitness {
              MoveToEndSound(s, nests, i, x);
            }
            assert r == Lay(false, s, next, i + 1, f.value.rest);
            LayKeepsSound(s, next, i + 1, f.value.rest);
          }
        }
      }
    }
  }

  /** The search between generations: the nests, the set-aside list and
      `s_best`. */
  datatype Flock = Flock(nests: seq<Nest>, kept: seq<Nest>, best: Nest)

  /** Every nest of the flock is sound. */
  predicate FlockSound(s: Setup, f: Flock) {
    AllSound(s, f.nests) && AllSound(s, f.kept) && Sound(s, f.best)
  }

  /** A sorted sequence of sound nests is sound. */
  lemma SortSound(s: Setup, ns: seq<Nest>)
    requires AllSound(s, ns)
    ensures AllSound(s, SortBy(ns, Fit))
  {
    var r := SortBy(ns, Fit);
    forall k | 0 <= k < |r| ensures Sound(s, r[k]) {
      assert r[k] in multiset(ns);
    }
  }

  /** Setting aside copies of sound nests keeps the set-aside list sound. */
  lemma KeepBestSound(s: Setup, nests: seq<Nest>, kept: seq<Nest>)
    requires AllSound(s, nests) && AllSound(s, kept) && KeepBest(nests, kept).Ok?
    ensures AllSound(s, KeepBest(nests, kept).value)
  {
    var r := KeepBest(nests, kept).value;
    forall k | 0 <= k < |r| ensures Sound(s, r[k]) {
      assert r[k] in multiset(kept) + multiset(nests[..Keep]);
      if r[k] !in multiset(kept) {
        assert r[k] in nests[..Keep];
      }
    }
  }

  /** One pass of the `while` loop of `run`. */
  function Generation(asWritten: bool, s: Setup, f: Flock, o: Draws): (r: Result<Drawn<Flock>>)
    ensures r.Ok? ==> |r.value.value.nests| == |f.nests|
    ensures r.Ok? ==> r.value.value.best.fitness <= f.best.fitness
    ensures r.Ok? ==> r.value.value.best == f.best || r.value.value.best.fitness < f.best.fitness
    ensures r.Ok? ==> r.value.value.best == f.best || r.value.value.best in r.value.value.nests
    ensures r.Ok? ==> |r.value.value.kept| == |f.kept| + Keep
  {
    var sorted := SortBy(f.nests, Fit);
    match KeepBest(sorted, f.kept)
    case Err(e) => Err(e)
    case Ok(kept) =>
      match Lay(asWritten, s, sorted, 1, o)
      case Err(e) => Err(e)
      case Ok(laid) =>
        match ReplaceWorst(SortBy(laid.value, Fit), kept)
        case Err(e) => Err(e)
        case Ok(replaced) =>
          var final := SortBy(replaced, Fit);
          if |final| == 0 then Err(IndexError)
          else
            var best := if final[0].fitness < f.best.fitness then final[0] else f.best;
            Ok(Drawn(Flock(final, kept, best), laid.rest))
  }

  /** As intended, a generation keeps the flock sound. */
  lemma GenerationSound(s: Setup, f: Flock, o: Draws)
    requires FlockSound(s, f)
    ensures Generation(false, s, f, o).Ok? ==> FlockSound(s, Generation(false, s, f, o).value.value)
  {
    if Generation(false, s, f, o).Ok? {
      var sorted := SortBy(f.nests, Fit);
      SortSound(s, f.nests);
      var kept := KeepBest(sorted, f.kept).value;
      KeepBestSound(s, sorted, f.kept);
      var laid := Lay(false, s, sorted, 1, o).value;
      LayKeepsSound(s, sorted, 1, o);
      SortSound(s, laid.value);
      var replaced := ReplaceWorst(SortBy(laid.value, Fit), kept).value;
      SortSound(s, replaced);
    }
  }

  /** `initialize_nests`: `NP` fresh nests after the ones already there. */
  function InitNests(s: Setup, nests: seq<Nest>, n: nat, o: Draws): (r: Result<Drawn<seq<Nest>>>)
    ensures r.Ok? ==> |r.value.value| == |nests| + n
    ensures r.Ok? && AllSound(s, nests) ==> AllSound(s, r.value.value)
    decreases n
  {
    if n == 0 then Ok(Drawn(nests, o))
    else match NewNest(s, o)
      case Err(e) => Err(e)
      case Ok(d) => InitNests(s, nests + [d.value], n - 1, d.rest)
  }

  /** Generations `g` up to `MaxGen - 1`. */
  function Generations(asWritten: bool, s: Setup, f: Flock, g: nat, o: Draws): (r: Result<Drawn<Flock>>)
    ensures r.Ok? ==> |r.value.value.nests| == |f.nests| && r.value.value.best.fitness <= f.best.fitness
    decreases MaxGen - g
  {
    if g >= MaxGen then Ok(Drawn(f, o))
    else match Generation(asWritten, s, f, o)
      case Err(e) => Err(e)
      case Ok(d) => Generations(asWritten, s, d.value, g + 1, d.rest)
  }

  /** As intended, the flock stays sound through the generations. */
  lemma {:induction false} GenerationsSound(s: Setup, f: Flock, g: nat, o: Draws)
    requires FlockSound(s, f)
    ensures Generations(false, s, f, g, o).Ok? ==> FlockSound(s, Generations(false, s, f, g, o).value.value)
    decreases MaxGen - g
  {
    var r := Generations(false, s, f, g, o);
    if g >= MaxGen {
      assert r == Ok(Drawn(f, o));
      assert FlockSound(s, r.value.value);
    } else {
      var d := Generation(false, s, f, o);
      if d.Ok? {
        GenerationSound(s, f, o);
        var f2 := d.value.value;
        assert FlockSound(s, f2);
        assert r == Generations(false, s, f2, g + 1, d.value.rest);
        GenerationsSound(s, f2, g + 1, d.value.rest);
        assert r.Ok? ==> FlockSound(s, r.value.value);
      } else {
        assert r.Err?;
      }
    }
  }

  /** What `run` returns: `s_best.fitness` and `s_best`. */
  datatype Answer = Answer(score: real, best: Nest)

  /** `CuckooSearch(...)` followed by `run()`: `s_best` is drawn by the
      constructor, then `NP` nests, then generations 1 to `MaxGen - 1`. */
  function Run(asWritten: bool, s: Setup, o: Draws): (r: Result<Answer>)
    ensures r.Ok? ==> r.value.score == r.value.best.fitness
  {
    match NewNest(s, o)
    case Err(e) => Err(e)
    case Ok(b) =>
      match InitNests(s, [], Nests, b.rest)
      case Err(e) => Err(e)
      case Ok(ns) =>
        match Generations(asWritten, s, Flock(ns.value, [], b.value), 1, ns.rest)
        case Err(e) => Err(e)
        case Ok(d) => Ok(Answer(d.value.best.fitness, d.value.best))
  }

  /** As intended, the answer is a nest of the goal's shape whose score is
      its solution's fitness, no worse than the first nest drawn. */
  lemma RunSound(s: Setup, o: Draws)
    ensures Run(false, s, o).Ok? ==> Sound(s, Run(false, s, o).value.best)
    ensures Run(false, s, o).Ok? ==> Run(false, s, o).value.score <= NewNest(s, o).value.value.fitness
  {
    if Run(false, s, o).Ok? {
      var b := NewNest(s, o).value;
      var ns := InitNests(s, [], Nests, b.rest).value;
      GenerationsSound(s, Flock(ns.value, [], b.value), 1, ns.rest);
    }
  }
}
