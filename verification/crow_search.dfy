/** `CrowSearch` of the newer tree: a flock of crows, each with a position
    and a remembered best position, both solutions of the goal. In every
    iteration each crow either follows the memory of a crow it picks — a
    short flight copies some of that memory's blocks into its own position,
    a long flight starts from that memory and swaps some blocks for others
    of the same label — or, when it is aware of being followed, jumps to a
    fresh random solution. A position better than the crow's memory replaces
    it, and the best memory is returned. */
module CrowSearch {
  import opened Common
  import opened Labels
  import opened WorldModel
  import opened NewerWorld
  import opened Oracle
  import opened PopulationSearch

  /** `maxiter`. */
  const MaxIter: nat := 40
  /** `NC`, the number of crows. */
  const Flock: nat := 20
  /** `FL` = 1.3, in tenths. */
  const FlightLength: nat := 13
  /** `AP` = 0.4, as a percentile. */
  const Awareness: nat := 40
  /** How many draws the long flight makes for one slot: `exit_counter`. */
  const Tries: nat := 50

  /** `CrowSearch(blocks, goal, world)` as written: it hands its arguments
      on in its own order, so the block list lands where the world is
      expected. */
  function NewCrowAsWritten(blocks: Arg, goal: Arg, world: Arg): (r: Result<Population>)
    ensures blocks.ListArg? ==> r == Err(TypeError)
  {
    PopulationInit(blocks, goal, world)
  }

  /** The constructor as evidently intended: the world goes first. */
  function NewCrow(blocks: Arg, goal: Arg, world: Arg): (r: Result<Population>)
    ensures r.Ok? <==> world.WorldArg? && blocks.ListArg? && goal.ListArg?
    ensures r.Ok? ==> r.value.world == world.world && SortedBy(r.value.goal, YKey)
                      && Grounded(goal.entries, r.value.goal)
    ensures r.Ok? ==> forall e :: InPools(r.value.pools, e) <==> e in blocks.entries && NotBlack(e)
    ensures r.Ok? ==> forall e :: e in goal.entries ==> e in r.value.goal
    ensures r.Ok? ==> r.value.goal == FillGoal(goal.entries)
    ensures r.Ok? && NoDup(blocks.entries) ==> PoolsOk(r.value.pools)
  {
    assert blocks.ListArg? ==> forall e :: InPools(Organize(FilterOutDrone(blocks.entries)), e) <==>
      e in FilterOutDrone(blocks.entries) by {
      if blocks.ListArg? {
        OrganizeMembers(FilterOutDrone(blocks.entries));
      }
    }
    PopulationInit(world, blocks, goal)
  }

  /** Every call the planner makes, with a world and two lists, fails as
      written and succeeds once the arguments are in order. */
  lemma CrowAsWrittenAlwaysFails(blocks: seq<Item>, goal: seq<Item>, w: World<Label>)
    ensures NewCrowAsWritten(ListArg(blocks), ListArg(goal), WorldArg(w)) == Err(TypeError)
    ensures NewCrow(ListArg(blocks), ListArg(goal), WorldArg(w)).Ok?
  {
  }

  /** The crows' positions and memories, and the pools as the shuffles of
      `_generate_random_solution` left them. */
  datatype Crows = Crows(pools: seq<Pool>, mem: seq<seq<Item>>, pos: seq<seq<Item>>)

  /** The invariant of the search: every position and memory is a solution
      drawn from the current pools, which are well formed. */
  ghost predicate Airborne(goal: seq<Item>, c: Crows) {
    && PoolsOk(c.pools) && |c.mem| == |c.pos|
    && AllAssigned(c.pools, goal, c.mem) && AllAssigned(c.pools, goal, c.pos)
  }

  /** Every one of the solutions is a solution of the goal from the pools. */
  ghost predicate AllAssigned(ps: seq<Pool>, goal: seq<Item>, sols: seq<seq<Item>>) {
    forall i :: 0 <= i < |sols| ==> Assignment(ps, goal, sols[i])
  }

  lemma AllAssignedSnoc(ps: seq<Pool>, goal: seq<Item>, sols: seq<seq<Item>>, s: seq<Item>)
    requires AllAssigned(ps, goal, sols) && Assignment(ps, goal, s)
    ensures AllAssigned(ps, goal, sols + [s])
  {
    assert forall i :: 0 <= i < |sols| ==> (sols + [s])[i] == sols[i];
  }

  lemma AllAssignedUpdate(ps: seq<Pool>, goal: seq<Item>, sols: seq<seq<Item>>, i: nat, s: seq<Item>)
    requires AllAssigned(ps, goal, sols) && Assignment(ps, goal, s) && i < |sols|
    ensures AllAssigned(ps, goal, sols[i := s])
  {
    assert forall k :: 0 <= k < |sols| && k != i ==> sols[i := s][k] == sols[k];
  }

  /** Solutions stay solutions over reshuffled pools. */
  lemma AllAssignedSamePools(ps: seq<Pool>, qs: seq<Pool>, goal: seq<Item>, sols: seq<seq<Item>>)
    requires SamePools(ps, qs) && AllAssigned(ps, goal, sols)
    ensures AllAssigned(qs, goal, sols)
  {
    SamePoolsSym(ps, qs);
    SamePoolsOk(qs, ps);
  }

  /** `_initialize_crows`: `n` random solutions, each both position and
      memory. */
  function InitCrows(ps: seq<Pool>, goal: seq<Item>, n: nat, o: Draws): (r: Result<Drawn<Crows>>)
    ensures r.Ok? ==> |r.value.value.mem| == n && r.value.value.mem == r.value.value.pos
    ensures r.Ok? ==> SamePools(ps, r.value.value.pools)
    ensures r.Ok? && PoolsOk(ps) ==> Airborne(goal, r.value.value)
    decreases n
  {
    if n == 0 then
      SamePoolsRefl(ps);
      Ok(Drawn(Crows(ps, [], []), o))
    else match InitCrows(ps, goal, n - 1, o)
      case Err(e) => Err(e)
      case Ok(d) =>
        match GenerateRandomSolution(d.value.pools, goal, d.rest)
        case Err(e) => Err(e)
        case Ok(g) =>
          var c := Crows(g.pools, d.value.mem + [g.solution], d.value.pos + [g.solution]);
          SamePoolsTrans(ps, d.value.pools, g.pools);
          assert PoolsOk(ps) ==> Airborne(goal, c) by {
            if PoolsOk(ps) {
              GenerateAssignment(d.value.pools, goal, d.rest);
              SamePoolsSym(d.value.pools, g.pools);
              AssignmentSamePools(g.pools, d.value.pools, goal, g.solution);
              AllAssignedSamePools(d.value.pools, g.pools, goal, d.value.mem);
              AllAssignedSnoc(g.pools, goal, d.value.mem, g.solution);
            }
          }
          Ok(Drawn(c, g.rest))
  }

  /** The flight is short when `uniform(0, 1) * FL <= 1.0`; with the draw
      as a percentile `f`, the flight measures `f * FL` thousandths. */
  predicate ShortFlight(f: nat) {
    f * FlightLength <= 1000
  }

  /** `int(flight_length * len(goal))` for a short flight. */
  function ShortCount(f: nat, n: nat): (k: nat)
    requires ShortFlight(f)
    ensures k <= n
  {
    assert f * FlightLength * n <= 1000 * n by {
      assert (1000 - f * FlightLength) * n >= 0;
    }
    f * FlightLength * n / 1000
  }

  /** `int((flight_length - 1.0) * len(goal))` for a long flight, raised to
      one when it comes out zero. It never exceeds a non-empty goal. */
  function LongCount(f: nat, n: nat): (k: nat)
    requires !ShortFlight(f) && f < 100
    ensures k >= 1
    ensures n > 0 ==> k <= n
  {
    var m := f * FlightLength - 1000;
    assert m * n <= 1000 * n by {
      assert (1000 - m) * n >= 0;
    }
    var k := m * n / 1000;
    if k == 0 then 1 else k
  }

  /** The short flight: for each sampled slot, the target memory's block
      moves in unless the position already holds it. Indexing past either
      solution is an IndexError. */
  function LocalFlight<T(==)>(pos: seq<T>, target: seq<T>, idx: seq<nat>): (r: Result<seq<T>>)
    ensures r.Ok? ==> |r.value| == |pos|
    ensures r.Ok? ==> forall i :: 0 <= i < |pos| ==> r.value[i] == pos[i] || (i < |target| && r.value[i] == target[i])
    ensures r.Ok? ==> forall i :: 0 <= i < |pos| && i !in idx ==> r.value[i] == pos[i]
    ensures |target| == |pos| && (forall k :: 0 <= k < |idx| ==> idx[k] < |pos|) ==> r.Ok?
    ensures r.Err? ==> r.error == IndexError
    decreases |idx|
  {
    if |idx| == 0 then Ok(pos)
    else
      var j := idx[0];
      assert forall k :: 1 <= k < |idx| ==> idx[k] == idx[1..][k - 1];
      if j >= |target| then Err(IndexError)
      else if target[j] in pos then LocalFlight(pos, target, idx[1..])
      else if j >= |pos| then Err(IndexError)
      else LocalFlight(pos[j := target[j]], target, idx[1..])
  }

  /** The short flight writes a block only where the position does not
      hold it yet, so a duplicate-free position stays duplicate-free. */
  lemma {:induction false} LocalFlightNoDup<T>(pos: seq<T>, target: seq<T>, idx: seq<nat>)
    requires NoDup(pos) && LocalFlight(pos, target, idx).Ok?
    ensures NoDup(LocalFlight(pos, target, idx).value)
    decreases |idx|
  {
    if |idx| > 0 {
      var j := idx[0];
      if target[j] in pos {
        LocalFlightNoDup(pos, target, idx[1..]);
      } else {
        NoDupUpdate(pos, j, target[j]);
        LocalFlightNoDup(pos[j := target[j]], target, idx[1..]);
      }
    }
  }

  /** The short flight keeps a position a solution. */
  lemma {:induction false} LocalFlightKeeps(ps: seq<Pool>, goal: seq<Item>, pos: seq<Item>, target: seq<Item>, idx: seq<nat>)
    requires Assignment(ps, goal, pos) && Assignment(ps, goal, target) && LocalFlight(pos, target, idx).Ok?
    ensures Assignment(ps, goal, LocalFlight(pos, target, idx).value)
    decreases |idx|
  {
    if |idx| > 0 {
      var j := idx[0];
      if target[j] in pos {
        LocalFlightKeeps(ps, goal, pos, target, idx[1..]);
      } else {
        ReplaceKeeps(ps, goal, pos, j, target[j]);
        LocalFlightKeeps(ps, goal, pos[j := target[j]], target, idx[1..]);
      }
    }
  }

  /** The inner `while` of the long flight: up to `tries` draws from the
      pool, and the first block the position does not hold yet takes slot
      `j`. After the last try the slot keeps its block. */
  function Retry(pool: seq<Item>, pos: seq<Item>, j: nat, tries: nat, o: Draws): (r: Result<Drawn<seq<Item>>>)
    requires j < |pos|
    ensures tries == 0 ==> r == Ok(Drawn(pos, o))
    ensures r.Err? ==> r.error == IndexError || r.error == OracleExhausted
    ensures r.Ok? ==> (r.value.value == pos ||
      (|r.value.value| == |pos| && r.value.value == pos[j := r.value.value[j]]
       && r.value.value[j] in pool && r.value.value[j] !in pos))
    ensures tries > 0 && |pool| > 0 && (forall x :: x in pool ==> x in pos) ==> r.Err? || r.value.value == pos
    decreases tries
  {
    if tries == 0 then Ok(Drawn(pos, o))
    else match Choice(pool, o)
      case Err(e) => Err(e)
      case Ok(d) =>
        if d.value !in pos then Ok(Drawn(pos[j := d.value], d.rest))
        else Retry(pool, pos, j, tries - 1, d.rest)
  }

  /** The long flight, from the target memory: for each sampled slot, a
      block of the same label from the pools that the position does not
      hold yet, if one turns up within `Tries` draws. */
  function GlobalFlight(pools: seq<Pool>, pos: seq<Item>, idx: seq<nat>, o: Draws): (r: Result<Drawn<seq<Item>>>)
    ensures r.Ok? ==> |r.value.value| == |pos|
    ensures r.Ok? ==> forall i :: 0 <= i < |pos| && i !in idx ==> r.value.value[i] == pos[i]
    ensures r.Err? ==> r.error in {IndexError, KeyError, OracleExhausted}
    decreases |idx|
  {
    if |idx| == 0 then Ok(Drawn(pos, o))
    else
      var j := idx[0];
      if j >= |pos| then Err(IndexError)
      else match Find(pools, pos[j].id)
        case None => Err(KeyError)
        case Some(k) =>
          match Retry(pools[k].items, pos, j, Tries, o)
          case Err(e) => Err(e)
          case Ok(d) =>
            var r := GlobalFlight(pools, d.value, idx[1..], d.rest);
            assert r.Ok? ==> forall i :: 0 <= i < |pos| && i !in idx ==> i !in idx[1..] && d.value[i] == pos[i];
            r
  }

  /** The long flight keeps a position a solution: each new block comes
      from the pool of the label the slot held. */
  lemma {:induction false} GlobalFlightKeeps(ps: seq<Pool>, goal: seq<Item>, pools: seq<Pool>, pos: seq<Item>, idx: seq<nat>, o: Draws)
    requires SamePools(ps, pools) && PoolsOk(pools) && Assignment(ps, goal, pos)
    requires GlobalFlight(pools, pos, idx, o).Ok?
    ensures Assignment(ps, goal, GlobalFlight(pools, pos, idx, o).value.value)
    decreases |idx|
  {
    if |idx| > 0 {
      var j := idx[0];
      var k := Find(pools, pos[j].id).value;
      var d := Retry(pools[k].items, pos, j, Tries, o).value;
      if d.value != pos {
        var x := d.value[j];
        SamePoolsOk(ps, pools);
        assert InPools(pools, x);
        ReplaceKeeps(ps, goal, pos, j, x);
      }
      GlobalFlightKeeps(ps, goal, pools, d.value, idx[1..], d.rest);
    }
  }

  /** A short flight of a crow at `pos` toward `target`: `f` is the flight
      percentile drawn. */
  function ShortMove(pos: seq<Item>, target: seq<Item>, n: nat, f: nat, o: Draws): (r: Result<Drawn<seq<Item>>>)
    requires ShortFlight(f)
    ensures r.Ok? ==> |r.value.value| == |pos|
  {
    match Sample(n, ShortCount(f, n), o)
    case Err(e) => Err(e)
    case Ok(ix) =>
      match LocalFlight(pos, target, ix.value)
      case Err(e) => Err(e)
      case Ok(np) => Ok(Drawn(np, ix.rest))
  }

  /** A long flight from `target`. */
  function LongMove(pools: seq<Pool>, target: seq<Item>, n: nat, f: nat, o: Draws): (r: Result<Drawn<seq<Item>>>)
    requires !ShortFlight(f) && f < 100
    ensures r.Ok? ==> |r.value.value| == |target|
  {
    match Sample(n, LongCount(f, n), o)
    case Err(e) => Err(e)
    case Ok(ix) => GlobalFlight(pools, target, ix.value, ix.rest)
  }

  /** A crow that is not noticed: it picks a memory to follow and a flight
      length. */
  function Follow(pools: seq<Pool>, mem: seq<seq<Item>>, goal: seq<Item>, pos: seq<Item>, o: Draws): (r: Result<Drawn<seq<Item>>>)
  {
    match Choice(mem, o)
    case Err(e) => Err(e)
    case Ok(t) =>
      match Chance(t.rest)
      case Err(e) => Err(e)
      case Ok(f) =>
        if ShortFlight(f.value) then ShortMove(pos, t.value, |goal|, f.value, f.rest)
        else LongMove(pools, t.value, |goal|, f.value, f.rest)
  }

  /** Following a memory keeps a position a solution. */
  lemma FollowKeeps(ps: seq<Pool>, goal: seq<Item>, pools: seq<Pool>, mem: seq<seq<Item>>, pos: seq<Item>, o: Draws)
    requires SamePools(ps, pools) && PoolsOk(pools) && AllAssigned(ps, goal, mem) && Assignment(ps, goal, pos)
    requires Follow(pools, mem, goal, pos, o).Ok?
    ensures Assignment(ps, goal, Follow(pools, mem, goal, pos, o).value.value)
  {
    var t := Choice(mem, o).value;
    var f := Chance(t.rest).value;
    assert t.value in mem;
    if ShortFlight(f.value) {
      var ix := Sample(|goal|, ShortCount(f.value, |goal|), f.rest).value;
      LocalFlightKeeps(ps, goal, pos, t.value, ix.value);
    } else {
      var ix := Sample(|goal|, LongCount(f.value, |goal|), f.rest).value;
      GlobalFlightKeeps(ps, goal, pools, t.value, ix.value, ix.rest);
    }
  }

  /** One crow's move. With a percentile of at least `Awareness` it follows
      a memory it picks; otherwise it takes a fresh random solution, which
      also reshuffles the pools. */
  function MoveCrow(c: Crows, goal: seq<Item>, i: nat, o: Draws): (r: Result<Drawn<Crows>>)
    requires i < |c.pos|
    ensures r.Ok? ==> r.value.value.mem == c.mem && |r.value.value.pos| == |c.pos|
    ensures r.Ok? ==> forall m :: 0 <= m < |c.pos| && m != i ==> r.value.value.pos[m] == c.pos[m]
    ensures r.Ok? ==> SamePools(c.pools, r.value.value.pools)
  {
    SamePoolsRefl(c.pools);
    match Chance(o)
    case Err(e) => Err(e)
    case Ok(a) =>
      if a.value >= Awareness then
        match Follow(c.pools, c.mem, goal, c.pos[i], a.rest)
        case Err(e) => Err(e)
        case Ok(np) => Ok(Drawn(c.(pos := c.pos[i := np.value]), np.rest))
      else
        match GenerateRandomSolution(c.pools, goal, a.rest)
        case Err(e) => Err(e)
        case Ok(g) => Ok(Drawn(Crows(g.pools, c.mem, c.pos[i := g.solution]), g.rest))
  }

  /** A move keeps the flock airborne. */
  lemma MoveCrowAirborne(goal: seq<Item>, c: Crows, i: nat, o: Draws)
    requires Airborne(goal, c) && i < |c.pos| && MoveCrow(c, goal, i, o).Ok?
    ensures Airborne(goal, MoveCrow(c, goal, i, o).value.value)
  {
    var r := MoveCrow(c, goal, i, o).value.value;
    var a := Chance(o).value;
    var np := r.pos[i];
    if a.value >= Awareness {
      SamePoolsRefl(c.pools);
      FollowKeeps(c.pools, goal, c.pools, c.mem, c.pos[i], a.rest);
      AllAssignedUpdate(r.pools, goal, c.pos, i, np);
    } else {
      GenerateAssignment(c.pools, goal, a.rest);
      SamePoolsSym(c.pools, r.pools);
      AssignmentSamePools(r.pools, c.pools, goal, np);
      AllAssignedSamePools(c.pools, r.pools, goal, c.mem);
      AllAssignedSamePools(c.pools, r.pools, goal, c.pos);
      AllAssignedUpdate(r.pools, goal, c.pos, i, np);
    }
    assert r.pos == c.pos[i := np];
  }

  /** The crows from `i` on move in turn. */
  function MoveFrom(c: Crows, goal: seq<Item>, i: nat, o: Draws): (r: Result<Drawn<Crows>>)
    ensures r.Ok? ==> r.value.value.mem == c.mem && |r.value.value.pos| == |c.pos|
    ensures r.Ok? ==> SamePools(c.pools, r.value.value.pools)
    ensures r.Ok? && Airborne(goal, c) ==> Airborne(goal, r.value.value)
    decreases |c.pos| - i
  {
    if i >= |c.pos| then
      SamePoolsRefl(c.pools);
      Ok(Drawn(c, o))
    else match MoveCrow(c, goal, i, o)
      case Err(e) => Err(e)
      case Ok(d) =>
        var r := MoveFrom(d.value, goal, i + 1, d.rest);
        assert r.Ok? ==> SamePools(c.pools, r.value.value.pools) by {
          if r.Ok? {
            SamePoolsTrans(c.pools, d.value.pools, r.value.value.pools);
          }
        }
        assert Airborne(goal, c) ==> Airborne(goal, d.value) by {
          if Airborne(goal, c) {
            MoveCrowAirborne(goal, c, i, o);
          }
        }
        r
  }

  /** Every solution has the goal's length. */
  predicate Sized(goal: seq<Item>, sols: seq<seq<Item>>) {
    forall i :: 0 <= i < |sols| ==> |sols[i]| == |goal|
  }

  /** A solution's fitness, for a solution of the goal's length. */
  function Fit(dist: Metric, goal: seq<Item>, s: seq<Item>): real
    requires |s| == |goal|
  {
    EvaluateFitness(dist, s, goal).value
  }

  /** The memory update: a crow whose position is strictly fitter than its
      memory remembers that position. `_evaluate_fitness` raises a
      RuntimeError for a solution of the wrong length. */
  function Remember(dist: Metric, goal: seq<Item>, mem: seq<seq<Item>>, pos: seq<seq<Item>>): (r: Result<seq<seq<Item>>>)
    requires |mem| == |pos|
    ensures r.Err? <==> !(Sized(goal, mem) && Sized(goal, pos))
    ensures r.Err? ==> r.error == RuntimeError
    ensures r.Ok? ==> |r.value| == |mem| && forall i :: 0 <= i < |mem| ==>
      (r.value[i] == mem[i] || r.value[i] == pos[i])
      && |r.value[i]| == |goal|
      && Fit(dist, goal, r.value[i]) <= Fit(dist, goal, mem[i])
      && (Fit(dist, goal, pos[i]) < Fit(dist, goal, mem[i]) <==> r.value[i] == pos[i] && pos[i] != mem[i])
  {
    if !(Sized(goal, mem) && Sized(goal, pos)) then Err(RuntimeError)
    else Ok(seq(|mem|, i requires 0 <= i < |mem| =>
      if Fit(dist, goal, pos[i]) < Fit(dist, goal, mem[i]) then pos[i] else mem[i]))
  }

  /** The iterations of `run`: every crow moves, then the memories are
      updated. The flock stays airborne, and no crow's memory ever gets
      worse. */
  function Iterate(dist: Metric, goal: seq<Item>, c: Crows, n: nat, o: Draws): (r: Result<Drawn<Crows>>)
    requires |c.mem| == |c.pos|
    ensures r.Ok? ==> |r.value.value.mem| == |c.mem| == |r.value.value.pos|
    ensures r.Ok? ==> SamePools(c.pools, r.value.value.pools)
    ensures r.Ok? && Airborne(goal, c) ==> Airborne(goal, r.value.value)
    ensures r.Ok? && Sized(goal, c.mem) ==> (Sized(goal, r.value.value.mem) &&
      forall i :: 0 <= i < |c.mem| ==> Fit(dist, goal, r.value.value.mem[i]) <= Fit(dist, goal, c.mem[i]))
    decreases n
  {
    if n == 0 then
      SamePoolsRefl(c.pools);
      Ok(Drawn(c, o))
    else match MoveFrom(c, goal, 0, o)
      case Err(e) => Err(e)
      case Ok(d) =>
        match Remember(dist, goal, d.value.mem, d.value.pos)
        case Err(e) => Err(e)
        case Ok(m) =>
          var c2 := d.value.(mem := m);
          assert Airborne(goal, d.value) ==> Airborne(goal, c2) by {
            if Airborne(goal, d.value) {
              forall k | 0 <= k < |m| ensures Assignment(c2.pools, goal, m[k]) {
                assert m[k] == d.value.mem[k] || m[k] == d.value.pos[k];
              }
            }
          }
          var r := Iterate(dist, goal, c2, n - 1, d.rest);
          assert r.Ok? ==> SamePools(c.pools, r.value.value.pools) by {
            if r.Ok? {
              SamePoolsTrans(c.pools, d.value.pools, r.value.value.pools);
            }
          }
          r
  }

  /** The scan for the best memory from `i` on, replacing the candidate
      whenever a memory is strictly fitter. */
  function Scan(dist: Metric, goal: seq<Item>, best: seq<Item>, mem: seq<seq<Item>>, i: nat): (r: seq<Item>)
    requires |best| == |goal| && Sized(goal, mem)
    ensures |r| == |goal|
    ensures r == best || exists k :: i <= k < |mem| && r == mem[k]
    ensures Fit(dist, goal, r) <= Fit(dist, goal, best)
    ensures forall k :: i <= k < |mem| ==> Fit(dist, goal, r) <= Fit(dist, goal, mem[k])
    decreases |mem| - i
  {
    if i >= |mem| then best
    else Scan(dist, goal, if Fit(dist, goal, best) > Fit(dist, goal, mem[i]) then mem[i] else best, mem, i + 1)
  }

  /** The end of `run`: a memory picked at random, then the fittest memory
      found scanning from the first. No memory is an IndexError, a memory of
      the wrong length a RuntimeError. */
  function SelectBest(dist: Metric, goal: seq<Item>, mem: seq<seq<Item>>, o: Draws): (r: Result<seq<Item>>)
    ensures |mem| == 0 ==> r == Err(IndexError)
    ensures |mem| > 0 && |o| > 0 && !Sized(goal, mem) ==> r == Err(RuntimeError)
    ensures r.Ok? ==> r.value in mem && |r.value| == |goal|
    ensures r.Ok? ==> Sized(goal, mem) && forall k :: 0 <= k < |mem| ==> Fit(dist, goal, r.value) <= Fit(dist, goal, mem[k])
  {
    match Choice(mem, o)
    case Err(e) => Err(e)
    case Ok(d) =>
      if !Sized(goal, mem) then Err(RuntimeError)
      else Ok(Scan(dist, goal, d.value, mem, 0))
  }

  /** What `run` returns, with the memories it leaves behind. */
  datatype Outcome = Outcome(fitness: real, best: seq<Item>, mem: seq<seq<Item>>)

  /** `run`: place the crows, iterate `MaxIter` times, return the fittest
      memory and its fitness. From well-formed pools, the result and every
      memory left behind are solutions of the goal drawn from the blocks. */
  function Run(dist: Metric, p: Population, o: Draws): (r: Result<Outcome>)
    ensures r.Ok? ==> r.value.best in r.value.mem && |r.value.mem| == Flock
    ensures r.Ok? ==> |r.value.best| == |p.goal| && r.value.fitness == Fit(dist, p.goal, r.value.best)
    ensures r.Ok? ==> forall k :: 0 <= k < |r.value.mem| ==>
      |r.value.mem[k]| == |p.goal| && r.value.fitness <= Fit(dist, p.goal, r.value.mem[k])
    ensures r.Ok? && PoolsOk(p.pools) ==>
      Assignment(p.pools, p.goal, r.value.best) && AllAssigned(p.pools, p.goal, r.value.mem)
  {
    match Flight(dist, p, o)
    case Err(e) => Err(e)
    case Ok(m) =>
      match SelectBest(dist, p.goal, m.value, m.rest)
      case Err(e) => Err(e)
      case Ok(best) => Ok(Outcome(Fit(dist, p.goal, best), best, m.value))
  }

  /** The crows placed and flown `MaxIter` times: their memories. */
  function Flight(dist: Metric, p: Population, o: Draws): (r: Result<Drawn<seq<seq<Item>>>>)
    ensures r.Ok? ==> |r.value.value| == Flock
    ensures r.Ok? && PoolsOk(p.pools) ==> AllAssigned(p.pools, p.goal, r.value.value)
  {
    match InitCrows(p.pools, p.goal, Flock, o)
    case Err(e) => Err(e)
    case Ok(c0) =>
      match Iterate(dist, p.goal, c0.value, MaxIter, c0.rest)
      case Err(e) => Err(e)
      case Ok(c) =>
        assert PoolsOk(p.pools) ==> AllAssigned(p.pools, p.goal, c.value.mem) by {
          if PoolsOk(p.pools) {
            SamePoolsTrans(p.pools, c0.value.pools, c.value.pools);
            SamePoolsSym(p.pools, c.value.pools);
            AllAssignedSamePools(c.value.pools, p.pools, p.goal, c.value.mem);
          }
        }
        Ok(Drawn(c.value.mem, c.rest))
  }
}
