/** The older cuckoo search of the `src` tree (`CuckooSearch` over search
    nodes). Every pass of `run` lays `NP` eggs in nests drawn among the
    current candidate's neighbours, runs generations 1 to `MaxGen - 1` in
    which selected cuckoos fly to neighbours of the best node and the worst
    nest is replaced by a kept one, then takes the fittest nest as the next
    candidate. The best node is replaced only by a strictly fitter one. The
    nests and the kept list are never cleared, so the nests grow from pass to
    pass. A run that has not met the goal within `fuel` passes reports
    `Diverges`. */
module LegacyCuckoo {
  import opened Common
  import opened Oracle
  import opened Search

  /** `NP`, the number of eggs laid per pass. */
  const Nests: nat := 40
  /** `keep`, the elitism factor. */
  const Keep: nat := 2
  /** `MaxGen`; generations run from 1 while below it. */
  const MaxGen: nat := 10

  /** The errors a pass can end with once its nests are set up. */
  const Faults: set<Error> := {ZeroDivisionError, ValueError, OracleExhausted}

  /** The argument of the constructor: a node, or anything else. */
  datatype StartArg<S, A> = NodeArg(node: Node<S, A>) | NotANode

  /** The fields `run` changes: `s_best`, `best_candidate`, `nests` and
      `KEEP_best_cuckoos`. */
  datatype Flock<S, A> = Flock(best: Node<S, A>, cand: Node<S, A>, nests: seq<Node<S, A>>, kept: seq<Node<S, A>>)

  /** `CuckooSearch(init_node, ...)` and the first line of `run`: the node is
      both the best node and the candidate, with no nests and nothing kept.
      Anything but a node is a ValueError. */
  function New<S, A>(start: StartArg<S, A>): (r: Result<Flock<S, A>>)
    ensures r.Err? <==> start.NotANode?
    ensures r.Err? ==> r.error == ValueError
    ensures r.Ok? ==> r.value.best == start.node && r.value.cand == start.node
    ensures r.Ok? ==> r.value.nests == [] && r.value.kept == []
  {
    match start
    case NotANode => Err(ValueError)
    case NodeArg(n) => Ok(Flock(n, n, [], []))
  }

  /** The key `sort_population` sorts by. */
  function Fit<S, A>(n: Node<S, A>): real {
    n.fitness as real
  }

  // ---------------------------------------------------------------------
  // Nests and elitism
  // ---------------------------------------------------------------------

  /** `initialize_nests`: `k` draws of an index into the locations, each
      location appended after the nests already there. No locations is a
      ValueError from `randint(0, -1)`. */
  function InitializeNests<S, A>(nests: seq<Node<S, A>>, locations: seq<Node<S, A>>, k: nat, o: Draws)
    : (r: Result<Drawn<seq<Node<S, A>>>>)
    ensures r.Ok? <==> k == 0 || (|locations| > 0 && |o| >= k)
    ensures r.Err? ==> r.error == (if |locations| == 0 then ValueError else OracleExhausted)
    ensures r.Ok? ==> |r.value.value| == |nests| + k && r.value.value[..|nests|] == nests && r.value.rest == o[k..]
    ensures r.Ok? ==> forall i :: |nests| <= i < |r.value.value| ==> r.value.value[i] in locations
    decreases k
  {
    if k == 0 then Ok(Drawn(nests, o))
    else match RandInt(0, |locations| - 1, o)
      case Err(e) => Err(e)
      case Ok(d) =>
        var r := InitializeNests(nests + [locations[d.value]], locations, k - 1, d.rest);
        assert r.Ok? ==> o[1..][k - 1..] == o[k..] && r.value.value[..|nests| + 1][..|nests|] == nests;
        r
  }

  /** The locations at the given indices, in order. */
  function Picks<T>(locations: seq<T>, ix: seq<nat>): (r: seq<T>)
    requires forall j :: 0 <= j < |ix| ==> ix[j] < |locations|
  {
    seq(|ix|, j requires 0 <= j < |ix| => locations[ix[j]])
  }

  /** One draw of `initialize_nests` appends the location it indexes. */
  lemma InitializeFirst<S, A>(nests: seq<Node<S, A>>, locations: seq<Node<S, A>>, k: nat, d: Draws)
    requires k > 0 && |d| > 0 && d[0] < |locations|
    ensures InitializeNests(nests, locations, k, d) == InitializeNests(nests + [locations[d[0]]], locations, k - 1, d[1..])
  {
    assert RandInt(0, |locations| - 1, d) == Ok(Drawn(d[0], d[1..]));
  }

  /** Any choice of locations, repeats allowed, is what some draws lay. */
  lemma {:induction false} InitializeReaches<S, A>(nests: seq<Node<S, A>>, locations: seq<Node<S, A>>, ix: seq<nat>, o: Draws)
    requires forall j :: 0 <= j < |ix| ==> ix[j] < |locations|
    ensures InitializeNests(nests, locations, |ix|, ix + o) == Ok(Drawn(nests + Picks(locations, ix), o))
    decreases |ix|
  {
    if |ix| > 0 {
      var x := locations[ix[0]];
      assert (ix + o)[0] == ix[0] && (ix + o)[1..] == ix[1..] + o;
      InitializeFirst(nests, locations, |ix|, ix + o);
      InitializeReaches(nests + [x], locations, ix[1..], o);
      assert nests + [x] + Picks(locations, ix[1..]) == nests + Picks(locations, ix) by {
        assert Picks(locations, ix) == [x] + Picks(locations, ix[1..]);
      }
    } else {
      assert ix + o == o && nests + Picks(locations, ix) == nests;
    }
  }

  /** A prefix of a sorted arrangement of a pool is sorted, is drawn from
      the pool, and no entry of it is worse than an entry of the pool left
      out of it. */
  lemma SortedPrefix<T>(all: seq<T>, pool: seq<T>, n: nat, key: T -> real)
    requires SortedBy(all, key) && multiset(all) == multiset(pool) && n <= |all|
    ensures SortedBy(all[..n], key) && multiset(all[..n]) <= multiset(pool)
    ensures forall x, y :: x in all[..n] && y in pool && y !in all[..n] ==> key(x) <= key(y)
  {
    assert multiset(all) == multiset(all[..n]) + multiset(all[n..]) by {
      assert all == all[..n] + all[n..];
    }
    forall x, y | x in all[..n] && y in pool && y !in all[..n] ensures key(x) <= key(y) {
      var i :| 0 <= i < n && all[..n][i] == x;
      assert y in multiset(all);
      var j :| 0 <= j < |all| && all[j] == y;
    }
  }

  /** `keep_best_cuckoos`: the nests at positions 1 to `keep - 1` join the
      kept list, which is sorted and cut back to `keep` entries. With
      `keep = 2` only the second nest joins: the first is never kept. */
  function KeepBest<S(==), A(==)>(nests: seq<Node<S, A>>, kept: seq<Node<S, A>>): (r: Result<seq<Node<S, A>>>)
    ensures r.Ok? <==> |nests| >= Keep
    ensures r.Err? ==> r.error == IndexError
    ensures r.Ok? ==> SortedBy(r.value, Fit) && |r.value| == if |kept| + Keep - 1 < Keep then |kept| + Keep - 1 else Keep
    ensures r.Ok? ==> multiset(r.value) <= multiset(kept + nests[1..Keep])
    ensures r.Ok? ==> forall x, y :: x in r.value && y in kept + nests[1..Keep] && y !in r.value ==> Fit(x) <= Fit(y)
  {
    if |nests| < Keep then Err(IndexError)
    else
      var pool := kept + nests[1..Keep];
      var all := SortBy(pool, Fit);
      var n := if |all| > Keep then Keep else |all|;
      SortedPrefix(all, pool, n, Fit);
      Ok(all[..n])
  }

  /** As written, from an empty kept list only the second nest is kept. */
  lemma KeepBestSkipsFirst<S, A>(nests: seq<Node<S, A>>)
    requires |nests| >= Keep
    ensures KeepBest(nests, []) == Ok([nests[1]])
  {
    assert [] + nests[1..Keep] == [nests[1]];
  }

  /** `replace_worst_cuckoos`: `keep - 1` nests are popped from the end, then
      the first `keep - 1` kept nests are appended. Popping an empty list or
      reading past the kept list is an IndexError. */
  function ReplaceWorst<T>(nests: seq<T>, kept: seq<T>): (r: Result<seq<T>>)
    ensures r.Ok? <==> |nests| >= Keep - 1 && |kept| >= Keep - 1
    ensures r.Err? ==> r.error == IndexError
    ensures r.Ok? ==> |r.value| == |nests|
    ensures r.Ok? ==> r.value[..|nests| - (Keep - 1)] == nests[..|nests| - (Keep - 1)]
    ensures r.Ok? ==> r.value[|nests| - (Keep - 1)..] == kept[..Keep - 1]
  {
    if |nests| < Keep - 1 || |kept| < Keep - 1 then Err(IndexError)
    else Ok(nests[..|nests| - (Keep - 1)] + kept[..Keep - 1])
  }

  /** Every entry after a replacement comes from the nests or the kept list. */
  lemma ReplaceWorstFrom<T>(nests: seq<T>, kept: seq<T>)
    requires ReplaceWorst(nests, kept).Ok?
    ensures forall x :: x in ReplaceWorst(nests, kept).value ==> x in nests || x in kept
  {
    var r := ReplaceWorst(nests, kept).value;
    var m := |nests| - (Keep - 1);
    forall x | x in r ensures x in nests || x in kept {
      var i :| 0 <= i < |r| && r[i] == x;
      if i < m {
        assert r[..m][i] == x;
      } else {
        assert r[m..][i - m] == x;
      }
    }
  }

  // ---------------------------------------------------------------------
  // Laying eggs
  // ---------------------------------------------------------------------

  /** `select_cuckoo(i)`: a draw from `[0, NP - 1]` hits `i`. */
  function Select(i: nat, o: Draws): (r: Result<Drawn<bool>>)
    ensures |o| > 0 <==> r.Ok?
    ensures r.Err? ==> r.error == OracleExhausted
    ensures r.Ok? ==> r.value.rest == o[1..] && (r.value.value <==> o[0] % Nests == i)
  {
    match RandInt(0, Nests - 1, o)
    case Err(e) => Err(e)
    case Ok(v) => Ok(Drawn(v.value == i, v.rest))
  }

  /** `s[k]`, where a negative `k` counts from the end. */
  function At<T>(s: seq<T>, k: int): (r: Result<T>)
    ensures r.Ok? <==> -|s| <= k < |s|
    ensures r.Err? ==> r.error == IndexError
    ensures r.Ok? ==> r.value in s
  {
    if k < -|s| || k >= |s| then Err(IndexError)
    else if k < 0 then Ok(s[|s| + k])
    else Ok(s[k])
  }

  /** `int(bw * (2 * random.random() - 1))`: an offset in `[-bw, bw - 1]`,
      or 0 when `bw` is 0. */
  function Offset(bw: nat, d: nat): (r: int)
    ensures bw == 0 ==> r == 0
    ensures bw > 0 ==> -(bw as int) <= r < bw
  {
    if bw == 0 then 0 else (d % (2 * bw)) as int - bw
  }

  /** The step of the harmony branch of `choose_new_nest`, for `size`
      neighbours: the Lévy step is taken as a drawn natural number added to
      the cuckoo's index; with pitch adjustment it is replaced by the index
      plus an offset within half the neighbours. */
  function HarmonyStep(cuckoo: nat, size: nat, adjust: bool, o: Draws): (r: Result<Drawn<int>>)
    ensures r.Err? ==> r.error == OracleExhausted
    ensures |o| >= 2 ==> r.Ok?
    ensures r.Ok? ==> r.value.value >= -((size / 2) as int)
  {
    if |o| == 0 then Err(OracleExhausted)
    else if !adjust then Ok(Drawn(cuckoo + o[0], o[1..]))
    else if |o| == 1 then Err(OracleExhausted)
    else Ok(Drawn(cuckoo + Offset(size / 2, o[1]), o[2..]))
  }

  /** `choose_new_nest(cuckoo)`: two uniform draws against `HMCR = 0.9` and
      `PAR = 0.1`, read to the hundredth; the harmony branch wraps a step at
      or past the end round the best node's neighbours (no neighbours: a
      ZeroDivisionError) and reads a negative one from the end; the other
      branch draws an index (no neighbours: a ValueError). */
  function ChooseNewNest<S, A>(p: Problem<S, A>, best: Node<S, A>, cuckoo: nat, o: Draws): (r: Result<Drawn<Node<S, A>>>)
    ensures r.Ok? ==> r.value.value in Expand(p, best)
    ensures r.Err? ==> r.error in Faults
    ensures |Expand(p, best)| == 0 ==> r.Err?
    ensures |Expand(p, best)| > 0 && |o| >= 4 ==> r.Ok?
  {
    var nb := Expand(p, best);
    match Chance(o)
    case Err(e) => Err(e)
    case Ok(x1) =>
      match Chance(x1.rest)
      case Err(e) => Err(e)
      case Ok(x2) =>
        if x1.value < 90 then
          match HarmonyStep(cuckoo, |nb|, x2.value < 10, x2.rest)
          case Err(e) => Err(e)
          case Ok(st) =>
            if st.value >= |nb| && |nb| == 0 then Err(ZeroDivisionError)
            else
              var k := if st.value >= |nb| then st.value % |nb| else st.value;
              match At(nb, k)
              case Err(e) => assert false; Err(e)
              case Ok(n) => Ok(Drawn(n, st.rest))
        else
          match RandInt(0, |nb| - 1, x2.rest)
          case Err(e) => Err(e)
          case Ok(d) => Ok(Drawn(nb[d.value], d.rest))
  }

  /** Every neighbour of the best node can be the new nest. */
  lemma ChooseReaches<S, A>(p: Problem<S, A>, best: Node<S, A>, cuckoo: nat, j: nat, o: Draws)
    requires j < |Expand(p, best)|
    ensures ChooseNewNest(p, best, cuckoo, [90, 0, j] + o) == Ok(Drawn(Expand(p, best)[j], o))
  {
    var d := [90, 0, j] + o;
    assert d[0] == 90 && d[1..][0] == 0 && d[1..][1..] == [j] + o;
    RandIntReaches(0, |Expand(p, best)| - 1, j, o);
  }

  /** The body of the `for i` loop up to the sort: when cuckoo `i` is
      selected its new nest is chosen, nest `i` is popped and the new nest
      appended. */
  function Egg<S, A>(p: Problem<S, A>, best: Node<S, A>, i: nat, nests: seq<Node<S, A>>, o: Draws)
    : (r: Result<Drawn<seq<Node<S, A>>>>)
    ensures r.Ok? ==> |r.value.value| == |nests|
    ensures r.Ok? ==> forall n :: n in r.value.value ==> n in nests || n in Expand(p, best)
    ensures r.Err? ==> r.error in Faults || (r.error == IndexError && i >= |nests|)
  {
    match Select(i, o)
    case Err(e) => Err(e)
    case Ok(v) =>
      if !v.value then Ok(Drawn(nests, v.rest))
      else match ChooseNewNest(p, best, i, v.rest)
        case Err(e) => Err(e)
        case Ok(c) =>
          if i >= |nests| then Err(IndexError)
          else Ok(Drawn(RemoveAt(nests, i) + [c.value], c.rest))
  }

  /** The whole body of the `for i` loop: the egg, then sorting and
      replacing the worst nest. */
  function Lay<S(==), A(==)>(p: Problem<S, A>, i: nat, f: Flock<S, A>, o: Draws): (r: Result<Drawn<Flock<S, A>>>)
    ensures r.Ok? ==> r.value.value.best == f.best && r.value.value.cand == f.cand && r.value.value.kept == f.kept
    ensures r.Ok? ==> |r.value.value.nests| == |f.nests|
    ensures r.Ok? ==> forall n :: n in r.value.value.nests ==> n in f.nests || n in f.kept || n in Expand(p, f.best)
    ensures r.Err? && i < |f.nests| && |f.kept| >= Keep - 1 ==> r.error in Faults
  {
    match Egg(p, f.best, i, f.nests, o)
    case Err(e) => Err(e)
    case Ok(g) =>
      var sorted := SortBy(g.value, Fit);
      match ReplaceWorst(sorted, f.kept)
      case Err(e) => Err(e)
      case Ok(ns) =>
        ReplaceWorstFrom(sorted, f.kept);
        assert forall n :: n in sorted ==> n in multiset(g.value);
        Ok(Drawn(f.(nests := ns), g.rest))
  }

  /** The `for i` loop as a step of a loop over the cuckoos. */
  function Lays<S(==), A(==)>(p: Problem<S, A>): IndexedStep<Flock<S, A>> {
    (i: nat, f: Flock<S, A>, o: Draws) => Lay(p, i, f, o)
  }

  // ---------------------------------------------------------------------
  // Generations and passes
  // ---------------------------------------------------------------------

  /** One pass of the inner `while` loop: sort, keep the best, then the
      `for` loop over cuckoos 1 to `NP - 1`. */
  function Generation<S(==), A(==)>(p: Problem<S, A>, f: Flock<S, A>, o: Draws): Result<Drawn<Flock<S, A>>> {
    var sorted := SortBy(f.nests, Fit);
    match KeepBest(sorted, f.kept)
    case Err(e) => Err(e)
    case Ok(kept) => ForRange(Lays(p), f.(nests := sorted, kept := kept), 1, Nests, o)
  }

  /** A generation as a step of the inner loop. */
  function Generations<S(==), A(==)>(p: Problem<S, A>): Step<Flock<S, A>> {
    (f, o) => Generation(p, f, o)
  }

  /** What the `for` loop from cuckoo `i` on keeps: the best node, the
      candidate, the kept list and the number of nests; with at least `NP`
      nests and one kept it cannot fail on an index. */
  lemma {:induction false} LaysKeep<S, A>(p: Problem<S, A>, x: Flock<S, A>, i: nat, o: Draws)
    ensures ForRange(Lays(p), x, i, Nests, o).Ok? ==> var g := ForRange(Lays(p), x, i, Nests, o).value.value;
      g.best == x.best && g.cand == x.cand && g.kept == x.kept && |g.nests| == |x.nests|
    ensures ForRange(Lays(p), x, i, Nests, o).Err? && |x.nests| >= Nests && |x.kept| >= Keep - 1 ==>
      ForRange(Lays(p), x, i, Nests, o).error in Faults
    decreases Nests - i
  {
    if i < Nests && Lay(p, i, x, o).Ok? {
      LaysKeep(p, Lay(p, i, x, o).value.value, i + 1, Lay(p, i, x, o).value.rest);
    }
  }

  /** What a generation keeps: the best node, the candidate and the number of
      nests; from at least `NP` nests it cannot fail on an index. */
  lemma GenerationKeeps<S, A>(p: Problem<S, A>, f: Flock<S, A>, o: Draws)
    ensures Generation(p, f, o).Ok? ==> var g := Generation(p, f, o).value.value;
      g.best == f.best && g.cand == f.cand && |g.nests| == |f.nests|
    ensures Generation(p, f, o).Err? && |f.nests| >= Nests ==> Generation(p, f, o).error in Faults
  {
    var sorted := SortBy(f.nests, Fit);
    var kb := KeepBest(sorted, f.kept);
    if kb.Ok? {
      LaysKeep(p, f.(nests := sorted, kept := kb.value), 1, o);
    }
  }

  /** The same over the generations of one pass. */
  lemma GenerationsKeep<S, A>(p: Problem<S, A>, f: Flock<S, A>, n: nat, o: Draws)
    ensures Iterate(Generations(p), f, n, o).Ok? ==> var g := Iterate(Generations(p), f, n, o).value.value;
      g.best == f.best && g.cand == f.cand && |g.nests| == |f.nests|
    ensures Iterate(Generations(p), f, n, o).Err? && |f.nests| >= Nests ==> Iterate(Generations(p), f, n, o).error in Faults
  {
    forall q: Flock<S, A>, d: Draws ensures Generations(p)(q, d).Ok? ==> var g := Generations(p)(q, d).value.value;
      g.best == q.best && g.cand == q.cand && |g.nests| == |q.nests|
    ensures Generations(p)(q, d).Err? && |q.nests| >= Nests ==> Generations(p)(q, d).error in Faults
    {
      GenerationKeeps(p, q, d);
    }
    IterateKeeps(Generations(p), (q: Flock<S, A>) => q.best == f.best && q.cand == f.cand && |q.nests| == |f.nests|, f, n, o);
    if |f.nests| >= Nests {
      IterateErrors(Generations(p), (q: Flock<S, A>) => |q.nests| >= Nests, Faults, f, n, o);
    }
  }

  /** The first entry of a sorted sequence is no worse than the rest. */
  lemma SortedFirst<S, A>(s: seq<Node<S, A>>)
    requires SortedBy(s, Fit) && |s| > 0
    ensures forall n :: n in s[1..] ==> n in s && s[0].fitness <= n.fitness
  {
    forall n | n in s[1..] ensures n in s && s[0].fitness <= n.fitness {
      var i :| 0 <= i < |s[1..]| && s[1..][i] == n;
      assert Fit(s[0]) <= Fit(s[i + 1]);
    }
  }

  /** The end of a pass: sort, pop the first nest as the new candidate, and
      make it the best node when it is strictly fitter (`best_candidate <
      s_best` compares fitness). Popping no nests is an IndexError. */
  function PopFittest<S(==), A(==)>(f: Flock<S, A>): (r: Result<Flock<S, A>>)
    ensures r.Ok? <==> |f.nests| > 0
    ensures r.Err? ==> r.error == IndexError
    ensures r.Ok? ==> var g := r.value;
      (g.best == f.best || (g.best == g.cand && Better(g.cand, f.best))) && g.best.fitness <= f.best.fitness
    ensures r.Ok? ==> var g := r.value;
      |g.nests| == |f.nests| - 1 && g.kept == f.kept && forall n :: n in g.nests ==> g.cand.fitness <= n.fitness
    ensures r.Ok? ==> r.value.cand in f.nests && forall n :: n in r.value.nests ==> n in f.nests
  {
    var sorted := SortBy(f.nests, Fit);
    if |sorted| == 0 then Err(IndexError)
    else
      var c := sorted[0];
      SortFrom(f.nests);
      SortedFirst(sorted);
      Ok(Flock(if Better(c, f.best) then c else f.best, c, sorted[1..], f.kept))
  }

  /** One pass of the outer `while` loop: lay `NP` eggs among the candidate's
      neighbours, run the generations, then pop the fittest nest. */
  function Pass<S(==), A(==)>(p: Problem<S, A>, f: Flock<S, A>, o: Draws): (r: Result<Drawn<Flock<S, A>>>)
    ensures r.Ok? ==> var g := r.value.value;
      (g.best == f.best || (g.best == g.cand && Better(g.cand, f.best))) && g.best.fitness <= f.best.fitness
    ensures r.Ok? ==> var g := r.value.value;
      |g.nests| == |f.nests| + Nests - 1 && forall n :: n in g.nests ==> g.cand.fitness <= n.fitness
    ensures r.Err? ==> r.error in Faults
  {
    match InitializeNests(f.nests, Expand(p, f.cand), Nests, o)
    case Err(e) => Err(e)
    case Ok(ns) =>
      var x := f.(nests := ns.value);
      GenerationsKeep(p, x, MaxGen - 1, ns.rest);
      match Iterate(Generations(p), x, MaxGen - 1, ns.rest)
      case Err(e) => Err(e)
      case Ok(g) =>
        match PopFittest(g.value)
        case Err(e) => Err(e)
        case Ok(h) => Ok(Drawn(h, g.rest))
  }

  /** A pass as a step of the outer loop. */
  function Passes<S(==), A(==)>(p: Problem<S, A>): Step<Flock<S, A>> {
    (f: Flock<S, A>, o: Draws) => Pass(p, f, o)
  }

  /** The outer loop's test: the best node meets the goal. */
  function Solved<S, A>(p: Problem<S, A>): Flock<S, A> -> bool {
    (f: Flock<S, A>) => p.goal(f.best.state)
  }

  /** Passes never make the best node worse and fail only with the faults
      of a pass or by running out of fuel. */
  lemma PassesKeep<S, A>(p: Problem<S, A>, f: Flock<S, A>, fuel: nat, o: Draws)
    ensures Until(Solved(p), Passes(p), f, fuel, o).Ok? ==>
      Until(Solved(p), Passes(p), f, fuel, o).value.best.fitness <= f.best.fitness
    ensures Until(Solved(p), Passes(p), f, fuel, o).Err? ==>
      Until(Solved(p), Passes(p), f, fuel, o).error in Faults + {Diverges}
  {
    forall q: Flock<S, A>, d: Draws | q.best.fitness <= f.best.fitness && Passes(p)(q, d).Ok?
      ensures Passes(p)(q, d).value.value.best.fitness <= f.best.fitness
    {
    }
    UntilKeeps(Solved(p), Passes(p), (q: Flock<S, A>) => q.best.fitness <= f.best.fitness, f, fuel, o);
    forall q: Flock<S, A>, d: Draws ensures Passes(p)(q, d).Err? ==> Passes(p)(q, d).error in Faults {
    }
    UntilErrors(Solved(p), Passes(p), Faults, f, fuel, o);
  }

  /** The outer `while` loop: stop once the best node meets the goal. */
  function Loop<S(==), A(==)>(p: Problem<S, A>, f: Flock<S, A>, fuel: nat, o: Draws): (r: Result<Node<S, A>>)
    ensures p.goal(f.best.state) ==> r == Ok(f.best)
    ensures r.Ok? ==> p.goal(r.value.state) && r.value.fitness <= f.best.fitness
    ensures r.Err? ==> r.error in Faults + {Diverges}
  {
    PassesKeep(p, f, fuel, o);
    match Until(Solved(p), Passes(p), f, fuel, o)
    case Err(e) => Err(e)
    case Ok(g) => Ok(g.best)
  }

  /** `CuckooSearch(init_node, ...)` followed by `run()`. */
  function Run<S(==), A(==)>(p: Problem<S, A>, start: StartArg<S, A>, fuel: nat, o: Draws): (r: Result<Node<S, A>>)
    ensures start.NotANode? ==> r == Err(ValueError)
    ensures start.NodeArg? && p.goal(start.node.state) ==> r == Ok(start.node)
    ensures r.Ok? ==> p.goal(r.value.state) && r.value.fitness <= start.node.fitness
    ensures r.Err? ==> r.error in Faults + {Diverges}
  {
    match New(start)
    case Err(e) => Err(e)
    case Ok(f) => Loop(p, f, fuel, o)
  }

  // ---------------------------------------------------------------------
  // Every node on a path from the start
  // ---------------------------------------------------------------------

  /** All nodes `run` holds descend from the start. */
  predicate Rooted<S(==), A(==)>(p: Problem<S, A>, f: Flock<S, A>, root: Node<S, A>) {
    && Descends(p, f.best, root) && Descends(p, f.cand, root)
    && (forall n :: n in f.nests ==> Descends(p, n, root))
    && (forall n :: n in f.kept ==> Descends(p, n, root))
  }

  /** The neighbours of a node on a path from the start are on one too. */
  lemma ExpandRooted<S, A>(p: Problem<S, A>, n: Node<S, A>, root: Node<S, A>)
    requires Descends(p, n, root)
    ensures forall c :: c in Expand(p, n) ==> Descends(p, c, root)
  {
    forall c | c in Expand(p, n) ensures Descends(p, c, root) {
      var i :| 0 <= i < |Expand(p, n)| && Expand(p, n)[i] == c;
      ExpandDescends(p, n, root, i);
    }
  }

  lemma LayRooted<S, A>(p: Problem<S, A>, i: nat, f: Flock<S, A>, root: Node<S, A>, o: Draws)
    requires Rooted(p, f, root)
    ensures Lay(p, i, f, o).Ok? ==> Rooted(p, Lay(p, i, f, o).value.value, root)
  {
    ExpandRooted(p, f.best, root);
  }

  /** Sorting keeps the entries. */
  lemma SortFrom<S, A>(s: seq<Node<S, A>>)
    ensures forall n :: n in SortBy(s, Fit) ==> n in s
  {
    assert forall n :: n in SortBy(s, Fit) ==> n in multiset(s);
  }

  /** Every kept nest was kept before or is one of the nests. */
  lemma KeepBestFrom<S, A>(nests: seq<Node<S, A>>, kept: seq<Node<S, A>>)
    requires |nests| >= Keep
    ensures forall n :: n in KeepBest(nests, kept).value ==> n in kept || n in nests
  {
    var r := KeepBest(nests, kept).value;
    forall n | n in r ensures n in kept || n in nests {
      assert n in multiset(kept + nests[1..Keep]);
      assert n in kept || n in nests[1..Keep];
    }
  }

  /** The `for` loop from cuckoo `i` on keeps the nodes on paths from the
      start. */
  lemma {:induction false} LaysRooted<S, A>(p: Problem<S, A>, x: Flock<S, A>, root: Node<S, A>, i: nat, o: Draws)
    requires Rooted(p, x, root)
    ensures ForRange(Lays(p), x, i, Nests, o).Ok? ==> Rooted(p, ForRange(Lays(p), x, i, Nests, o).value.value, root)
    decreases Nests - i
  {
    if i < Nests && Lay(p, i, x, o).Ok? {
      LayRooted(p, i, x, root, o);
      LaysRooted(p, Lay(p, i, x, o).value.value, root, i + 1, Lay(p, i, x, o).value.rest);
    }
  }

  /** A generation keeps every node on a path from the start. */
  lemma GenerationRooted<S, A>(p: Problem<S, A>, f: Flock<S, A>, root: Node<S, A>, o: Draws)
    requires Rooted(p, f, root)
    ensures Generation(p, f, o).Ok? ==> Rooted(p, Generation(p, f, o).value.value, root)
  {
    var sorted := SortBy(f.nests, Fit);
    var kb := KeepBest(sorted, f.kept);
    if kb.Ok? {
      SortFrom(f.nests);
      KeepBestFrom(sorted, f.kept);
      LaysRooted(p, f.(nests := sorted, kept := kb.value), root, 1, o);
    }
  }

  /** Laying among the candidate's neighbours keeps the nests on paths
      from the start. */
  lemma InitializeRooted<S, A>(p: Problem<S, A>, f: Flock<S, A>, root: Node<S, A>, o: Draws)
    requires Rooted(p, f, root) && InitializeNests(f.nests, Expand(p, f.cand), Nests, o).Ok?
    ensures Rooted(p, f.(nests := InitializeNests(f.nests, Expand(p, f.cand), Nests, o).value.value), root)
  {
    var ns := InitializeNests(f.nests, Expand(p, f.cand), Nests, o).value.value;
    ExpandRooted(p, f.cand, root);
    forall n | n in ns ensures Descends(p, n, root) {
      var i :| 0 <= i < |ns| && ns[i] == n;
      if i < |f.nests| {
        assert ns[..|f.nests|][i] == n;
      }
    }
  }

  /** The generations keep the nodes on paths from the start. */
  lemma GenerationsRooted<S, A>(p: Problem<S, A>, x: Flock<S, A>, root: Node<S, A>, n: nat, o: Draws)
    requires Rooted(p, x, root)
    ensures Iterate(Generations(p), x, n, o).Ok? ==> Rooted(p, Iterate(Generations(p), x, n, o).value.value, root)
  {
    forall q: Flock<S, A>, d: Draws | Rooted(p, q, root) && Generations(p)(q, d).Ok?
      ensures Rooted(p, Generations(p)(q, d).value.value, root)
    {
      GenerationRooted(p, q, root, d);
    }
    IterateKeeps(Generations(p), (q: Flock<S, A>) => Rooted(p, q, root), x, n, o);
  }

  /** A pass keeps every node on a path from the start. */
  lemma PassRooted<S, A>(p: Problem<S, A>, f: Flock<S, A>, root: Node<S, A>, o: Draws)
    requires Rooted(p, f, root)
    ensures Pass(p, f, o).Ok? ==> Rooted(p, Pass(p, f, o).value.value, root)
  {
    var ns := InitializeNests(f.nests, Expand(p, f.cand), Nests, o);
    if ns.Ok? {
      InitializeRooted(p, f, root, o);
      var x := f.(nests := ns.value.value);
      GenerationsRooted(p, x, root, MaxGen - 1, ns.value.rest);
      GenerationsKeep(p, x, MaxGen - 1, ns.value.rest);
    }
  }

  /** The node the outer loop stops at lies on a path from the start. */
  lemma LoopRooted<S, A>(p: Problem<S, A>, f: Flock<S, A>, root: Node<S, A>, fuel: nat, o: Draws)
    requires Rooted(p, f, root)
    ensures Loop(p, f, fuel, o).Ok? ==> Descends(p, Loop(p, f, fuel, o).value, root)
  {
    forall q: Flock<S, A>, d: Draws | Rooted(p, q, root) && Passes(p)(q, d).Ok?
      ensures Rooted(p, Passes(p)(q, d).value.value, root)
    {
      PassRooted(p, q, root, d);
    }
    UntilKeeps(Solved(p), Passes(p), (q: Flock<S, A>) => Rooted(p, q, root), f, fuel, o);
  }

  /** The node `run` returns lies on an expansion path from the start: its
      actions, replayed from the start state, lead to a state meeting the
      goal. */
  lemma RunReplays<S, A>(p: Problem<S, A>, start: Node<S, A>, fuel: nat, o: Draws)
    requires start.Root? && Run(p, NodeArg(start), fuel, o).Ok?
    ensures var n := Run(p, NodeArg(start), fuel, o).value;
      ApplyAll(p, start.state, GetActions(n)) == n.state && p.goal(n.state)
  {
    LoopRooted(p, Flock(start, start, [], []), start, fuel, o);
    ReplayReaches(p, Run(p, NodeArg(start), fuel, o).value, start);
  }
}
