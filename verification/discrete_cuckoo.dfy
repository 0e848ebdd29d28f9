/** `DiscreteCuckoo`: a cuckoo search over solutions of the goal, kept
    sorted by fitness. In every generation the best `pc` nests lay eggs by
    a two-opt move or a double bridge move and an egg takes a randomly
    chosen nest if it is fitter; the middle nests make a two-opt move, the
    worst `pa` are abandoned for random solutions, and the nests are
    sorted again. The two-opt move exchanges a slot's block with another
    block of the same colour. */
module DiscreteCuckoo {
  import opened Common
  import opened Labels
  import opened WorldModel
  import opened Oracle
  import opened PopulationAlgorithm

  /** `maxgen`. */
  const MaxGen: nat := 40
  /** `population`, the number of nests. */
  const Population: nat := 20
  /** `pa`, int(0.2 * population): the nests abandoned each generation. */
  const Abandon: nat := 4
  /** `pc`, int(0.6 * population): the nests that lay eggs. */
  const Breed: nat := 12
  /** The step decision. `_levy_flight(u)` is u^(-1/3) and exceeds the
      threshold 1.8 exactly when u is below 1.8^-3, about 0.1715; the model
      draws a percentile and takes the double bridge below this one. */
  const BigStepBelow: nat := 17

  /** The blocks of `sol` of `b`'s colour, other than `b`. */
  function Mates(sol: seq<Block>, b: Block): seq<Block> {
    Filter(sol, (t: Block) => t.id == b.id && t != b)
  }

  /** No slot has another block of its colour. */
  predicate Lonely(sol: seq<Block>) {
    forall i :: 0 <= i < |sol| ==> |Mates(sol, sol[i])| == 0
  }

  /** Block `b` of `sol` is never among its own mates. */
  lemma MatesShorter(sol: seq<Block>, i: nat)
    requires i < |sol|
    ensures |Mates(sol, sol[i])| < |sol|
  {
    FilterDrops(sol, (t: Block) => t.id == sol[i].id && t != sol[i], i);
  }

  /** `_two_opt_move` as written: draw a slot with `randint(0, len - 1)`,
      collect the other blocks of its colour, draw again while there are
      none, then swap the slot with the slot at `randint(0, len(same))`: an
      index into the whole solution drawn from the size of the mate list.
      The result is a permutation of the input. */
  function TwoOptAsWritten(sol: seq<Block>, o: Draws): (r: Result<Drawn<seq<Block>>>)
    ensures |sol| == 0 ==> r == Err(ValueError)
    ensures |sol| > 0 && Lonely(sol) ==> r == Err(OracleExhausted)
    ensures r.Ok? ==> |r.value.value| == |sol| && multiset(r.value.value) == multiset(sol)
    decreases |o|
  {
    match RandInt(0, |sol| - 1, o)
    case Err(e) => Err(e)
    case Ok(d) =>
      var i := d.value;
      var same := Mates(sol, sol[i]);
      if |same| == 0 then TwoOptAsWritten(sol, d.rest)
      else match RandInt(0, |same|, d.rest)
        case Err(e) => Err(e)
        case Ok(e) =>
          MatesShorter(sol, i);
          Ok(Drawn(Swap(sol, i, e.value), e.rest))
  }

  /** A red, a green and a red block, used as both goal and solution. */
  const RedGreenRed: seq<Block> := [Entry(Red, Cell(1, 0, 0)), Entry(Green, Cell(2, 0, 0)), Entry(Red, Cell(3, 0, 0))]

  lemma RedGreenRedMates()
    ensures Mates(RedGreenRed, RedGreenRed[2]) == [RedGreenRed[0]]
  {
    var sol := RedGreenRed;
    var keep := (t: Block) => t.id == sol[2].id && t != sol[2];
    assert Filter(sol[2..], keep) == [];
    assert sol[1..][1..] == sol[2..];
    assert Filter(sol[1..], keep) == [];
  }

  /** Red, green, red: the third slot's mate list has one entry, so the
      partner index may be 1, and the swap puts a red block in the green
      slot. */
  lemma TwoOptRecolours(o: Draws)
    ensures TwoOptAsWritten(RedGreenRed, [2, 1] + o) == Ok(Drawn([RedGreenRed[0], RedGreenRed[2], RedGreenRed[1]], o))
  {
    var sol := RedGreenRed;
    RedGreenRedMates();
    TwoOptAsWrittenSwaps(sol, 2, 1, o);
    assert Swap(sol, 2, 1) == [sol[0], sol[2], sol[1]];
  }

  /** The draws `i` and then `j` swap slot `i` with slot `j`, once slot `i`
      has a mate and `j` is at most the number of its mates. */
  lemma TwoOptAsWrittenSwaps(sol: seq<Block>, i: nat, j: nat, o: Draws)
    requires i < |sol| && 0 < |Mates(sol, sol[i])| && j <= |Mates(sol, sol[i])|
    ensures j < |sol|
    ensures TwoOptAsWritten(sol, [i, j] + o) == Ok(Drawn(Swap(sol, i, j), o))
  {
    MatesShorter(sol, i);
    var o1 := [j] + o;
    RandIntReaches(0, |sol| - 1, i, o1);
    assert [i, j] + o == [(i - 0) as nat] + o1;
    assert RandInt(0, |sol| - 1, [i, j] + o) == Ok(Drawn(i, o1));
    RandIntReaches(0, |Mates(sol, sol[i])|, j, o);
    assert RandInt(0, |Mates(sol, sol[i])|, o1) == Ok(Drawn(j, o));
  }

  /** The goal red, green, red is met by its own blocks, and is no longer
      met once the two-opt move above recolours the middle slot. */
  lemma TwoOptBreaksFit()
    ensures Fits(RedGreenRed, RedGreenRed, RedGreenRed)
    ensures !Fits(RedGreenRed, RedGreenRed, [RedGreenRed[0], RedGreenRed[2], RedGreenRed[1]])
  {
    var sol := RedGreenRed;
    assert [sol[0], sol[2], sol[1]][1].id != sol[1].id;
    assert NoDup(sol) by {
      forall i, j | 0 <= i < j < 3 ensures sol[i] != sol[j] {
        assert sol[i].pos.x != sol[j].pos.x;
      }
    }
  }

  /** The same slots with the blocks permuted among slots of one colour. */
  predicate SameSlots(sol: seq<Block>, r: seq<Block>) {
    && |r| == |sol|
    && multiset(r) == multiset(sol)
    && forall k :: 0 <= k < |sol| ==> r[k].id == sol[k].id
  }

  /** `_two_opt_move` as evidently intended: the slot swaps with the slot
      of a mate drawn from the mate list. Every slot keeps its colour, and
      the solution changes. */
  function TwoOpt(sol: seq<Block>, o: Draws): (r: Result<Drawn<seq<Block>>>)
    ensures |sol| == 0 ==> r == Err(ValueError)
    ensures |sol| > 0 && Lonely(sol) ==> r == Err(OracleExhausted)
    ensures r.Ok? ==> SameSlots(sol, r.value.value) && r.value.value != sol
    decreases |o|
  {
    match RandInt(0, |sol| - 1, o)
    case Err(e) => Err(e)
    case Ok(d) =>
      var i := d.value;
      var same := Mates(sol, sol[i]);
      if |same| == 0 then TwoOpt(sol, d.rest)
      else match RandInt(0, |same| - 1, d.rest)
        case Err(e) => Err(e)
        case Ok(e) =>
          var k := IndexOf(sol, same[e.value]);
          var r := Swap(sol, i, k);
          assert r[i] != sol[i];
          Ok(Drawn(r, e.rest))
  }

  /** Permuting blocks among slots of one colour keeps a solution one. */
  lemma SameSlotsFits(blocks: seq<Block>, goal: seq<Block>, sol: seq<Block>, r: seq<Block>)
    requires Fits(blocks, goal, sol) && SameSlots(sol, r)
    ensures Fits(blocks, goal, r)
  {
    NoDupPerm(sol, r);
    forall k | 0 <= k < |r| ensures r[k] in blocks {
      assert r[k] in multiset(sol);
    }
  }

  /** The four two-opt calls of `_double_bridge_move`, whose results are
      dropped; only the draws they use are gone. */
  function Discarded(sol: seq<Block>, n: nat, o: Draws): (r: Result<Draws>)
    ensures |sol| == 0 && n > 0 ==> r == Err(ValueError)
    decreases n
  {
    if n == 0 then Ok(o)
    else match TwoOptAsWritten(sol, o)
      case Err(e) => Err(e)
      case Ok(d) => Discarded(sol, n - 1, d.rest)
  }

  /** `_double_bridge_move` as written: the copy it returns is its input. */
  function DoubleBridgeAsWritten(sol: seq<Block>, o: Draws): (r: Result<Drawn<seq<Block>>>)
    ensures r.Ok? ==> r.value.value == sol
    ensures |sol| == 0 ==> r == Err(ValueError)
  {
    match Discarded(sol, 4, o)
    case Err(e) => Err(e)
    case Ok(rest) => Ok(Drawn(sol, rest))
  }

  /** `n` two-opt moves, each on the result of the one before. */
  function Moves(sol: seq<Block>, n: nat, o: Draws): (r: Result<Drawn<seq<Block>>>)
    ensures r.Ok? ==> SameSlots(sol, r.value.value)
    ensures |sol| == 0 && n > 0 ==> r == Err(ValueError)
    decreases n
  {
    if n == 0 then Ok(Drawn(sol, o))
    else match TwoOpt(sol, o)
      case Err(e) => Err(e)
      case Ok(d) => Moves(d.value, n - 1, d.rest)
  }

  /** `_double_bridge_move` as evidently intended: four chained two-opt
      moves, so every slot keeps its colour. */
  function DoubleBridge(sol: seq<Block>, o: Draws): (r: Result<Drawn<seq<Block>>>)
    ensures r.Ok? ==> SameSlots(sol, r.value.value)
    ensures |sol| == 0 ==> r == Err(ValueError)
  {
    Moves(sol, 4, o)
  }

  /** The egg-laying loop as written, from cuckoo `k` on: the egg replaces
      only a local variable, so the nests are left as they were. The
      fitness comparison decides nothing and is not modelled. */
  function EggsAsWritten(nests: seq<seq<Block>>, k: nat, o: Draws): (r: Result<Drawn<seq<seq<Block>>>>)
    requires |nests| == Population
    ensures r.Ok? ==> r.value.value == nests
    decreases Breed - k
  {
    if k >= Breed then Ok(Drawn(nests, o))
    else match RandInt(0, Breed - 1, o)
      case Err(e) => Err(e)
      case Ok(a) =>
        match Chance(a.rest)
        case Err(e) => Err(e)
        case Ok(b) =>
          var step := if b.value < BigStepBelow then DoubleBridgeAsWritten(nests[a.value], b.rest)
                      else TwoOptAsWritten(nests[a.value], b.rest);
          match step
          case Err(e) => Err(e)
          case Ok(egg) =>
            match RandInt(0, Population - 1, egg.rest)
            case Err(e) => Err(e)
            case Ok(t) => EggsAsWritten(nests, k + 1, t.rest)
  }

  /** The step an egg makes: a double bridge below the threshold, a
      two-opt move otherwise. */
  function Step(big: bool, sol: seq<Block>, o: Draws): (r: Result<Drawn<seq<Block>>>)
    ensures r.Ok? ==> SameSlots(sol, r.value.value)
    ensures |sol| == 0 ==> r == Err(ValueError)
  {
    if big then DoubleBridge(sol, o) else TwoOpt(sol, o)
  }

  /** The egg takes nest `t` if it is strictly fitter. */
  function Place(s: Setup, nests: seq<seq<Block>>, egg: seq<Block>, t: nat): (r: seq<seq<Block>>)
    requires t < |nests|
    ensures |r| == |nests|
    ensures forall x :: 0 <= x < |nests| ==> r[x] == nests[x] || (r[x] == egg && Fitness(s, egg) < Fitness(s, nests[x]))
  {
    if Fitness(s, egg) < Fitness(s, nests[t]) then nests[t := egg] else nests
  }

  /** The egg-laying loop as evidently intended: an egg that is strictly
      fitter than the drawn nest takes its place. Each nest stays or is
      replaced by a strictly fitter solution. */
  function Eggs(s: Setup, nests: seq<seq<Block>>, k: nat, o: Draws): (r: Result<Drawn<seq<seq<Block>>>>)
    requires |nests| == Population
    ensures r.Ok? ==> |r.value.value| == Population
    ensures r.Ok? ==> forall x :: 0 <= x < Population ==>
      r.value.value[x] == nests[x] || Fitness(s, r.value.value[x]) < Fitness(s, nests[x])
    decreases Breed - k
  {
    if k >= Breed then Ok(Drawn(nests, o))
    else match RandInt(0, Breed - 1, o)
      case Err(e) => Err(e)
      case Ok(a) =>
        match Chance(a.rest)
        case Err(e) => Err(e)
        case Ok(b) =>
          match Step(b.value < BigStepBelow, nests[a.value], b.rest)
          case Err(e) => Err(e)
          case Ok(egg) =>
            match RandInt(0, Population - 1, egg.rest)
            case Err(e) => Err(e)
            case Ok(t) => Eggs(s, Place(s, nests, egg.value, t.value), k + 1, t.rest)
  }

  /** Every nest fits the goal. */
  predicate AllFit(s: Setup, nests: seq<seq<Block>>) {
    forall i :: 0 <= i < |nests| ==> Fits(s.blocks, s.goal, nests[i])
  }

  lemma PlaceFit(s: Setup, nests: seq<seq<Block>>, egg: seq<Block>, t: nat)
    requires t < |nests| && AllFit(s, nests) && Fits(s.blocks, s.goal, egg)
    ensures AllFit(s, Place(s, nests, egg, t))
  {
  }

  /** One pass of the egg loop keeps every nest fitting the goal. */
  lemma EggsUnfold(s: Setup, nests: seq<seq<Block>>, k: nat, o: Draws) returns (next: seq<seq<Block>>, rest: Draws)
    requires |nests| == Population && AllFit(s, nests)
    requires k < Breed && Eggs(s, nests, k, o).Ok?
    ensures |next| == Population && AllFit(s, next)
    ensures Eggs(s, nests, k, o) == Eggs(s, next, k + 1, rest)
  {
    var a := RandInt(0, Breed - 1, o).value;
    var b := Chance(a.rest).value;
    var egg := Step(b.value < BigStepBelow, nests[a.value], b.rest).value;
    SameSlotsFits(s.blocks, s.goal, nests[a.value], egg.value);
    var t := RandInt(0, Population - 1, egg.rest).value;
    next := Place(s, nests, egg.value, t.value);
    PlaceFit(s, nests, egg.value, t.value);
    rest := t.rest;
  }

  lemma {:induction false} EggsFit(s: Setup, nests: seq<seq<Block>>, k: nat, o: Draws)
    requires |nests| == Population && AllFit(s, nests)
    ensures Eggs(s, nests, k, o).Ok? ==> AllFit(s, Eggs(s, nests, k, o).value.value)
    decreases Breed - k
  {
    if k >= Breed {
      assert Eggs(s, nests, k, o) == Ok(Drawn(nests, o));
    } else if Eggs(s, nests, k, o).Ok? {
      var next, rest := EggsUnfold(s, nests, k, o);
      EggsFit(s, next, k + 1, rest);
    }
  }

  /** The two loops after the first sort, from slot `j` on: slots below
      `population - pa` make a two-opt move, the rest take a random
      solution. */
  function Refresh(s: Setup, nests: seq<seq<Block>>, j: nat, o: Draws): (r: Result<Drawn<seq<seq<Block>>>>)
    requires |nests| == Population
    ensures r.Ok? ==> |r.value.value| == Population
    ensures r.Ok? ==> forall x :: 0 <= x < j && x < Population ==> r.value.value[x] == nests[x]
    ensures r.Ok? ==> forall x :: j <= x < Population - Abandon ==>
      SameSlots(nests[x], r.value.value[x]) && r.value.value[x] != nests[x]
    ensures r.Ok? ==> forall x :: j <= x < Population && Population - Abandon <= x ==>
      Solves(PoolsOf(s), s.goal, r.value.value[x])
    decreases Population - j
  {
    if j >= Population then Ok(Drawn(nests, o))
    else
      var step := if j < Population - Abandon then TwoOpt(nests[j], o) else RandomSolution(PoolsOf(s), s.goal, o);
      match step
      case Err(e) => Err(e)
      case Ok(d) => Refresh(s, nests[j := d.value], j + 1, d.rest)
  }

  /** The two loops as written, from slot `j` on: the middle nests make
      the as-written two-opt move, which only permutes each of them. */
  function RefreshAsWritten(s: Setup, nests: seq<seq<Block>>, j: nat, o: Draws): (r: Result<Drawn<seq<seq<Block>>>>)
    requires |nests| == Population
    ensures r.Ok? ==> |r.value.value| == Population
    ensures r.Ok? ==> forall x :: 0 <= x < j && x < Population ==> r.value.value[x] == nests[x]
    ensures r.Ok? ==> forall x :: j <= x < Population - Abandon ==>
      |r.value.value[x]| == |nests[x]| && multiset(r.value.value[x]) == multiset(nests[x])
    ensures r.Ok? ==> forall x :: j <= x < Population && Population - Abandon <= x ==>
      Solves(PoolsOf(s), s.goal, r.value.value[x])
    decreases Population - j
  {
    if j >= Population then Ok(Drawn(nests, o))
    else
      var step := if j < Population - Abandon then TwoOptAsWritten(nests[j], o) else RandomSolution(PoolsOf(s), s.goal, o);
      match step
      case Err(e) => Err(e)
      case Ok(d) => RefreshAsWritten(s, nests[j := d.value], j + 1, d.rest)
  }

  /** As written, the first middle nest red, green, red, a solution of the
      goal red, green, red, is no longer one after the loops draw 2 and 1
      for it. */
  lemma RefreshAsWrittenBreaksFit(s: Setup, nests: seq<seq<Block>>, o: Draws)
    requires |nests| == Population && nests[Breed] == RedGreenRed
    ensures Fits(RedGreenRed, RedGreenRed, nests[Breed])
    ensures RefreshAsWritten(s, nests, Breed, [2, 1] + o).Ok? ==>
      !Fits(RedGreenRed, RedGreenRed, RefreshAsWritten(s, nests, Breed, [2, 1] + o).value.value[Breed])
  {
    TwoOptRecolours(o);
    TwoOptBreaksFit();
    var moved := [RedGreenRed[0], RedGreenRed[2], RedGreenRed[1]];
    assert RefreshAsWritten(s, nests, Breed, [2, 1] + o) == RefreshAsWritten(s, nests[Breed := moved], Breed + 1, o);
  }

  /** Sorting by fitness, the key of every `sort` in `run`. */
  function Key(s: Setup): seq<Block> -> real {
    (sol: seq<Block>) => Fitness(s, sol)
  }

  /** One generation: eggs, sort, the two loops from slot `pc`, sort; with
      the moves and the egg loop as written, or as intended. */
  function Generation(asWritten: bool, s: Setup, nests: seq<seq<Block>>, o: Draws): (r: Result<Drawn<seq<seq<Block>>>>)
    requires |nests| == Population
    ensures r.Ok? ==> |r.value.value| == Population && SortedBy(r.value.value, Key(s))
  {
    match (if asWritten then EggsAsWritten(nests, 0, o) else Eggs(s, nests, 0, o))
    case Err(e) => Err(e)
    case Ok(e) =>
      var sorted := SortBy(e.value, Key(s));
      match (if asWritten then RefreshAsWritten(s, sorted, Breed, e.rest) else Refresh(s, sorted, Breed, e.rest))
      case Err(e) => Err(e)
      case Ok(f) => Ok(Drawn(SortBy(f.value, Key(s)), f.rest))
  }

  /** Sorting keeps every nest fitting the goal. */
  lemma SortFit(s: Setup, nests: seq<seq<Block>>)
    requires AllFit(s, nests)
    ensures AllFit(s, SortBy(nests, Key(s)))
  {
    var r := SortBy(nests, Key(s));
    forall i | 0 <= i < |r| ensures Fits(s.blocks, s.goal, r[i]) {
      assert r[i] in multiset(nests);
    }
  }

  lemma RefreshFit(s: Setup, nests: seq<seq<Block>>, o: Draws)
    requires |nests| == Population && AllFit(s, nests)
    ensures Refresh(s, nests, Breed, o).Ok? ==> AllFit(s, Refresh(s, nests, Breed, o).value.value)
  {
    var r := Refresh(s, nests, Breed, o);
    if r.Ok? {
      forall x | 0 <= x < Population ensures Fits(s.blocks, s.goal, r.value.value[x]) {
        if Breed <= x < Population - Abandon {
          SameSlotsFits(s.blocks, s.goal, nests[x], r.value.value[x]);
        } else if Population - Abandon <= x {
          SolvesFits(s.blocks, s.goal, r.value.value[x]);
        }
      }
    }
  }

  /** A generation with the intended moves keeps every nest a solution of
      the goal; the as-written move need not (`RefreshAsWrittenBreaksFit`). */
  lemma GenerationFit(s: Setup, nests: seq<seq<Block>>, o: Draws)
    requires |nests| == Population && AllFit(s, nests)
    ensures Generation(false, s, nests, o).Ok? ==> AllFit(s, Generation(false, s, nests, o).value.value)
  {
    var r := Generation(false, s, nests, o);
    if r.Ok? {
      var e := Eggs(s, nests, 0, o).value;
      EggsFit(s, nests, 0, o);
      var sorted := SortBy(e.value, Key(s));
      SortFit(s, e.value);
      var f := Refresh(s, sorted, Breed, e.rest).value;
      RefreshFit(s, sorted, e.rest);
      SortFit(s, f.value);
    }
  }

  /** The generations from `g` to `maxgen`, as written or as intended. */
  function Generations(asWritten: bool, s: Setup, nests: seq<seq<Block>>, g: nat, o: Draws): (r: Result<Drawn<seq<seq<Block>>>>)
    requires |nests| == Population && SortedBy(nests, Key(s))
    ensures r.Ok? ==> |r.value.value| == Population && SortedBy(r.value.value, Key(s))
    decreases MaxGen - g
  {
    if g >= MaxGen then Ok(Drawn(nests, o))
    else match Generation(asWritten, s, nests, o)
      case Err(e) => Err(e)
      case Ok(d) => Generations(asWritten, s, d.value, g + 1, d.rest)
  }

  lemma {:induction false} GenerationsFit(s: Setup, nests: seq<seq<Block>>, g: nat, o: Draws)
    requires |nests| == Population && SortedBy(nests, Key(s)) && AllFit(s, nests)
    ensures Generations(false, s, nests, g, o).Ok? ==> AllFit(s, Generations(false, s, nests, g, o).value.value)
    decreases MaxGen - g
  {
    var r := Generations(false, s, nests, g, o);
    if g < MaxGen && r.Ok? {
      var d := Generation(false, s, nests, o).value;
      GenerationFit(s, nests, o);
      assert r == Generations(false, s, d.value, g + 1, d.rest);
      GenerationsFit(s, d.value, g + 1, d.rest);
    }
  }

  /** The nests after `run`'s generations: random solutions, sorted, then
      `maxgen` generations, as written or as intended. */
  function Search(asWritten: bool, s: Setup, o: Draws): (r: Result<Drawn<seq<seq<Block>>>>)
    ensures r.Ok? ==> |r.value.value| == Population && SortedBy(r.value.value, Key(s))
  {
    match RandomSolutions(PoolsOf(s), s.goal, Population, [], o)
    case Err(e) => Err(e)
    case Ok(d) => Generations(asWritten, s, SortBy(d.value, Key(s)), 0, d.rest)
  }

  /** What `run` returns: the best nest's fitness and the nest. */
  datatype Answer = Answer(score: real, best: seq<Block>)

  /** `run`: the first nest of the sorted final nests and its fitness. */
  function Run(asWritten: bool, s: Setup, o: Draws): (r: Result<Answer>)
    ensures r.Ok? <==> Search(asWritten, s, o).Ok?
    ensures r.Ok? ==> r.value.score == Fitness(s, r.value.best)
  {
    match Search(asWritten, s, o)
    case Err(e) => Err(e)
    case Ok(d) => Ok(Answer(Fitness(s, d.value[0]), d.value[0]))
  }

  /** The first of nests sorted by fitness is the fittest. */
  lemma FirstFittest(s: Setup, nests: seq<seq<Block>>)
    requires |nests| > 0 && SortedBy(nests, Key(s))
    ensures forall i :: 0 <= i < |nests| ==> Fitness(s, nests[0]) <= Fitness(s, nests[i])
  {
    forall i | 0 <= i < |nests| ensures Fitness(s, nests[0]) <= Fitness(s, nests[i]) {
      if i > 0 {
        assert Key(s)(nests[0]) <= Key(s)(nests[i]);
      }
    }
  }

  /** The answer is one of the final nests and no final nest beats it. */
  lemma RunMinimal(asWritten: bool, s: Setup, o: Draws)
    ensures Run(asWritten, s, o).Ok? ==>
      var nests := Search(asWritten, s, o).value.value;
      && Run(asWritten, s, o).value.best in nests
      && forall i :: 0 <= i < |nests| ==> Run(asWritten, s, o).value.score <= Fitness(s, nests[i])
  {
    var r := Run(asWritten, s, o);
    if r.Ok? {
      var nests := Search(asWritten, s, o).value.value;
      assert r.value == Answer(Fitness(s, nests[0]), nests[0]);
      FirstFittest(s, nests);
    }
  }

  /** With the intended moves, every final nest assigns to every goal slot
      a distinct block of the slot's colour. */
  lemma SearchFit(s: Setup, o: Draws)
    ensures Search(false, s, o).Ok? ==> AllFit(s, Search(false, s, o).value.value)
  {
    var r := RandomSolutions(PoolsOf(s), s.goal, Population, [], o);
    if r.Ok? {
      var d := r.value;
      assert AllFit(s, d.value) by {
        forall i | 0 <= i < |d.value| ensures Fits(s.blocks, s.goal, d.value[i]) {
          SolvesFits(s.blocks, s.goal, d.value[i]);
        }
      }
      SortFit(s, d.value);
      GenerationsFit(s, SortBy(d.value, Key(s)), 0, d.rest);
    }
  }

  /** So does the answer. */
  lemma RunFits(s: Setup, o: Draws)
    ensures Run(false, s, o).Ok? ==> Fits(s.blocks, s.goal, Run(false, s, o).value.best)
  {
    if Run(false, s, o).Ok? {
      SearchFit(s, o);
      assert Run(false, s, o).value.best == Search(false, s, o).value.value[0];
    }
  }
}
