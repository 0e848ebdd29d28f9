/** The `random` module as the planners call it. A run does not draw from a
    generator: it is handed the answers as a sequence of natural numbers and
    each primitive reduces the next answer into its own range, so every
    outcome the real call can give is the outcome of some answer. A run that
    needs more answers than it was given ends with `OracleExhausted`. */
module Oracle {
  import opened Common

  type Draws = seq<nat>

  /** A drawn value and the answers not yet used. */
  datatype Drawn<T> = Drawn(value: T, rest: Draws)

  /** `random.randint(a, b)`: both ends included; an empty range is a
      ValueError. */
  function RandInt(a: int, b: int, o: Draws): (r: Result<Drawn<int>>)
    ensures a > b ==> r == Err(ValueError)
    ensures a <= b && |o| == 0 ==> r == Err(OracleExhausted)
    ensures a <= b && |o| > 0 ==> r.Ok? && a <= r.value.value <= b && r.value.rest == o[1..]
  {
    if a > b then Err(ValueError)
    else if |o| == 0 then Err(OracleExhausted)
    else Ok(Drawn(a + o[0] % (b - a + 1), o[1..]))
  }

  /** Every value of the range is the answer to some draw. */
  lemma RandIntReaches(a: int, b: int, v: int, o: Draws)
    requires a <= v <= b
    ensures RandInt(a, b, [(v - a) as nat] + o) == Ok(Drawn(v, o))
  {
    assert ([(v - a) as nat] + o)[1..] == o;
  }

  /** `random.choice(s)`: an empty sequence is an IndexError. */
  function Choice<T>(s: seq<T>, o: Draws): (r: Result<Drawn<T>>)
    ensures |s| == 0 ==> r == Err(IndexError)
    ensures |s| > 0 && |o| == 0 ==> r == Err(OracleExhausted)
    ensures |s| > 0 && |o| > 0 ==> r.Ok? && r.value.value in s && r.value.rest == o[1..]
  {
    if |s| == 0 then Err(IndexError)
    else if |o| == 0 then Err(OracleExhausted)
    else Ok(Drawn(s[o[0] % |s|], o[1..]))
  }

  /** Every element can be chosen. */
  lemma ChoiceReaches<T>(s: seq<T>, i: nat, o: Draws)
    requires i < |s|
    ensures Choice(s, [i] + o) == Ok(Drawn(s[i], o))
  {
    assert ([i] + o)[1..] == o;
  }

  /** `random.uniform(0, 1)`, read to the hundredth: a percentile below 100. */
  function Chance(o: Draws): (r: Result<Drawn<nat>>)
    ensures |o| == 0 <==> r == Err(OracleExhausted)
    ensures r.Ok? ==> r.value.value < 100 && r.value.rest == o[1..]
  {
    if |o| == 0 then Err(OracleExhausted) else Ok(Drawn(o[0] % 100, o[1..]))
  }

  /** Exchanging two entries; every other entry stays where it is. */
  function Swap<T>(s: seq<T>, i: nat, j: nat): (r: seq<T>)
    requires i < |s| && j < |s|
    ensures |r| == |s| && r[i] == s[j] && r[j] == s[i]
    ensures forall k :: 0 <= k < |s| && k != i && k != j ==> r[k] == s[k]
    ensures multiset(r) == multiset(s)
  {
    s[i := s[j]][j := s[i]]
  }

  /** Swapping twice restores the sequence. */
  lemma SwapTwice<T>(s: seq<T>, i: nat, j: nat)
    requires i < |s| && j < |s|
    ensures Swap(Swap(s, i, j), i, j) == s
  {
  }

  /** The swaps `random.shuffle` performs for positions `i` down to 1, each
      with a partner drawn from `[0, i]`. */
  function ShuffleDown<T>(s: seq<T>, i: nat, o: Draws): (r: Result<Drawn<seq<T>>>)
    requires i < |s|
    ensures r.Ok? <==> |o| >= i
    ensures r.Err? ==> r.error == OracleExhausted
    ensures r.Ok? ==> |r.value.value| == |s| && multiset(r.value.value) == multiset(s) && r.value.rest == o[i..]
    decreases i
  {
    if i == 0 then Ok(Drawn(s, o))
    else if |o| == 0 then Err(OracleExhausted)
    else
      var r := ShuffleDown(Swap(s, i, o[0] % (i + 1)), i - 1, o[1..]);
      assert r.Ok? ==> o[1..][i - 1..] == o[i..];
      r
  }

  /** `random.shuffle(s)`: a permutation, using one answer per position
      after the first. */
  function Shuffle<T>(s: seq<T>, o: Draws): (r: Result<Drawn<seq<T>>>)
    ensures r.Ok? <==> |o| + 1 >= |s|
    ensures r.Err? ==> r.error == OracleExhausted
    ensures r.Ok? ==> |r.value.value| == |s| && multiset(r.value.value) == multiset(s)
    ensures r.Ok? && |s| > 0 ==> r.value.rest == o[|s| - 1..]
    ensures |s| == 0 ==> r == Ok(Drawn(s, o))
  {
    if |s| == 0 then Ok(Drawn(s, o)) else ShuffleDown(s, |s| - 1, o)
  }

  /** A shuffle whose every partner is the position itself changes nothing. */
  lemma {:induction false} ShuffleDownStill<T>(s: seq<T>, i: nat, o: Draws)
    requires i < |s| && |o| >= i
    requires forall k :: 0 <= k < i ==> o[k] == i - k
    ensures ShuffleDown(s, i, o) == Ok(Drawn(s, o[i..]))
    decreases i
  {
    if i > 0 {
      assert o[0] % (i + 1) == i;
      assert Swap(s, i, i) == s;
      assert ShuffleDown(s, i, o) == ShuffleDown(s, i - 1, o[1..]);
      assert forall k :: 0 <= k < i - 1 ==> o[1..][k] == i - 1 - k;
      ShuffleDownStill(s, i - 1, o[1..]);
      assert o[1..][i - 1..] == o[i..];
    }
  }

  /** `0, 1, …, n - 1`. */
  function Range(n: nat): (r: seq<nat>)
    ensures |r| == n && NoDup(r)
    ensures forall i :: 0 <= i < n ==> r[i] == i
  {
    seq(n, i requires 0 <= i < n => i)
  }

  /** `s` without its entry at `j`. */
  function RemoveAt<T>(s: seq<T>, j: nat): (r: seq<T>)
    requires j < |s|
    ensures |r| == |s| - 1
    ensures forall x :: x in r ==> x in s
    ensures NoDup(s) ==> NoDup(r) && s[j] !in r
  {
    var r := s[..j] + s[j + 1..];
    assert forall k :: 0 <= k < |r| ==> r[k] == if k < j then s[k] else s[k + 1];
    r
  }

  /** Drawing `k` entries of `pool` without replacement. */
  function SampleFrom<T>(pool: seq<T>, k: nat, o: Draws): (r: Result<Drawn<seq<T>>>)
    requires k <= |pool| && NoDup(pool)
    ensures r.Ok? <==> |o| >= k
    ensures r.Err? ==> r.error == OracleExhausted
    ensures r.Ok? ==> |r.value.value| == k && NoDup(r.value.value) && r.value.rest == o[k..]
    ensures r.Ok? ==> forall x :: x in r.value.value ==> x in pool
    decreases k
  {
    if k == 0 then Ok(Drawn([], o))
    else if |o| == 0 then Err(OracleExhausted)
    else
      var j := o[0] % |pool|;
      var rest := RemoveAt(pool, j);
      match SampleFrom(rest, k - 1, o[1..])
      case Err(e) => Err(e)
      case Ok(d) =>
        assert o[1..][k - 1..] == o[k..];
        assert forall i :: 0 <= i < |d.value| ==> d.value[i] !in [pool[j]];
        NoDupConcat([pool[j]], d.value);
        Ok(Drawn([pool[j]] + d.value, d.rest))
  }

  /** `random.sample(range(n), k)`: `k` distinct indices below `n`; a `k`
      outside `[0, n]` is a ValueError. */
  function Sample(n: nat, k: int, o: Draws): (r: Result<Drawn<seq<nat>>>)
    ensures (k < 0 || k > n) ==> r == Err(ValueError)
    ensures 0 <= k <= n ==> (r.Ok? <==> |o| >= k)
    ensures r.Ok? ==> |r.value.value| == k && NoDup(r.value.value) && r.value.rest == o[k..]
    ensures r.Ok? ==> forall i :: 0 <= i < |r.value.value| ==> r.value.value[i] < n
  {
    if k < 0 || k > n then Err(ValueError)
    else
      var r := SampleFrom(Range(n), k, o);
      assert r.Ok? ==> forall i :: 0 <= i < |r.value.value| ==> r.value.value[i] in Range(n);
      r
  }

  /** A pass of a loop that draws: from a value and the answers left to the
      next value and the answers still left. */
  type Step<!T> = (T, Draws) -> Result<Drawn<T>>

  /** `n` passes of a step; the first error ends the loop. */
  function Iterate<T>(step: Step<T>, x: T, n: nat, o: Draws): Result<Drawn<T>>
    decreases n
  {
    if n == 0 then Ok(Drawn(x, o))
    else match step(x, o)
      case Err(e) => Err(e)
      case Ok(g) => Iterate(step, g.value, n - 1, g.rest)
  }

  /** A property every pass keeps holds of the value the loop ends with. */
  lemma {:induction false} IterateKeeps<T>(step: Step<T>, inv: T -> bool, x: T, n: nat, o: Draws)
    requires inv(x)
    requires forall q, d :: inv(q) && step(q, d).Ok? ==> inv(step(q, d).value.value)
    ensures Iterate(step, x, n, o).Ok? ==> inv(Iterate(step, x, n, o).value.value)
    decreases n
  {
    if n > 0 && step(x, o).Ok? {
      IterateKeeps(step, inv, step(x, o).value.value, n - 1, step(x, o).value.rest);
    }
  }

  /** From a value where an invariant holds, the loop fails only with errors
      a pass can fail with from such a value. */
  lemma {:induction false} IterateErrors<T>(step: Step<T>, inv: T -> bool, errs: set<Error>, x: T, n: nat, o: Draws)
    requires inv(x)
    requires forall q, d :: inv(q) && step(q, d).Ok? ==> inv(step(q, d).value.value)
    requires forall q, d :: inv(q) && step(q, d).Err? ==> step(q, d).error in errs
    ensures Iterate(step, x, n, o).Err? ==> Iterate(step, x, n, o).error in errs
    decreases n
  {
    if n > 0 && step(x, o).Ok? {
      IterateErrors(step, inv, errs, step(x, o).value.value, n - 1, step(x, o).value.rest);
    }
  }

  /** A `while not stop(x)` loop of passes; a loop still running after
      `fuel` passes reports `Diverges`. */
  function Until<T>(stop: T -> bool, step: Step<T>, x: T, fuel: nat, o: Draws): (r: Result<T>)
    ensures stop(x) ==> r == Ok(x)
    ensures r.Ok? ==> stop(r.value)
    decreases fuel
  {
    if stop(x) then Ok(x)
    else if fuel == 0 then Err(Diverges)
    else match step(x, o)
      case Err(e) => Err(e)
      case Ok(g) => Until(stop, step, g.value, fuel - 1, g.rest)
  }

  /** A property every pass keeps holds of the value the loop stops at. */
  lemma {:induction false} UntilKeeps<T>(stop: T -> bool, step: Step<T>, inv: T -> bool, x: T, fuel: nat, o: Draws)
    requires inv(x)
    requires forall q, d :: inv(q) && step(q, d).Ok? ==> inv(step(q, d).value.value)
    ensures Until(stop, step, x, fuel, o).Ok? ==> inv(Until(stop, step, x, fuel, o).value)
    decreases fuel
  {
    if !stop(x) && fuel > 0 && step(x, o).Ok? {
      UntilKeeps(stop, step, inv, step(x, o).value.value, fuel - 1, step(x, o).value.rest);
    }
  }

  /** The loop fails by running out of fuel or with an error a pass can
      fail with. */
  lemma {:induction false} UntilErrors<T>(stop: T -> bool, step: Step<T>, errs: set<Error>, x: T, fuel: nat, o: Draws)
    requires forall q, d :: step(q, d).Err? ==> step(q, d).error in errs
    ensures Until(stop, step, x, fuel, o).Err? ==> Until(stop, step, x, fuel, o).error in errs + {Diverges}
    decreases fuel
  {
    if !stop(x) && fuel > 0 && step(x, o).Ok? {
      UntilErrors(stop, step, errs, step(x, o).value.value, fuel - 1, step(x, o).value.rest);
    }
  }

  /** The pass of a `for i in range(lo, hi)` loop that draws. */
  type IndexedStep<!T> = (nat, T, Draws) -> Result<Drawn<T>>

  /** The passes `i` up to `hi - 1` of a `for` loop. */
  function ForRange<T>(step: IndexedStep<T>, x: T, i: nat, hi: nat, o: Draws): Result<Drawn<T>>
    decreases hi - i
  {
    if i >= hi then Ok(Drawn(x, o))
    else match step(i, x, o)
      case Err(e) => Err(e)
      case Ok(g) => ForRange(step, g.value, i + 1, hi, g.rest)
  }
}
