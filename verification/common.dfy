/** Shared vocabulary of the block-stacking planner: grid cells, world bounds,
    the error kinds the Python code raises, and small sequence utilities
    (duplicate freedom, filtering, a sort by a real-valued key). */
module Common {

  /** Python's `None`-or-value. */
  datatype Option<T> = None | Some(value: T)

  /** The exception classes the modelled code raises, plus two outcomes that
      stand for a loop that does not finish: `Diverges` (a loop that spins
      without ever drawing a random number again) and `OracleExhausted` (a
      random-retry loop that used up every choice it was given). */
  datatype Error =
    | ValueError
    | TypeError
    | RuntimeError
    | AttributeError
    | IndexError
    | KeyError
    | ZeroDivisionError
    | PathNotFound
    | BoundsError
    | Diverges
    | OracleExhausted

  datatype Result<T> = Ok(value: T) | Err(error: Error)

  /** An integer grid coordinate; also used for a displacement (dx, dy, dz). */
  datatype Cell = Cell(x: int, y: int, z: int)

  /** Inclusive bounds of the world on every axis. */
  datatype Bounds = Bounds(xMin: int, xMax: int, yMin: int, yMax: int, zMin: int, zMax: int)

  /** The default world of both DroneWorld constructors. */
  const DefaultBounds := Bounds(-50, 50, 0, 50, -50, 50)

  /** Both DroneWorld constructors refuse an axis whose minimum exceeds its maximum. */
  predicate BoundsOk(b: Bounds) {
    b.xMin <= b.xMax && b.yMin <= b.yMax && b.zMin <= b.zMax
  }

  /** `verify_world_bounds`: every coordinate inside its inclusive range. */
  predicate InBounds(b: Bounds, c: Cell) {
    b.xMin <= c.x <= b.xMax && b.yMin <= c.y <= b.yMax && b.zMin <= c.z <= b.zMax
  }

  function Add(c: Cell, d: Cell): Cell {
    Cell(c.x + d.x, c.y + d.y, c.z + d.z)
  }

  function Neg(d: Cell): Cell {
    Cell(-d.x, -d.y, -d.z)
  }

  function Above(c: Cell): Cell {
    Cell(c.x, c.y + 1, c.z)
  }

  function Below(c: Cell): Cell {
    Cell(c.x, c.y - 1, c.z)
  }

  /** The cell `k` above `c`. */
  function Vertical(c: Cell, k: int): Cell {
    Cell(c.x, c.y + k, c.z)
  }

  /** The cell `k` below `c`. */
  function Beneath(c: Cell, k: int): Cell {
    Cell(c.x, c.y - k, c.z)
  }

  function Abs(i: int): nat {
    if i < 0 then -i else i
  }

  /** |dx| + |dy| + |dz|: what one move adds to a move counter. */
  function Manhattan(d: Cell): nat {
    Abs(d.x) + Abs(d.y) + Abs(d.z)
  }

  /** Squared Euclidean distance. The planners only ever compare Euclidean
      distances with `<`, and the square root is monotone, so comparing
      squared distances takes the same decisions. */
  function SqDist(a: Cell, b: Cell): nat {
    (a.x - b.x) * (a.x - b.x) + (a.y - b.y) * (a.y - b.y) + (a.z - b.z) * (a.z - b.z)
  }

  lemma SqDistZero(a: Cell, b: Cell)
    ensures SqDist(a, b) == 0 <==> a == b
  {
    if a != b {
      if a.x != b.x {
        assert (a.x - b.x) * (a.x - b.x) > 0;
      } else if a.y != b.y {
        assert (a.y - b.y) * (a.y - b.y) > 0;
      } else {
        assert (a.z - b.z) * (a.z - b.z) > 0;
      }
    }
  }

  /** The six unit actions, in the fixed order +x, -x, +y, -y, +z, -z. */
  const UnitActions: seq<Cell> :=
    [Cell(1, 0, 0), Cell(-1, 0, 0), Cell(0, 1, 0), Cell(0, -1, 0), Cell(0, 0, 1), Cell(0, 0, -1)]

  /** Position of a unit action in `UnitActions` (6 for anything else). */
  function Rank(a: Cell): nat {
    if a == Cell(1, 0, 0) then 0
    else if a == Cell(-1, 0, 0) then 1
    else if a == Cell(0, 1, 0) then 2
    else if a == Cell(0, -1, 0) then 3
    else if a == Cell(0, 0, 1) then 4
    else if a == Cell(0, 0, -1) then 5
    else 6
  }

  /** A sequence is ordered like `UnitActions` when ranks strictly increase. */
  predicate RankOrdered(s: seq<Cell>) {
    forall i, j :: 0 <= i < j < |s| ==> Rank(s[i]) < Rank(s[j])
  }

  /** In a rank-ordered sequence holding +x, +x comes first. */
  lemma RankOrderedFirst(s: seq<Cell>)
    requires RankOrdered(s) && Cell(1, 0, 0) in s
    ensures s[0] == Cell(1, 0, 0)
  {
    var k :| 0 <= k < |s| && s[k] == Cell(1, 0, 0);
    assert forall j :: 0 < j < |s| ==> Rank(s[0]) < Rank(s[j]);
  }

  predicate NoDup<T(==)>(s: seq<T>) {
    forall i, j :: 0 <= i < j < |s| ==> s[i] != s[j]
  }

  lemma NoDupAppend<T>(s: seq<T>, x: T)
    requires NoDup(s) && x !in s
    ensures NoDup(s + [x])
  {
  }

  /** Replacing one slot of a duplicate-free sequence by a value absent from it
      keeps it duplicate-free. */
  lemma NoDupUpdate<T>(s: seq<T>, j: nat, x: T)
    requires NoDup(s) && j < |s| && x !in s
    ensures NoDup(s[j := x])
  {
  }

  /** Joining two duplicate-free sequences with no common element. */
  lemma NoDupConcat<T>(s: seq<T>, t: seq<T>)
    requires NoDup(s) && NoDup(t)
    requires forall i :: 0 <= i < |t| ==> t[i] !in s
    ensures NoDup(s + t)
  {
    forall i, j | 0 <= i < j < |s + t| ensures (s + t)[i] != (s + t)[j] {
      if j >= |s| && i < |s| {
        assert (s + t)[j] == t[j - |s|];
      }
    }
  }

  /** Number of occurrences of `x` in `s`. */
  function Count<T(==)>(s: seq<T>, x: T): nat {
    multiset(s)[x]
  }

  /** A duplicate-free sequence has as many distinct elements as it is long. */
  lemma {:induction false} NoDupCard<T>(s: seq<T>)
    requires NoDup(s)
    ensures |set x | x in s| == |s|
  {
    if |s| > 0 {
      var rest := s[1..];
      assert NoDup(rest) by {
        forall i, j | 0 <= i < j < |rest| ensures rest[i] != rest[j] {
          assert rest[i] == s[i + 1] && rest[j] == s[j + 1];
        }
      }
      NoDupCard(rest);
      assert s[0] !in rest by {
        forall k | 0 <= k < |rest| ensures rest[k] != s[0] {
          assert rest[k] == s[k + 1];
        }
      }
      assert (set x | x in s) == (set x | x in rest) + {s[0]} by {
        assert s == [s[0]] + rest;
      }
    }
  }

  /** The distinct elements of a sequence are at most its length. */
  lemma {:induction false} SetCardLe<T>(s: seq<T>)
    ensures |set x | x in s| <= |s|
  {
    if |s| > 0 {
      var rest := s[1..];
      SetCardLe(rest);
      assert (set x | x in s) == (set x | x in rest) + {s[0]} by {
        assert s == [s[0]] + rest;
      }
    }
  }

  /** `r` is `s` with some elements left out, order kept. */
  predicate Subseq<T(==)>(r: seq<T>, s: seq<T>)
    decreases |s|
  {
    if |r| == 0 then true
    else if |s| == 0 then false
    else if r[0] == s[0] then Subseq(r[1..], s[1..])
    else Subseq(r, s[1..])
  }

  /** The elements of `s` satisfying `keep`, in their original order. */
  function Filter<T(==)>(s: seq<T>, keep: T -> bool): (r: seq<T>)
    ensures forall i :: 0 <= i < |r| ==> r[i] in s && keep(r[i])
    ensures forall i :: 0 <= i < |s| && keep(s[i]) ==> s[i] in r
    ensures Subseq(r, s)
    ensures |r| <= |s|
    decreases |s|
  {
    if |s| == 0 then []
    else if keep(s[0]) then
      var t := Filter(s[1..], keep);
      assert s == [s[0]] + s[1..];
      [s[0]] + t
    else
      assert s == [s[0]] + s[1..];
      Filter(s[1..], keep)
  }

  /** Filtering keeps every element that passes and only those, counted with multiplicity. */
  lemma {:induction false} FilterCount<T>(s: seq<T>, keep: T -> bool, x: T)
    ensures Count(Filter(s, keep), x) == if keep(x) then Count(s, x) else 0
    decreases |s|
  {
    if |s| > 0 {
      FilterCount(s[1..], keep, x);
      assert s == [s[0]] + s[1..];
      assert multiset(s) == multiset([s[0]]) + multiset(s[1..]);
      if keep(s[0]) {
        assert Filter(s, keep) == [s[0]] + Filter(s[1..], keep);
        assert multiset(Filter(s, keep)) == multiset([s[0]]) + multiset(Filter(s[1..], keep));
      }
    }
  }

  /** Filtering keeps a sequence whose every element passes. */
  lemma {:induction false} FilterKeepsAll<T>(s: seq<T>, keep: T -> bool)
    requires forall i :: 0 <= i < |s| ==> keep(s[i])
    ensures Filter(s, keep) == s
    decreases |s|
  {
    if |s| > 0 {
      FilterKeepsAll(s[1..], keep);
      assert s == [s[0]] + s[1..];
    }
  }

  /** A dropped element makes the filtered sequence strictly shorter. */
  lemma {:induction false} FilterDrops<T>(s: seq<T>, keep: T -> bool, k: nat)
    requires k < |s| && !keep(s[k])
    ensures |Filter(s, keep)| < |s|
    decreases |s|
  {
    if k > 0 {
      FilterDrops(s[1..], keep, k - 1);
    }
  }

  lemma FilterHas<T>(s: seq<T>, keep: T -> bool)
    ensures forall x :: x in s && keep(x) ==> x in Filter(s, keep)
  {
    forall x | x in s && keep(x) ensures x in Filter(s, keep) {
      var i :| 0 <= i < |s| && s[i] == x;
    }
  }

  lemma {:induction false} FilterSnoc<T>(s: seq<T>, x: T, keep: T -> bool)
    ensures Filter(s + [x], keep) == Filter(s, keep) + (if keep(x) then [x] else [])
    decreases |s|
  {
    if |s| == 0 {
      assert s + [x] == [x];
    } else {
      assert (s + [x])[1..] == s[1..] + [x];
      FilterSnoc(s[1..], x, keep);
    }
  }

  /** A sequence is duplicate-free when its head is not repeated in its tail
      and its tail is duplicate-free. */
  lemma NoDupCons<T>(s: seq<T>)
    requires |s| > 0
    ensures NoDup(s) <==> s[0] !in s[1..] && NoDup(s[1..])
  {
    if s[0] !in s[1..] && NoDup(s[1..]) {
      forall i, j | 0 <= i < j < |s| ensures s[i] != s[j] {
        assert s[j] == s[1..][j - 1];
        if i > 0 {
          assert s[i] == s[1..][i - 1];
        }
      }
    }
    if NoDup(s) {
      forall i, j | 0 <= i < j < |s[1..]| ensures s[1..][i] != s[1..][j] {
        assert s[1..][i] == s[i + 1] && s[1..][j] == s[j + 1];
      }
    }
  }

  /** Filtering a duplicate-free sequence leaves it duplicate-free. */
  lemma FilterNoDup<T>(s: seq<T>, keep: T -> bool)
    requires NoDup(s)
    ensures NoDup(Filter(s, keep))
  {
    NoDupCount(s);
    forall x ensures multiset(Filter(s, keep))[x] <= 1 {
      FilterCount(s, keep, x);
    }
    NoDupCount(Filter(s, keep));
  }

  /** The position of the first occurrence of `x`. */
  function IndexOf<T(==)>(s: seq<T>, x: T): (i: nat)
    requires x in s
    ensures i < |s| && s[i] == x
    decreases |s|
  {
    if s[0] == x then 0 else 1 + IndexOf(s[1..], x)
  }

  /** Pigeonhole: a duplicate-free sequence drawn from `p` is no longer than `p`. */
  lemma NoDupWithin<T>(s: seq<T>, p: seq<T>)
    requires NoDup(s) && forall x :: x in s ==> x in p
    ensures |s| <= |p|
  {
    NoDupCard(s);
    SetCardLe(p);
    var a := set x | x in s;
    var b := set x | x in p;
    assert a <= b;
    assert |b| == |a| + |b - a| by {
      assert b == a + (b - a);
    }
  }

  /** Duplicate freedom is a property of the multiset of elements. */
  lemma {:induction false} NoDupCount<T>(s: seq<T>)
    ensures NoDup(s) <==> forall x :: multiset(s)[x] <= 1
    decreases |s|
  {
    if |s| > 0 {
      var t := s[1..];
      NoDupCount(t);
      NoDupCons(s);
      assert s == [s[0]] + t;
      assert multiset(s) == multiset{s[0]} + multiset(t);
      if forall x :: multiset(s)[x] <= 1 {
        assert forall x :: multiset(t)[x] <= multiset(s)[x];
        assert multiset(t)[s[0]] == 0;
      }
      if NoDup(s) {
        assert multiset(t)[s[0]] == 0;
        forall x ensures multiset(s)[x] <= 1 {
          assert multiset(t)[x] <= 1;
        }
      }
    }
  }

  /** A permutation of a duplicate-free sequence is duplicate-free. */
  lemma NoDupPerm<T>(s: seq<T>, t: seq<T>)
    requires NoDup(s) && multiset(s) == multiset(t)
    ensures NoDup(t)
  {
    NoDupCount(s);
    NoDupCount(t);
  }

  /** Sorted by a key, ascending. */
  predicate SortedBy<T>(s: seq<T>, key: T -> real) {
    forall i, j :: 0 <= i < j < |s| ==> key(s[i]) <= key(s[j])
  }

  /** Inserts `x` before the first element whose key is not smaller, so that
      an earlier element of the input stays ahead of later equal-keyed ones. */
  function InsertBy<T(==)>(x: T, s: seq<T>, key: T -> real): (r: seq<T>)
    requires SortedBy(s, key)
    ensures SortedBy(r, key)
    ensures multiset(r) == multiset(s) + multiset{x}
    ensures |r| == |s| + 1
    decreases |s|
  {
    if |s| == 0 || key(x) <= key(s[0]) then
      [x] + s
    else
      var t := InsertBy(x, s[1..], key);
      assert s == [s[0]] + s[1..];
      assert forall k :: 0 <= k < |t| ==> key(s[0]) <= key(t[k]) by {
        forall k | 0 <= k < |t| ensures key(s[0]) <= key(t[k]) {
          assert t[k] in multiset(t);
          assert t[k] == x || t[k] in multiset(s[1..]);
        }
      }
      [s[0]] + t
  }

  /** Sort by a key: the result is ordered by the key and is a permutation
      of the input. The order of ties is not part of the contract. */
  function SortBy<T(==)>(s: seq<T>, key: T -> real): (r: seq<T>)
    ensures SortedBy(r, key)
    ensures multiset(r) == multiset(s)
    ensures |r| == |s|
    decreases |s|
  {
    if |s| == 0 then []
    else
      assert s == [s[0]] + s[1..];
      InsertBy(s[0], SortBy(s[1..], key), key)
  }

  /** A distance between cells, as the population planners compute it with
      `math.sqrt`. The model keeps it abstract; the lemmas that need it ask
      for the metric laws. */
  type Metric = (Cell, Cell) -> real

  ghost predicate IsMetric(d: Metric) {
    forall a, b :: d(a, b) >= 0.0 && (d(a, b) == 0.0 <==> a == b) && d(a, b) == d(b, a)
  }

  /** The integer division Python's `int(...)` of a non-negative product computes. */
  function Percent(p: nat, n: nat): nat {
    p * n / 100
  }
}
