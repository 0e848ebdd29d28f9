/** `TabuSearch.run`: greedy descent over expanded neighbours with a short-term
    memory of recent candidates that a later neighbour may not be chosen from.
    The newer search may give up after `max_iters` passes; the older one has no
    cap. A search that has not ended within `fuel` passes reports `Diverges`. */
module Tabu {
  import opened Common
  import opened Search

  /** The loop variables of `run`: `s_best`, `best_candidate`, the memory and
      the iteration counter. */
  datatype TabuState<S, A> = TabuState(best: Node<S, A>, cand: Node<S, A>, mem: seq<Node<S, A>>, iters: nat)

  /** How a run ends: with a node meeting the goal, by reaching the iteration
      cap (`None` in Python), or with an error. */
  datatype Outcome<S, A> = Found(node: Node<S, A>, iters: nat) | GaveUp(iters: nat) | Failed(error: Error)

  function Max(a: int, b: int): int {
    if a < b then b else a
  }

  /** `c in tabu_short_term_mem`, which compares nodes by state. */
  predicate IsTabu<S, A>(p: Problem<S, A>, mem: seq<Node<S, A>>, c: Node<S, A>) {
    exists i :: 0 <= i < |mem| && SameNode(p, mem[i], c)
  }

  /** The inner `for` loop: starting from `best`, a later candidate replaces it
      only when it is not tabu and strictly better. */
  function Choose<S, A>(p: Problem<S, A>, best: Node<S, A>, rest: seq<Node<S, A>>, mem: seq<Node<S, A>>): (r: Node<S, A>)
    ensures r == best || exists i :: 0 <= i < |rest| && r == rest[i] && !IsTabu(p, mem, rest[i])
    ensures r.fitness <= best.fitness
    ensures r != best ==> r.fitness < best.fitness
    ensures forall i :: 0 <= i < |rest| && !IsTabu(p, mem, rest[i]) ==> r.fitness <= rest[i].fitness
    decreases |rest|
  {
    if rest == [] then best
    else
      var b := if !IsTabu(p, mem, rest[0]) && rest[0].fitness < best.fitness then rest[0] else best;
      var r := Choose(p, b, rest[1..], mem);
      assert forall i :: 1 <= i < |rest| ==> rest[i] == rest[1..][i - 1];
      r
  }

  /** A first neighbour of zero fitness is never displaced. */
  lemma ChooseZero<S, A>(p: Problem<S, A>, best: Node<S, A>, rest: seq<Node<S, A>>, mem: seq<Node<S, A>>)
    requires best.fitness == 0
    ensures Choose(p, best, rest, mem) == best
  {
  }

  /** Append the chosen candidate, then drop the oldest entry if the memory
      is over its limit. */
  function Remember<S, A>(mem: seq<Node<S, A>>, c: Node<S, A>, limit: int): (r: seq<Node<S, A>>)
    ensures |mem| > 0 ==> |r| > 0 && r[|r| - 1] == c
    ensures |mem| <= Max(limit, 1) ==> |r| <= Max(limit, 1)
    ensures r == mem + [c] || r == (mem + [c])[1..]
  {
    var m := mem + [c];
    if |m| > limit then m[1..] else m
  }

  /** The memory `run` starts with: the start node alone. */
  function Start<S, A>(start: Node<S, A>): (r: TabuState<S, A>)
    ensures r.best == start && r.cand == start && r.iters == 0
    ensures |r.mem| == 1 && r.mem[0] == start
  {
    TabuState(start, start, [start], 0)
  }

  /** One pass of the `while` loop body, without the cap check. Popping the
      head of an empty neighbour list is an `IndexError`. */
  function Step<S, A>(p: Problem<S, A>, t: TabuState<S, A>, limit: int): (r: Result<TabuState<S, A>>)
    ensures r.Err? <==> |p.actions(t.cand.state)| == 0
    ensures r.Err? ==> r.error == IndexError
    ensures r.Ok? ==> var u := r.value;
      && u.iters == t.iters + 1
      && (exists i :: 0 <= i < |Expand(p, t.cand)| && u.cand == Expand(p, t.cand)[i])
      && u.best.fitness <= t.best.fitness
      && (u.best == t.best || (u.best == u.cand && u.cand.fitness < t.best.fitness))
      && (|t.mem| <= Max(limit, 1) ==> |u.mem| <= Max(limit, 1))
      && (|t.mem| > 0 ==> |u.mem| > 0 && u.mem[|u.mem| - 1] == u.cand)
  {
    var nb := Expand(p, t.cand);
    if |nb| == 0 then Err(IndexError)
    else
      var c := Choose(p, nb[0], nb[1..], t.mem);
      assert exists i :: 0 <= i < |nb| && c == nb[i] by {
        if c != nb[0] {
          var i :| 0 <= i < |nb[1..]| && c == nb[1..][i];
          assert c == nb[i + 1];
        }
      }
      var best := if c.fitness < t.best.fitness then c else t.best;
      Ok(TabuState(best, c, Remember(t.mem, c, limit), t.iters + 1))
  }

  /** The `while` loop: stop when `s_best` meets the goal; otherwise take a
      step and give up once the counter reaches `max_iters` (zero and negative
      caps are never reached). */
  function Loop<S, A>(p: Problem<S, A>, t: TabuState<S, A>, limit: int, maxIters: int, fuel: nat): (r: Outcome<S, A>)
    ensures p.goal(t.best.state) ==> r == Found(t.best, t.iters)
    ensures r.Found? ==> p.goal(r.node.state) && r.node.fitness <= t.best.fitness && r.iters >= t.iters
    ensures r.Found? && t.iters < maxIters ==> r.iters < maxIters
    ensures r.GaveUp? ==> r.iters == maxIters && maxIters > t.iters
    ensures r.Failed? ==> r.error == IndexError || r.error == Diverges
    decreases fuel
  {
    if p.goal(t.best.state) then Found(t.best, t.iters)
    else if fuel == 0 then Failed(Diverges)
    else
      match Step(p, t, limit)
      case Err(e) => Failed(e)
      case Ok(u) => if u.iters == maxIters then GaveUp(u.iters) else Loop(p, u, limit, maxIters, fuel - 1)
  }

  /** The newer `run`. */
  function Run<S, A>(p: Problem<S, A>, start: Node<S, A>, limit: int, maxIters: int, fuel: nat): (r: Outcome<S, A>)
    ensures p.goal(start.state) ==> r == Found(start, 0)
    ensures r.Found? ==> p.goal(r.node.state) && r.node.fitness <= start.fitness
    ensures r.Found? && maxIters > 0 ==> r.iters < maxIters
    ensures r.GaveUp? ==> maxIters >= 1 && r.iters == maxIters
    ensures maxIters <= 0 ==> !r.GaveUp?
    ensures r.Failed? ==> r.error == IndexError || r.error == Diverges
  {
    Loop(p, Start(start), limit, maxIters, fuel)
  }

  /** The older `run` is the same loop with no cap. It counts at the top of
      the loop rather than the bottom, which no caller can tell apart. */
  function LegacyRun<S, A>(p: Problem<S, A>, start: Node<S, A>, limit: int, fuel: nat): (r: Outcome<S, A>)
    ensures !r.GaveUp?
    ensures p.goal(start.state) ==> r == Found(start, 0)
    ensures r.Found? ==> p.goal(r.node.state) && r.node.fitness <= start.fitness
  {
    Run(p, start, limit, 0, fuel)
  }

  /** A first neighbour of zero fitness becomes both the candidate and, when
      the best so far is worse, the best. */
  lemma StepToZero<S, A>(p: Problem<S, A>, t: TabuState<S, A>, limit: int)
    requires |Expand(p, t.cand)| > 0 && Expand(p, t.cand)[0].fitness == 0 && t.best.fitness > 0
    ensures var c := Expand(p, t.cand)[0];
      Step(p, t, limit) == Ok(TabuState(c, c, Remember(t.mem, c, limit), t.iters + 1))
  {
    var nb := Expand(p, t.cand);
    ChooseZero(p, nb[0], nb[1..], t.mem);
  }

  /** A start whose first neighbour has zero fitness and meets the goal is
      solved in one pass by that neighbour, unless the cap is one pass. */
  lemma OnePassFound<S, A>(p: Problem<S, A>, start: Node<S, A>, limit: int, maxIters: int)
    requires !p.goal(start.state) && start.fitness > 0 && maxIters != 1
    requires |Expand(p, start)| > 0 && Expand(p, start)[0].fitness == 0 && p.goal(Expand(p, start)[0].state)
    ensures Run(p, start, limit, maxIters, 1) == Found(Expand(p, start)[0], 1)
  {
    StepToZero(p, Start(start), limit);
  }

  /** Every state the loop passes through keeps its nodes on expansion paths
      from the start. */
  predicate Rooted<S(==), A(==)>(p: Problem<S, A>, t: TabuState<S, A>, root: Node<S, A>) {
    Descends(p, t.best, root) && Descends(p, t.cand, root)
  }

  /** A step keeps both nodes on expansion paths from the start. */
  lemma StepRooted<S, A>(p: Problem<S, A>, t: TabuState<S, A>, limit: int, root: Node<S, A>)
    requires Rooted(p, t, root) && Step(p, t, limit).Ok?
    ensures Rooted(p, Step(p, t, limit).value, root)
  {
    var u := Step(p, t, limit).value;
    var i :| 0 <= i < |Expand(p, t.cand)| && u.cand == Expand(p, t.cand)[i];
    ExpandDescends(p, t.cand, root, i);
  }

  /** A node the loop returns descends from the start. */
  lemma {:induction false} LoopRooted<S, A>(p: Problem<S, A>, t: TabuState<S, A>, limit: int, maxIters: int,
                                            fuel: nat, root: Node<S, A>)
    requires Rooted(p, t, root)
    ensures Loop(p, t, limit, maxIters, fuel).Found? ==> Descends(p, Loop(p, t, limit, maxIters, fuel).node, root)
    decreases fuel
  {
    if !p.goal(t.best.state) && fuel > 0 && Step(p, t, limit).Ok? {
      StepRooted(p, t, limit, root);
      LoopRooted(p, Step(p, t, limit).value, limit, maxIters, fuel - 1, root);
    }
  }

  /** A found node's actions, replayed from the start state, lead to a state
      meeting the goal. */
  lemma FoundReplays<S, A>(p: Problem<S, A>, start: Node<S, A>, limit: int, maxIters: int, fuel: nat)
    requires start.Root? && Run(p, start, limit, maxIters, fuel).Found?
    ensures var n := Run(p, start, limit, maxIters, fuel).node;
      ApplyAll(p, start.state, GetActions(n)) == n.state && p.goal(n.state)
  {
    LoopRooted(p, Start(start), limit, maxIters, fuel, start);
    ReplayReaches(p, Run(p, start, limit, maxIters, fuel).node, start);
  }
}
