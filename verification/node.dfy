/** The generic search vocabulary of `search/node.py` and `search/cost_node.py`:
    a problem supplies the actions of a state, the state an action leads to, a
    heuristic, a goal test and the state equality the search uses. A node
    records its state, the action that produced it and its parent. */
module Search {
  import opened Common

  /** What the search asks of a state: `actions`, `apply_action`, `h`,
      `is_goal_met` and `__eq__`. Applying returns the new state instead of
      mutating a deep copy. */
  datatype Problem<!S, !A> = Problem(
    actions: S -> seq<A>,
    apply: (S, A) -> S,
    h: S -> nat,
    goal: S -> bool,
    same: (S, S) -> bool)

  /** A search node. The root has neither action nor parent; `count` is the
      parent's `node_count` plus one. */
  datatype Node<S, A> =
    | Root(state: S, fitness: nat, count: nat)
    | Child(state: S, action: A, parent: Node<S, A>, fitness: nat, count: nat)

  /** `Node(state, None, None, 0)`, the root every search starts from. */
  function MakeRoot<S, A>(p: Problem<S, A>, s: S): (r: Node<S, A>)
    ensures r.Root? && r.state == s && r.fitness == p.h(s) && r.count == 1
  {
    Root(s, p.h(s), 1)
  }

  /** `expand`: one child per action of the state, in action order, each on
      the state that action leads to. The node itself is a value and is not
      changed. */
  function Expand<S, A>(p: Problem<S, A>, n: Node<S, A>): (r: seq<Node<S, A>>)
    ensures |r| == |p.actions(n.state)|
    ensures forall i :: 0 <= i < |r| ==>
      var a := p.actions(n.state)[i];
      r[i] == Child(p.apply(n.state, a), a, n, p.h(p.apply(n.state, a)), n.count + 1)
  {
    var acts := p.actions(n.state);
    seq(|acts|, i requires 0 <= i < |acts| => Child(p.apply(n.state, acts[i]), acts[i], n, p.h(p.apply(n.state, acts[i])), n.count + 1))
  }

  /** `get_actions`: the actions from the root down to this node. */
  function GetActions<S, A>(n: Node<S, A>): (r: seq<A>)
    ensures n.Root? <==> r == []
  {
    match n
    case Root(_, _, _) => []
    case Child(_, a, parent, _, _) => GetActions(parent) + [a]
  }

  /** A child of the root has exactly its own action. */
  lemma FirstLevelActions<S, A>(n: Node<S, A>)
    requires n.Child? && n.parent.Root?
    ensures GetActions(n) == [n.action]
  {
  }

  /** The `<` and `>` of nodes compare fitness only. */
  predicate Better<S, A>(a: Node<S, A>, b: Node<S, A>) {
    a.fitness < b.fitness
  }

  /** Node equality is state equality as the problem defines it. */
  predicate SameNode<S, A>(p: Problem<S, A>, a: Node<S, A>, b: Node<S, A>) {
    p.same(a.state, b.state)
  }

  /** `n` was reached from `root` by repeated expansion: every step applied
      its action to its parent's state and recorded the heuristic. */
  predicate Descends<S(==), A(==)>(p: Problem<S, A>, n: Node<S, A>, root: Node<S, A>)
  {
    n == root ||
    (n.Child? && n.state == p.apply(n.parent.state, n.action) && n.fitness == p.h(n.state)
     && n.count == n.parent.count + 1 && Descends(p, n.parent, root))
  }

  /** Every child `expand` yields descends from whatever its parent descends
      from. */
  lemma ExpandDescends<S, A>(p: Problem<S, A>, n: Node<S, A>, root: Node<S, A>, i: nat)
    requires Descends(p, n, root) && i < |Expand(p, n)|
    ensures Descends(p, Expand(p, n)[i], root)
    ensures Expand(p, n)[i].parent == n
  {
  }

  /** Applying a sequence of actions one after the other. */
  function ApplyAll<S, A>(p: Problem<S, A>, s: S, acts: seq<A>): (r: S)
    ensures acts == [] ==> r == s
    decreases |acts|
  {
    if acts == [] then s else ApplyAll(p, p.apply(s, acts[0]), acts[1..])
  }

  /** Applying `acts` then `a` is applying `acts + [a]`. */
  lemma {:induction false} ApplyAllSnoc<S, A>(p: Problem<S, A>, s: S, acts: seq<A>, a: A)
    ensures ApplyAll(p, s, acts + [a]) == p.apply(ApplyAll(p, s, acts), a)
    decreases |acts|
  {
    if acts == [] {
      assert [a][1..] == [];
    } else {
      assert (acts + [a])[1..] == acts[1..] + [a];
      ApplyAllSnoc(p, p.apply(s, acts[0]), acts[1..], a);
    }
  }

  /** Replaying `get_actions` from the root's state reproduces the node's
      state, and there is one action per level below the root. */
  lemma {:induction false} ReplayReaches<S, A>(p: Problem<S, A>, n: Node<S, A>, root: Node<S, A>)
    requires root.Root? && Descends(p, n, root)
    ensures ApplyAll(p, root.state, GetActions(n)) == n.state
    ensures |GetActions(n)| == n.count - root.count
  {
    if n != root {
      ReplayReaches(p, n.parent, root);
      ApplyAllSnoc(p, root.state, GetActions(n.parent), n.action);
    }
  }

  /** `CostNode`: `local_cost` is the heuristic of its state and `total_cost`
      adds it to the cost inherited from the parent. */
  datatype CostNode<S, A> = CostNode(
    state: S, action: Option<A>, parent: Option<CostNode<S, A>>, local: nat, total: nat)

  /** The `CostNode` constructor. */
  function MakeCostNode<S, A>(p: Problem<S, A>, s: S, action: Option<A>, parent: Option<CostNode<S, A>>,
                             inherited: nat): (r: CostNode<S, A>)
    ensures r.local == p.h(s) && r.total == inherited + r.local
    ensures r.total >= inherited
    ensures r.state == s && r.parent == parent && r.action == action
  {
    CostNode(s, action, parent, p.h(s), inherited + p.h(s))
  }

  /** `CostNode.expand`: one child per action, each inheriting this node's
      total. */
  function ExpandCost<S, A>(p: Problem<S, A>, n: CostNode<S, A>): (r: seq<CostNode<S, A>>)
    ensures |r| == |p.actions(n.state)|
    ensures forall i :: 0 <= i < |r| ==>
      r[i].state == p.apply(n.state, p.actions(n.state)[i])
      && r[i].action == Some(p.actions(n.state)[i]) && r[i].parent == Some(n)
      && r[i].total == n.total + r[i].local && r[i].total >= n.total
  {
    var acts := p.actions(n.state);
    seq(|acts|, i requires 0 <= i < |acts| => MakeCostNode(p, p.apply(n.state, acts[i]), Some(acts[i]), Some(n), n.total))
  }

  /** A cost node built by the constructor from a root with zero inherited
      cost, step by step. */
  predicate CostChain<S, A>(p: Problem<S, A>, n: CostNode<S, A>)
    decreases n
  {
    n.local == p.h(n.state) &&
    match n.parent
    case None => n.total == n.local
    case Some(q) => n.total == q.total + n.local && CostChain(p, q)
  }

  /** The heuristics summed from the node up to the root. */
  function PathCost<S, A>(p: Problem<S, A>, n: CostNode<S, A>): nat
    decreases n
  {
    p.h(n.state) + match n.parent case None => 0 case Some(q) => PathCost(p, q)
  }

  /** Along a chain of constructor calls, `total_cost` is the path's summed
      heuristic, so it never decreases from parent to child. */
  lemma {:induction false} CostChainTotal<S, A>(p: Problem<S, A>, n: CostNode<S, A>)
    requires CostChain(p, n)
    ensures n.total == PathCost(p, n)
    ensures n.parent.Some? ==> n.total >= n.parent.value.total
    decreases n
  {
    if n.parent.Some? {
      CostChainTotal(p, n.parent.value);
    }
  }

  /** `CostNode.__lt__` compares the local cost only. */
  predicate CheaperHere<S, A>(a: CostNode<S, A>, b: CostNode<S, A>) {
    a.local < b.local
  }
}
