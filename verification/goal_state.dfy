/** `DroneWorldGoal`: a search state wrapping a copy of a world and a target
    cell for the drone. It records the drone's position after construction and
    after every action; its heuristic is the distance from that position to
    the target. The wrapper is the same in both trees; `Mover` supplies the
    world's `actions`, `move` and drone location. */
module GoalState {
  import opened Common
  import opened Search

  /** The three world operations the wrapper calls. */
  datatype Mover<!W> = Mover(actions: W -> seq<Cell>, move: (W, Cell) -> W, loc: W -> Cell)

  /** The goal cell, the wrapped world and the recorded drone position. */
  datatype Goal<W> = Goal(target: Cell, world: W, pos: Cell)

  /** The constructor: the recorded position is read from the world. */
  function MakeGoal<W>(m: Mover<W>, target: Cell, w: W): (r: Goal<W>)
    ensures r.target == target && r.world == w
    ensures Tracks(m, r)
  {
    Goal(target, w, m.loc(w))
  }

  /** The recorded position is the world's drone location. */
  predicate Tracks<W>(m: Mover<W>, g: Goal<W>) {
    g.pos == m.loc(g.world)
  }

  /** `apply_action`: move the drone in the wrapped world, then re-read its
      position. The target never changes. */
  function Apply<W>(m: Mover<W>, g: Goal<W>, a: Cell): (r: Goal<W>)
    ensures r.target == g.target && r.world == m.move(g.world, a)
    ensures Tracks(m, r)
  {
    var w := m.move(g.world, a);
    Goal(g.target, w, m.loc(w))
  }

  /** `is_goal_met`: all three coordinates equal the target's. */
  predicate Met<W>(g: Goal<W>) {
    g.pos.x == g.target.x && g.pos.y == g.target.y && g.pos.z == g.target.z
  }

  /** `h`, squared: zero exactly when the goal is met. */
  function H<W>(g: Goal<W>): (r: nat)
    ensures r == 0 <==> Met(g)
  {
    SqDistZero(g.target, g.pos);
    SqDist(g.target, g.pos)
  }

  /** `__eq__`: two goal states are equal when their drone positions are. */
  predicate SameGoal<W>(a: Goal<W>, b: Goal<W>) {
    a.pos == b.pos
  }

  /** The problem the tabu search solves for one target. */
  function GoalProblem<W>(m: Mover<W>): Problem<Goal<W>, Cell> {
    Problem((g: Goal<W>) => m.actions(g.world), (g: Goal<W>, a: Cell) => Apply(m, g, a),
            (g: Goal<W>) => H(g), (g: Goal<W>) => Met(g), (a: Goal<W>, b: Goal<W>) => SameGoal(a, b))
  }

  /** `generate_search_node`: the root node over a copy of the world. The
      caller's world is a value, so the search cannot change it. */
  function SearchNode<W>(m: Mover<W>, target: Cell, w: W): (r: Node<Goal<W>, Cell>)
    ensures r.Root? && r.count == 1 && r.state.world == w && r.state.target == target
    ensures Tracks(m, r.state)
    ensures r.fitness == 0 <==> m.loc(w) == target
  {
    MakeRoot(GoalProblem(m), MakeGoal(m, target, w))
  }

  /** The i-th child of a search node built from a world: the i-th action of
      the world, leading to the drone location that move produces. */
  lemma SearchChild<W>(m: Mover<W>, target: Cell, w: W, i: nat)
    requires i < |m.actions(w)|
    ensures var c := Expand(GoalProblem(m), SearchNode(m, target, w));
      |c| == |m.actions(w)|
      && c[i].action == m.actions(w)[i]
      && c[i].state.pos == m.loc(m.move(w, m.actions(w)[i]))
      && c[i].state.target == target
      && c[i].fitness == H(c[i].state)
  {
  }

  /** Replaying actions on a goal state moves its world exactly as replaying
      them on the world itself. */
  function Replay<W>(m: Mover<W>, w: W, acts: seq<Cell>): W
    decreases |acts|
  {
    if acts == [] then w else Replay(m, m.move(w, acts[0]), acts[1..])
  }

  lemma {:induction false} ReplayMatches<W>(m: Mover<W>, g: Goal<W>, acts: seq<Cell>)
    ensures ApplyAll(GoalProblem(m), g, acts).world == Replay(m, g.world, acts)
    ensures ApplyAll(GoalProblem(m), g, acts).target == g.target
    ensures acts != [] ==> Tracks(m, ApplyAll(GoalProblem(m), g, acts))
    decreases |acts|
  {
    if acts != [] {
      ReplayMatches(m, Apply(m, g, acts[0]), acts[1..]);
    }
  }

  /** Replaying the actions of a node the search found from a world leaves
      the drone on the target. */
  lemma ReplayFound<W>(m: Mover<W>, target: Cell, w: W, n: Node<Goal<W>, Cell>)
    requires Descends(GoalProblem(m), n, SearchNode(m, target, w)) && Met(n.state)
    ensures m.loc(Replay(m, w, GetActions(n))) == target
  {
    var root := SearchNode(m, target, w);
    ReplayReaches(GoalProblem(m), n, root);
    ReplayMatches(m, root.state, GetActions(n));
  }
}
