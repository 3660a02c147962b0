/**
 The game object of `cpp/src/mcts.cpp`: the operations of Game.dfy performed in place, with the
 source's loops. `nodes` plays the part of the heap of tree nodes; `root` and `leaf` are the two
 node references.
 */
module MctsGames {
  import opened Board
  import opened Policies
  import opened SearchTree
  import opened Games
  import opened Outcomes
  import Positions
  import WinTests
  import Rng

  /** What every object keeps, whatever evaluations it receives. */
  ghost predicate WellFormed(g: Game) {
    && Shape(g.start, g.root, g.nodes)
    && g.leaf in g.nodes && !g.nodes[g.leaf].expanded
    && History(g)
  }

  lemma WellFormedSound(g: Game)
    requires WellFormed(g)
    ensures Sound(g)
  {
    ShapeShallow(g.start, g.root, g.nodes);
  }

  lemma ReselectedShape(prm: Params, start: Grid, root: Path, t: Tree, moves: seq<Recorded>)
    requires Shape(start, root, t) && Shallow(t)
    ensures var g := Reselected(prm, start, root, t, moves);
            Shape(start, root, g.nodes) && g.leaf in g.nodes && !g.nodes[g.leaf].expanded
  {
    var leaf := Descend(prm, t, root);
    DescendEnds(prm, start, root, t, root);
    if leaf !in t {
      MaterialiseShape(start, root, t, leaf);
    }
  }

  lemma PromotedShape(start: Grid, root: Path, t: Tree, move: nat)
    requires Shape(start, root, t) && move < COLS && t[root].expanded && move in t[root].legal
    ensures var down := root + [move];
            var below := Subtree(Materialise(t, down), down);
            down in Materialise(t, down) && Shape(start, down, below) && Shallow(below)
  {
    var down := root + [move];
    assert Parent(down) == root && Last(down) == move;
    if down !in t {
      assert root <= down;
      assert CanGrow(root, t, down);
      MaterialiseShape(start, root, t, down);
    }
    SubtreeShape(start, root, Materialise(t, down), down);
    ShapeShallow(start, down, Subtree(Materialise(t, down), down));
  }

  /** Back-propagation from the leaf that has reached `node`. */
  function VisitedUpTo(t: Tree, leaf: Path, v: Values, node: Path): (r: Tree)
    ensures r.Keys == t.Keys
  {
    map p | p in t :: if node <= p <= leaf then Visited(t[p], Signed(v, |leaf| - |p|)) else t[p]
  }

  function VisitOne(t: Tree, node: Path, v: Values): Tree
    requires node in t
  {
    t[node := Visited(t[node], v)]
  }

  lemma VisitLeaf(t: Tree, leaf: Path, v: Values)
    requires leaf in t
    ensures VisitedUpTo(t, leaf, v, leaf) == VisitOne(t, leaf, v)
  {
    forall p | p in t ensures leaf <= p <= leaf <==> p == leaf {
    }
  }

  lemma OnPathAbove(leaf: Path, node: Path, p: Path)
    requires node != [] && node <= leaf
    ensures Parent(node) <= p <= leaf <==> p == Parent(node) || node <= p <= leaf
  {
    if Parent(node) <= p <= leaf && p != Parent(node) {
      assert p[..|node|] == leaf[..|node|] == node;
    }
  }

  lemma VisitParent(t: Tree, leaf: Path, v: Values, node: Path)
    requires node != [] && node <= leaf && Parent(node) in t
    ensures VisitedUpTo(t, leaf, v, Parent(node))
         == VisitOne(VisitedUpTo(t, leaf, v, node), Parent(node), Signed(v, |leaf| - |Parent(node)|))
  {
    var r := VisitedUpTo(t, leaf, v, node);
    var s := VisitedUpTo(t, leaf, v, Parent(node));
    assert !(node <= Parent(node));
    forall p | p in t ensures s[p] == (if p == Parent(node) then Visited(t[p], Signed(v, |leaf| - |p|)) else r[p]) {
      OnPathAbove(leaf, node, p);
    }
  }

  lemma AllVisited(start: Grid, root: Path, t: Tree, leaf: Path, v: Values)
    requires Shape(start, root, t)
    ensures VisitedUpTo(t, leaf, v, root) == Backpropagate(t, leaf, v)
  {
    forall p | p in t ensures root <= p {
      assert Placed(start, root, t, p);
    }
  }

  lemma ParentPresent(start: Grid, root: Path, t: Tree, leaf: Path, node: Path)
    requires Shape(start, root, t) && leaf in t && root <= node <= leaf && node != root
    ensures node != [] && root <= Parent(node) <= leaf && Parent(node) in t
  {
    AncestorsPresent(start, root, t, leaf, Parent(node));
  }

  /** The climb from the leaf has updated everything up to `node`, whose value it holds. */
  predicate Climbed(before: Tree, root: Path, leaf: Path, v: Values, node: Path, value: Values, t: Tree) {
    root <= node <= leaf && t == VisitedUpTo(before, leaf, v, node) && value == Signed(v, |leaf| - |node|)
  }

  lemma ClimbOne(start: Grid, before: Tree, root: Path, leaf: Path, v: Values, node: Path, value: Values, t: Tree)
    requires Shape(start, root, before) && leaf in before && node != root
    requires Climbed(before, root, leaf, v, node, value, t)
    ensures node != [] && Parent(node) in t
    ensures Climbed(before, root, leaf, v, Parent(node), value.Negated(), VisitOne(t, Parent(node), value.Negated()))
  {
    ParentPresent(start, root, before, leaf, node);
    VisitParent(before, leaf, v, node);
    SignedStep(v, |leaf| - |Parent(node)|);
  }

  class MctsGame {
    const start: Grid
    var root: Path
    var nodes: Tree
    var leaf: Path
    var moves: seq<Recorded>

    ghost function State(): Game
      reads this
    {
      Game(start, root, nodes, leaf, moves)
    }

    ghost predicate Valid()
      reads this
    {
      WellFormed(State())
    }

    constructor (start: Grid)
      ensures Valid() && State() == NewGame(start)
    {
      this.start := start;
      root, leaf, moves := [], [], [];
      nodes := map[[] := FreshNode(start, 1.0)];
    }

    method MaterialiseChild(parent: Path, col: nat)
      requires parent in nodes && col < COLS && col in nodes[parent].legal && Legal(nodes[parent].pos, col)
      modifies this`nodes
      ensures nodes == Materialise(old(nodes), parent + [col]) && parent + [col] in nodes
    {
      var child := parent + [col];
      assert Parent(child) == parent && Last(child) == col;
      if child !in nodes {
        nodes := nodes[child := FreshNode(Drop(nodes[parent].pos, col), nodes[parent].priors[col])];
      }
    }

    /** One level of the selection loop: the best legal column, the last one on a tie. */
    method BestChild(prm: Params, node: Path) returns (best: Option<nat>)
      requires node in nodes
      ensures best == BestColumn(Scores(prm, nodes, node), nodes[node].legal, COLS)
    {
      best := None;
      var bestScore := 0.0;
      for col := 0 to COLS
        invariant best == BestColumn(Scores(prm, nodes, node), nodes[node].legal, col)
        invariant best.Some? ==> bestScore == Scores(prm, nodes, node)[best.value]
      {
        if col in nodes[node].legal {
          var score := Score(prm, nodes, node, col);
          if best.None? || score >= bestScore {
            best, bestScore := Some(col), score;
          }
        }
      }
    }

    method SelectLeaf(prm: Params)
      requires Shape(start, root, nodes) && Shallow(nodes)
      modifies this`nodes, this`leaf
      ensures State() == Reselected(prm, start, root, old(nodes), moves)
      ensures Shape(start, root, nodes) && leaf in nodes && !nodes[leaf].expanded
    {
      ghost var target := Descend(prm, nodes, root);
      DescendEnds(prm, start, root, nodes, root);
      ReselectedShape(prm, start, root, nodes, moves);
      var node := root;
      while nodes[node].expanded
        invariant node in nodes
        invariant if nodes == old(nodes) then Descend(prm, nodes, node) == target
                  else nodes == Materialise(old(nodes), target) && node == target && !nodes[node].expanded
        decreases CELLS - |node|
      {
        var best := BestChild(prm, node);
        if best.None? {
          break;
        }
        assert Placed(start, root, nodes, node);
        MaterialiseChild(node, best.value);
        node := node + [best.value];
        assert |node| <= CELLS by {
          FullGrid(Drop(old(nodes)[Parent(node)].pos, Last(node)));
        }
      }
      leaf := node;
    }

    method Backpropagate(v: Values)
      requires Shape(start, root, nodes) && leaf in nodes
      modifies this`nodes
      ensures nodes == SearchTree.Backpropagate(old(nodes), leaf, v)
    {
      ghost var before := nodes;
      assert Placed(start, root, nodes, leaf);
      VisitLeaf(before, leaf, v);
      var node := leaf;
      var value := v;
      nodes := VisitOne(nodes, node, value);
      while node != root
        invariant Climbed(before, root, leaf, v, node, value, nodes)
        decreases |node|
      {
        ClimbOne(start, before, root, leaf, v, node, value, nodes);
        node := Parent(node);
        value := value.Negated();
        nodes := VisitOne(nodes, node, value);
      }
      AllVisited(start, root, before, leaf, v);
    }

    /** What the evaluation does to the leaf; `None` is the exception. */
    method ComputeUpdate(prm: Params, e: Evaluation, noise: Noise) returns (update: Option<Update>)
      requires leaf in nodes
      ensures update == LeafUpdate(prm, nodes[leaf].pos, leaf == root, e, noise)
    {
      var pos := nodes[leaf].pos;
      var terminal := WinTests.ComputeTerminalState(Positions.Encode(pos));
      WinTests.TerminalRefines(pos);
      if terminal.Some? {
        return Some(Revisit(OutcomeValues(terminal.value, Penalty(pos, prm.plyPenalty))));
      }
      var policy := ComputeSoftmax(prm.exp, MaskLogits(e.policy, LegalColumns(pos)));
      if policy.Some? && leaf == root && noise.epsilon > 0.0 {
        policy := MixNoise(policy.value, LegalColumns(pos), noise);
      }
      update := if policy.None? then None else Some(Growth(policy.value, e.q));
    }

    method ApplyUpdate(update: Update)
      requires Valid()
      requires update.Growth? ==> TerminalState(nodes[leaf].pos).None?
      modifies this`nodes
      ensures nodes == Updated(old(nodes), leaf, update)
      ensures Shape(start, root, nodes)
    {
      match update {
        case Revisit(v) =>
          BackpropagateShape(start, root, nodes, leaf, v);
          Backpropagate(v);
        case Growth(policy, q) =>
          ExpandShape(start, root, nodes, leaf, policy);
          BackpropagateShape(start, root, Expand(nodes, leaf, policy), leaf, q);
          nodes := Expand(nodes, leaf, policy);
          Backpropagate(q);
      }
    }

    /** `receive_evaluation`: `ok` is false for the exception, which changes nothing. */
    method ReceiveEvaluation(prm: Params, e: Evaluation, noise: Noise) returns (ok: bool)
      requires Valid() && Sound(State())
      modifies this`nodes, this`leaf
      ensures Valid() && Sound(State())
      ensures ok <==> Receive(prm, old(State()), e, noise).Some?
      ensures State() == if ok then Receive(prm, old(State()), e, noise).value else old(State())
    {
      var update := ComputeUpdate(prm, e, noise);
      if update.None? {
        return false;
      }
      ApplyUpdate(update.value);
      ShapeShallow(start, root, nodes);
      SelectLeaf(prm);
      WellFormedSound(State());
      ok := true;
    }

    /** New root priors, copied into the children that exist. */
    method SetRootPriors(priors: Policy)
      requires root in nodes && forall p :: p in nodes ==> root <= p
      modifies this`nodes
      ensures nodes == Repriored(old(nodes), root, priors)
    {
      ghost var before := nodes;
      nodes := nodes[root := nodes[root].(priors := priors)];
      for col := 0 to COLS
        invariant nodes == RepriorDone(before, root, priors, col)
      {
        var child := root + [col];
        assert Parent(child) == root && Last(child) == col;
        RepriorNext(before, root, priors, col);
        if child in nodes {
          nodes := nodes[child := nodes[child].(prior := priors[col])];
        }
      }
    }

    /** `add_root_dirichlet_noise`. */
    method AddRootDirichletNoise(prm: Params, noise: Noise) returns (ok: bool)
      requires Valid() && Sound(State())
      modifies this`nodes, this`leaf
      ensures Valid() && Sound(State())
      ensures ok <==> AddRootNoise(prm, old(State()), noise).Some?
      ensures State() == if ok then AddRootNoise(prm, old(State()), noise).value else old(State())
    {
      var n := nodes[root];
      var terminal := WinTests.ComputeTerminalState(Positions.Encode(n.pos));
      WinTests.TerminalRefines(n.pos);
      if noise.epsilon == 0.0 || !n.expanded || terminal.Some? {
        return true;
      }
      var priors := MixNoise(n.priors, LegalColumns(n.pos), noise);
      if priors.None? {
        return false;
      }
      ReprioredShape(start, root, nodes, priors.value);
      forall p | p in nodes ensures root <= p {
        assert Placed(start, root, nodes, p);
      }
      SetRootPriors(priors.value);
      SelectLeaf(prm);
      WellFormedSound(State());
      ok := true;
    }

    /** `make_move`; `ok` is false for the exceptions, which change nothing. */
    method MakeMove(prm: Params, move: nat) returns (ok: bool)
      requires Valid() && Sound(State())
      modifies this
      ensures Valid() && Sound(State())
      ensures ok <==> Games.MakeMove(prm, old(State()), move).Some?
      ensures State() == if ok then Games.MakeMove(prm, old(State()), move).value else old(State())
    {
      if move >= COLS || !nodes[root].expanded || move !in nodes[root].legal {
        return false;
      }
      PromotedShape(start, root, nodes, move);
      assert Placed(start, root, nodes, root);
      PlaySnoc(start, root, move);
      ghost var before := State();
      var record := Recorded(nodes[root].pos, VisitPolicy(nodes, root), move);
      moves := moves + [record];
      MaterialiseChild(root, move);
      root := root + [move];
      nodes := Subtree(nodes, root);
      SelectLeaf(prm);
      ExtendHistory(before, State(), move);
      WellFormedSound(State());
      ok := true;
    }

    /** `make_random_move` for the uniform draw of its seed. */
    method MakeRandomMove(prm: Params, temperature: real, uniform: Rng.Uniform) returns (ok: bool)
      requires Valid() && Sound(State())
      modifies this
      ensures Valid() && Sound(State())
      ensures ok <==> Games.MakeRandomMove(prm, old(State()), temperature, uniform).Some?
      ensures State()
           == if ok then Games.MakeRandomMove(prm, old(State()), temperature, uniform).value else old(State())
    {
      var policy := MaskPolicy(VisitPolicy(nodes, root), LegalColumns(nodes[root].pos));
      var tempered := ComputeTemperature(prm.pow, policy, temperature);
      if tempered.None? {
        return false;
      }
      var move := Rng.SamplePolicy(tempered.value, uniform);
      if move.None? {
        return false;
      }
      ok := MakeMove(prm, move.value);
    }

    method UndoMove() returns (undone: bool)
      requires Valid()
      modifies this
      ensures Valid()
      ensures State() == Undo(old(State()))
      ensures undone <==> old(moves) != []
    {
      if moves == [] {
        return false;
      }
      ghost var before := State();
      var previous := moves[|moves| - 1].pos;
      moves := moves[..|moves| - 1];
      root := Parent(root);
      nodes := map[root := FreshNode(previous, 1.0)];
      leaf := root;
      UndoHistory(before);
      assert root == before.root[..|before.moves| - 1];
      undone := true;
    }

    /** `reset`: undo until nothing is left. */
    method Reset()
      requires Valid()
      modifies this
      ensures Valid()
      ensures State() == Games.Reset(old(State()))
    {
      var undone := moves != [];
      ghost var goal := Games.Reset(State());
      while undone
        invariant Valid() && Games.Reset(State()) == goal
        invariant !undone ==> moves == []
        decreases |moves|, if undone then 1 else 0
      {
        undone := UndoMove();
      }
    }

    /** `to_result`: the samples, or `None` for an unfinished game. */
    method MakeResult(plyPenalty: real) returns (samples: Option<seq<Sample>>)
      requires Valid() && Sound(State())
      ensures samples == ToResult(plyPenalty, State())
      ensures samples.Some? ==> |samples.value| == |moves| + 1
      ensures samples.Some? ==>
        forall i :: 0 <= i < |moves| ==>
          samples.value[i].pos == moves[i].pos && samples.value[i].policy == moves[i].policy
    {
      var pos := nodes[root].pos;
      var terminal := WinTests.ComputeTerminalState(Positions.Encode(pos));
      WinTests.TerminalRefines(pos);
      if terminal.None? {
        return None;
      }
      var v := OutcomeValues(terminal.value, Penalty(pos, plyPenalty));
      var list := MakeMoveSamples(v);
      samples := Some(list + [Sample(pos, UNIFORM, v)]);
    }

    method MakeMoveSamples(v: Values) returns (list: seq<Sample>)
      ensures list == MoveSamples(moves, v)
    {
      list := [];
      for index := 0 to |moves|
        invariant list == MoveSamples(moves, v)[..index]
      {
        var positive := (|moves| - index) % 2 == 0;
        list := list + [Sample(moves[index].pos, moves[index].policy, if positive then v else v.Negated())];
      }
    }
  }

  /** Root and the first `done` columns have their new priors. */
  function RepriorDone(t: Tree, root: Path, priors: Policy, done: nat): Tree
    requires root in t && done <= COLS
  {
    map p | p in t ::
      if p == root then t[p].(priors := priors)
      else if p != [] && Parent(p) == root && Last(p) < done then t[p].(prior := priors[Last(p)])
      else t[p]
  }

  lemma RepriorNext(t: Tree, root: Path, priors: Policy, col: nat)
    requires root in t && col < COLS
    ensures var child := root + [col];
            var now, next := RepriorDone(t, root, priors, col), RepriorDone(t, root, priors, col + 1);
            next == if child in t then now[child := t[child].(prior := priors[col])] else now
  {
    var child := root + [col];
    assert Parent(child) == root && Last(child) == col;
    forall p | p in t && p != [] && Parent(p) == root && Last(p) == col ensures p == child {
      PathSnoc(p);
    }
  }
}
