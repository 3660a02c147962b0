/**
 The lazy tree refines an eager one. The eager search creates every legal child when a node is
 expanded and scores nodes only; the real one scores a missing child from its prior and creates it
 when it is first selected. Over every sequence of operations both select the same leaf and report
 the same policy, counts, values and moves.
 */
module EagerSearch {
  import opened Board
  import opened Policies
  import opened SearchTree
  import opened Games
  import Rng

  /** All legal children of an expanded node. */
  function WithChildren(t: Tree, p: Path): Tree
    requires p in t
  {
    map q | q in t.Keys + (set c: nat | c < COLS && Legal(t[p].pos, c) :: p + [c]) ::
      if q in t then t[q]
      else if q != [] && Legal(t[p].pos, Last(q)) then FreshNode(Drop(t[p].pos, Last(q)), t[p].priors[Last(q)])
      else t[p]
  }

  function EagerExpand(t: Tree, leaf: Path, policy: Policy): Tree
    requires leaf in t
  {
    WithChildren(Expand(t, leaf, policy), leaf)
  }

  /** Scores of nodes; a column without a node has none. */
  function EagerScores(prm: Params, t: Tree, p: Path): Policy
    requires p in t
  {
    seq(COLS, c requires 0 <= c < COLS =>
      if p + [c] in t then Uct(prm, t[p + [c]], prm.ln(t[p].visits as real)) else 0.0)
  }

  function EagerDescend(prm: Params, t: Tree, p: Path): Path
    requires p in t && Shallow(t)
    decreases CELLS - |p|
  {
    if !t[p].expanded then p
    else match BestColumn(EagerScores(prm, t, p), t[p].legal, COLS)
      case None => p
      case Some(col) => if p + [col] in t then EagerDescend(prm, t, p + [col]) else p
  }

  function EagerSelected(prm: Params, start: Grid, root: Path, t: Tree, moves: seq<Recorded>): Game
    requires root in t && Shallow(t)
  {
    Game(start, root, t, EagerDescend(prm, t, root), moves)
  }

  function EagerUpdated(t: Tree, leaf: Path, update: Update): Tree
    requires leaf in t
  {
    match update
    case Revisit(v) => Backpropagate(t, leaf, v)
    case Growth(policy, q) => Backpropagate(EagerExpand(t, leaf, policy), leaf, q)
  }

  ghost function EagerReceive(prm: Params, g: Game, e: Evaluation, noise: Noise): Option<Game>
    requires Sound(g)
  {
    match LeafUpdate(prm, LeafPosition(g), g.leaf == g.root, e, noise)
    case None => None
    case Some(update) =>
      var t := EagerUpdated(g.nodes, g.leaf, update);
      if Shallow(t) then Some(EagerSelected(prm, g.start, g.root, t, g.moves)) else None
  }

  ghost function EagerAddRootNoise(prm: Params, g: Game, noise: Noise): Option<Game>
    requires Sound(g)
  {
    var n := g.nodes[g.root];
    if noise.epsilon == 0.0 || !n.expanded || TerminalState(n.pos).Some? then Some(g)
    else match MixNoise(n.priors, LegalColumns(n.pos), noise)
      case None => None
      case Some(priors) =>
        Some(EagerSelected(prm, g.start, g.root, Repriored(g.nodes, g.root, priors), g.moves))
  }

  function EagerMakeMove(prm: Params, g: Game, move: nat): Option<Game>
    requires Sound(g)
  {
    var n := g.nodes[g.root];
    var down := g.root + [move];
    if move >= COLS || !n.expanded || move !in n.legal || down !in g.nodes then None
    else
      Some(EagerSelected(prm, g.start, down, Subtree(g.nodes, down),
                         g.moves + [Recorded(n.pos, RootPolicy(g), move)]))
  }

  function EagerMakeRandomMove(prm: Params, g: Game, temperature: real, uniform: Rng.Uniform): Option<Game>
    requires Sound(g)
  {
    match RandomColumn(prm, RootPolicy(g), RootPosition(g), temperature, uniform)
    case None => None
    case Some(move) => EagerMakeMove(prm, g, move)
  }

  ghost function EagerStep(prm: Params, eval: Grid -> Evaluation, g: Game, op: Op): Option<Game>
    requires Sound(g)
  {
    match op
    case Evaluate(noise) => EagerReceive(prm, g, eval(LeafPosition(g)), noise)
    case AddNoise(noise) => EagerAddRootNoise(prm, g, noise)
    case Move(move) => EagerMakeMove(prm, g, move)
    case RandomMove(temperature, uniform) => EagerMakeRandomMove(prm, g, temperature, uniform)
    case UndoMove => Some(Undo(g))
    case ResetAll => Some(Reset(g))
  }

  // ----- the relation ---------------------------------------------------------------------------

  /** A legal child of an expanded node that the lazy tree has not created. */
  predicate Missing(l: Tree, p: Path) {
    && p !in l && p != [] && Parent(p) in l && l[Parent(p)].expanded
    && Last(p) < COLS && Last(p) in l[Parent(p)].legal && Legal(l[Parent(p)].pos, Last(p))
  }

  function MissingNode(l: Tree, p: Path): Node
    requires Missing(l, p)
  {
    FreshNode(Drop(l[Parent(p)].pos, Last(p)), l[Parent(p)].priors[Last(p)])
  }

  /** The eager tree is the lazy tree with all missing children filled in, and nothing else. */
  predicate FilledAt(l: Tree, e: Tree, p: Path)
    requires p in e
  {
    if p in l then e[p] == l[p] else Missing(l, p) && e[p] == MissingNode(l, p)
  }

  ghost predicate Completes(l: Tree, e: Tree) {
    && (forall p :: p in l ==> p in e)
    && (forall p {:trigger FilledAt(l, e, p)} :: p in e ==> FilledAt(l, e, p))
    && (forall p :: Missing(l, p) ==> p in e)
  }

  /** The completion is unique. */
  lemma CompletionUnique(l: Tree, e: Tree, f: Tree)
    requires Completes(l, e) && Completes(l, f)
    ensures e == f
  {
    forall p | p in e || p in f ensures p in e && p in f && e[p] == f[p] {
      if p in e {
        assert FilledAt(l, e, p);
      }
      if p in f {
        assert FilledAt(l, f, p);
      }
      assert FilledAt(l, e, p) && FilledAt(l, f, p);
    }
  }

  ghost predicate Simulates(l: Game, e: Game) {
    && l.start == e.start && l.root == e.root && l.leaf == e.leaf && l.moves == e.moves
    && Completes(l.nodes, e.nodes)
  }

  /** Both throw, or both go on in related states. */
  ghost predicate Agree(a: Option<Game>, b: Option<Game>) {
    (a.Some? <==> b.Some?) && (a.Some? ==> Simulates(a.value, b.value))
  }

  /** Everything a caller can observe. */
  ghost predicate SameView(l: Game, e: Game)
    requires Sound(l) && Sound(e)
  {
    && LeafPosition(l) == LeafPosition(e) && RootPosition(l) == RootPosition(e)
    && RootVisits(l) == RootVisits(e) && RootPolicy(l) == RootPolicy(e) && l.moves == e.moves
    && QPenalty(l.nodes[l.root]) == QPenalty(e.nodes[e.root])
    && QNoPenalty(l.nodes[l.root]) == QNoPenalty(e.nodes[e.root])
  }

  lemma CompleteShallow(start: Grid, root: Path, l: Tree, e: Tree)
    requires Shape(start, root, l) && Completes(l, e)
    ensures Shallow(e)
  {
    ShapeShallow(start, root, l);
    forall p | p in e ensures |p| <= CELLS {
      assert FilledAt(l, e, p);
      if p !in l {
        assert Placed(start, root, l, Parent(p));
        FullGrid(Drop(l[Parent(p)].pos, Last(p)));
      }
    }
  }

  /** A child of an expanded node, seen from both trees. */
  lemma ChildFilled(start: Grid, root: Path, l: Tree, e: Tree, p: Path, col: nat)
    requires Shape(start, root, l) && Completes(l, e) && p in l
    ensures p + [col] in l ==> p + [col] in e && e[p + [col]] == l[p + [col]]
    ensures p + [col] !in l && p + [col] in e ==>
      l[p].expanded && col in l[p].legal && Legal(l[p].pos, col)
      && e[p + [col]] == FreshNode(Drop(l[p].pos, col), l[p].priors[col])
    ensures l[p].expanded && col < COLS && col in l[p].legal ==> p + [col] in e
  {
    var q := p + [col];
    assert Parent(q) == p && Last(q) == col;
    if q in e {
      assert FilledAt(l, e, q);
    }
    if l[p].expanded && col < COLS && col in l[p].legal && q !in l {
      assert Placed(start, root, l, p);
      assert Missing(l, q);
    }
  }

  lemma FreshUct(prm: Params, prior: real, pos: Grid, logVisits: real)
    ensures Uct(prm, FreshNode(pos, prior), logVisits) == prm.c * (prm.sqrt(logVisits) * (prior + NODE_EPSILON))
  {
    assert logVisits / 1.0 == logVisits;
    assert QPenalty(FreshNode(pos, prior)) == 0.0;
  }

  lemma NodeScore(prm: Params, l: Tree, e: Tree, p: Path, col: nat)
    requires p in l && p in e && e[p] == l[p] && col < COLS
    requires p + [col] in l && p + [col] in e && e[p + [col]] == l[p + [col]]
    ensures EagerScores(prm, e, p)[col] == Scores(prm, l, p)[col]
  {
  }

  lemma MissingScore(prm: Params, l: Tree, e: Tree, p: Path, col: nat, pos: Grid)
    requires p in l && p in e && e[p] == l[p] && col < COLS
    requires p + [col] !in l && p + [col] in e && e[p + [col]] == FreshNode(pos, l[p].priors[col])
    ensures EagerScores(prm, e, p)[col] == Scores(prm, l, p)[col]
  {
    FreshUct(prm, l[p].priors[col], pos, prm.ln(l[p].visits as real));
  }

  /** A missing child scores from its prior exactly what its untouched node would score. */
  lemma SameScore(prm: Params, start: Grid, root: Path, l: Tree, e: Tree, p: Path, col: nat)
    requires Shape(start, root, l) && Completes(l, e) && p in l && p in e && l[p].expanded
    requires col < COLS && col in l[p].legal
    ensures EagerScores(prm, e, p)[col] == Scores(prm, l, p)[col]
  {
    ChildFilled(start, root, l, e, p, col);
    assert FilledAt(l, e, p);
    if p + [col] in l {
      NodeScore(prm, l, e, p, col);
    } else {
      MissingScore(prm, l, e, p, col, Drop(l[p].pos, col));
    }
  }

  lemma {:induction false} SameBest(a: Policy, b: Policy, legal: set<nat>, n: nat)
    requires n <= COLS && forall c: nat :: c < COLS && c in legal ==> a[c] == b[c]
    ensures BestColumn(a, legal, n) == BestColumn(b, legal, n)
  {
    if n > 0 {
      SameBest(a, b, legal, n - 1);
    }
  }

  /** Both descents take the same way, down to a node that the lazy tree may have yet to create. */
  lemma {:induction false} SameDescent(prm: Params, start: Grid, root: Path, l: Tree, e: Tree, p: Path)
    requires Shape(start, root, l) && Shallow(l) && Shallow(e) && Completes(l, e) && p in l && p in e
    ensures EagerDescend(prm, e, p) == Descend(prm, l, p)
    ensures Descend(prm, l, p) in e
    decreases CELLS - |p|
  {
    assert FilledAt(l, e, p);
    if l[p].expanded {
      assert Placed(start, root, l, p);
      var move := NonTerminalHasMove(l[p].pos);
      assert move in l[p].legal;
      forall c: nat | c < COLS && c in l[p].legal ensures EagerScores(prm, e, p)[c] == Scores(prm, l, p)[c] {
        SameScore(prm, start, root, l, e, p, c);
      }
      SameBest(EagerScores(prm, e, p), Scores(prm, l, p), l[p].legal, COLS);
      var best := BestColumn(Scores(prm, l, p), l[p].legal, COLS).value;
      ChildFilled(start, root, l, e, p, best);
      if p + [best] in l {
        SameDescent(prm, start, root, l, e, p + [best]);
      }
    }
  }

  // ----- each update preserves the relation -----------------------------------------------------

  lemma MaterialiseCompletes(start: Grid, root: Path, l: Tree, e: Tree, leaf: Path)
    requires Shape(start, root, l) && Completes(l, e) && leaf in e
    ensures Completes(Materialise(l, leaf), e)
  {
    if leaf !in l {
      assert FilledAt(l, e, leaf);
      var r := Materialise(l, leaf);
      assert r == l[leaf := MissingNode(l, leaf)];
      forall p | p in e ensures FilledAt(r, e, p) {
        assert FilledAt(l, e, p);
      }
      forall p | Missing(r, p) ensures p in e {
        if Parent(p) != leaf {
          assert Missing(l, p);
        }
      }
    }
  }

  lemma BackpropagateFilled(l: Tree, e: Tree, leaf: Path, v: Values, p: Path)
    requires p in e && FilledAt(l, e, p) && (p !in l ==> !(p <= leaf))
    ensures FilledAt(Backpropagate(l, leaf, v), Backpropagate(e, leaf, v), p)
  {
    if p !in l {
      assert Missing(Backpropagate(l, leaf, v), p);
    }
  }

  lemma BackpropagateCompletes(start: Grid, root: Path, l: Tree, e: Tree, leaf: Path, v: Values)
    requires Shape(start, root, l) && Completes(l, e) && leaf in l
    ensures Completes(Backpropagate(l, leaf, v), Backpropagate(e, leaf, v))
  {
    var r, f := Backpropagate(l, leaf, v), Backpropagate(e, leaf, v);
    forall p | p in f ensures FilledAt(r, f, p) {
      assert FilledAt(l, e, p);
      if p !in l {
        MissingOffPath(start, root, l, leaf, p);
      }
      BackpropagateFilled(l, e, leaf, v, p);
    }
    forall p | Missing(r, p) ensures p in f {
      assert Missing(l, p);
    }
  }

  /** A missing child is not an ancestor of any node. */
  lemma MissingOffPath(start: Grid, root: Path, l: Tree, leaf: Path, p: Path)
    requires Shape(start, root, l) && leaf in l && Missing(l, p)
    ensures !(p <= leaf)
  {
    if p <= leaf {
      assert Placed(start, root, l, Parent(p));
      assert root <= Parent(p) <= p;
      AncestorsPresent(start, root, l, leaf, p);
    }
  }

  lemma ExpandCompletes(start: Grid, root: Path, l: Tree, e: Tree, leaf: Path, policy: Policy)
    requires Shape(start, root, l) && Completes(l, e) && leaf in l && !l[leaf].expanded && leaf in e
    ensures Completes(Expand(l, leaf, policy), EagerExpand(e, leaf, policy))
  {
    assert FilledAt(l, e, leaf);
    var r, f := Expand(l, leaf, policy), EagerExpand(e, leaf, policy);
    assert Placed(start, root, l, leaf);
    assert r[leaf].legal == LegalColumns(l[leaf].pos);
    forall p | p in f ensures FilledAt(r, f, p) {
      ExpandFilled(l, e, leaf, policy, p);
    }
    forall p | Missing(r, p) ensures p in f {
      if Parent(p) == leaf {
        PathSnoc(p);
      } else {
        assert Missing(l, p);
      }
    }
  }

  lemma ExpandFilled(l: Tree, e: Tree, leaf: Path, policy: Policy, p: Path)
    requires Completes(l, e) && leaf in l && leaf in e && e[leaf] == l[leaf] && !l[leaf].expanded
    requires l[leaf].legal == {} && p in EagerExpand(e, leaf, policy)
    ensures FilledAt(Expand(l, leaf, policy), EagerExpand(e, leaf, policy), p)
  {
    var f := EagerExpand(e, leaf, policy);
    if p in e {
      assert FilledAt(l, e, p);
    } else {
      var c: nat :| c < COLS && Legal(e[leaf].pos, c) && p == leaf + [c];
      assert Parent(p) == leaf && Last(p) == c;
    }
  }

  lemma SubtreeCompletes(l: Tree, e: Tree, down: Path)
    requires Completes(l, e) && down in l
    ensures Completes(Subtree(l, down), Subtree(e, down))
  {
    var r, f := Subtree(l, down), Subtree(e, down);
    forall p | p in f ensures FilledAt(r, f, p) {
      assert FilledAt(l, e, p);
      if p !in l {
        assert p != down;
        assert down <= Parent(p);
      }
    }
    forall p | Missing(r, p) ensures p in f {
      assert down <= Parent(p) <= p;
      assert Missing(l, p);
    }
  }

  lemma RepriorFilled(l: Tree, e: Tree, root: Path, priors: Policy, p: Path)
    requires root in l && root in e && p in e && FilledAt(l, e, p)
    ensures FilledAt(Repriored(l, root, priors), Repriored(e, root, priors), p)
  {
    if p !in l {
      assert Missing(Repriored(l, root, priors), p);
    }
  }

  lemma RepriorCompletes(start: Grid, root: Path, l: Tree, e: Tree, priors: Policy)
    requires Shape(start, root, l) && Completes(l, e) && root in e
    ensures Completes(Repriored(l, root, priors), Repriored(e, root, priors))
  {
    var r, f := Repriored(l, root, priors), Repriored(e, root, priors);
    forall p | p in f ensures FilledAt(r, f, p) {
      RepriorFilled(l, e, root, priors, p);
    }
    forall p | Missing(r, p) ensures p in f {
      assert Missing(l, p);
    }
  }

  // ----- each operation preserves the relation --------------------------------------------------

  lemma SamePolicy(l: Tree, e: Tree, p: Path)
    requires p in l && p in e && e[p] == l[p]
    requires forall col: nat :: col < COLS ==> ChildVisits(l, p, col) == ChildVisits(e, p, col)
    ensures VisitPolicy(l, p) == VisitPolicy(e, p)
  {
    assert VisitSum(l, p) == VisitSum(e, p);
  }

  lemma SameCounts(start: Grid, root: Path, l: Tree, e: Tree, p: Path)
    requires Shape(start, root, l) && Completes(l, e) && p in l && p in e
    ensures VisitPolicy(l, p) == VisitPolicy(e, p)
  {
    forall col: nat | col < COLS ensures ChildVisits(l, p, col) == ChildVisits(e, p, col) {
      ChildFilled(start, root, l, e, p, col);
    }
    assert FilledAt(l, e, p);
    SamePolicy(l, e, p);
  }

  lemma SimulationView(eval: Grid -> Evaluation, plyPenalty: real, l: Game, e: Game)
    requires Inv(eval, plyPenalty, l) && Sound(l) && Simulates(l, e)
    ensures Sound(e) && SameView(l, e) && e.nodes[e.leaf] == l.nodes[l.leaf] && e.nodes[e.root] == l.nodes[l.root]
  {
    CompleteShallow(l.start, l.root, l.nodes, e.nodes);
    assert FilledAt(l.nodes, e.nodes, l.leaf) && FilledAt(l.nodes, e.nodes, l.root);
    SameCounts(l.start, l.root, l.nodes, e.nodes, l.root);
  }

  lemma SelectSimulates(prm: Params, start: Grid, root: Path, l: Tree, e: Tree, moves: seq<Recorded>)
    requires Shape(start, root, l) && Shallow(l) && Completes(l, e)
    ensures root in e && Shallow(e)
    ensures Simulates(Reselected(prm, start, root, l, moves), EagerSelected(prm, start, root, e, moves))
  {
    CompleteShallow(start, root, l, e);
    SameDescent(prm, start, root, l, e, root);
    MaterialiseCompletes(start, root, l, e, Descend(prm, l, root));
  }

  lemma UpdatedCompletes(start: Grid, root: Path, l: Tree, e: Tree, leaf: Path, update: Update)
    requires Shape(start, root, l) && Completes(l, e) && leaf in l && leaf in e && !l[leaf].expanded
    requires update.Growth? ==> TerminalState(l[leaf].pos).None?
    ensures Completes(Updated(l, leaf, update), EagerUpdated(e, leaf, update))
  {
    match update {
      case Revisit(v) => BackpropagateCompletes(start, root, l, e, leaf, v);
      case Growth(policy, q) =>
        ExpandShape(start, root, l, leaf, policy);
        ExpandCompletes(start, root, l, e, leaf, policy);
        BackpropagateCompletes(start, root, Expand(l, leaf, policy), EagerExpand(e, leaf, policy), leaf, q);
    }
  }

  lemma SelectUpdated(prm: Params, l: Game, e: Game, update: Update)
    requires Shape(l.start, l.root, l.nodes) && Sound(l) && Simulates(l, e) && Sound(e)
    requires Shape(l.start, l.root, Updated(l.nodes, l.leaf, update)) && !l.nodes[l.leaf].expanded
    requires update.Growth? ==> TerminalState(LeafPosition(l)).None?
    ensures Shallow(Updated(l.nodes, l.leaf, update)) && Shallow(EagerUpdated(e.nodes, e.leaf, update))
    ensures Agree(Some(Reselected(prm, l.start, l.root, Updated(l.nodes, l.leaf, update), l.moves)),
                  Some(EagerSelected(prm, e.start, e.root, EagerUpdated(e.nodes, e.leaf, update), e.moves)))
  {
    UpdatedCompletes(l.start, l.root, l.nodes, e.nodes, l.leaf, update);
    ShapeShallow(l.start, l.root, Updated(l.nodes, l.leaf, update));
    SelectSimulates(prm, l.start, l.root, Updated(l.nodes, l.leaf, update),
                    EagerUpdated(e.nodes, l.leaf, update), l.moves);
  }

  lemma ReceiveSimulates(prm: Params, eval: Grid -> Evaluation, l: Game, e: Game, noise: Noise)
    requires Inv(eval, prm.plyPenalty, l) && Sound(l) && Simulates(l, e) && Sound(e)
    requires e.nodes[e.leaf] == l.nodes[l.leaf]
    ensures Agree(Receive(prm, l, eval(LeafPosition(l)), noise), EagerReceive(prm, e, eval(LeafPosition(e)), noise))
  {
    var update := LeafUpdate(prm, LeafPosition(l), l.leaf == l.root, eval(LeafPosition(l)), noise);
    if update.Some? {
      UpdatedTree(prm, eval, l, noise, update.value);
      SelectUpdated(prm, l, e, update.value);
    }
  }

  lemma RepriorSimulates(prm: Params, l: Game, e: Game, priors: Policy)
    requires Shape(l.start, l.root, l.nodes) && Sound(l) && Simulates(l, e) && Sound(e)
    ensures Simulates(Reselected(prm, l.start, l.root, Repriored(l.nodes, l.root, priors), l.moves),
                      EagerSelected(prm, e.start, e.root, Repriored(e.nodes, e.root, priors), e.moves))
  {
    ReprioredShape(l.start, l.root, l.nodes, priors);
    RepriorCompletes(l.start, l.root, l.nodes, e.nodes, priors);
    SelectSimulates(prm, l.start, l.root, Repriored(l.nodes, l.root, priors), Repriored(e.nodes, l.root, priors),
                    l.moves);
  }

  lemma NoiseSimulates(prm: Params, eval: Grid -> Evaluation, l: Game, e: Game, noise: Noise)
    requires Inv(eval, prm.plyPenalty, l) && Sound(l) && Simulates(l, e) && Sound(e)
    requires e.nodes[e.root] == l.nodes[l.root]
    ensures var a, b := AddRootNoise(prm, l, noise), EagerAddRootNoise(prm, e, noise);
            Agree(a, b)
  {
    var n := l.nodes[l.root];
    match MixNoise(n.priors, LegalColumns(n.pos), noise) {
      case None =>
      case Some(priors) => RepriorSimulates(prm, l, e, priors);
    }
  }

  lemma MoveSimulates(prm: Params, eval: Grid -> Evaluation, l: Game, e: Game, move: nat)
    requires Inv(eval, prm.plyPenalty, l) && Sound(l) && Simulates(l, e) && Sound(e) && SameView(l, e)
    requires e.nodes[e.root] == l.nodes[l.root]
    ensures var a, b := MakeMove(prm, l, move), EagerMakeMove(prm, e, move);
            Agree(a, b)
  {
    MakeMoveInv(prm, eval, l, move);
    var n := l.nodes[l.root];
    if move < COLS && n.expanded && move in n.legal {
      var down := l.root + [move];
      ChildFilled(l.start, l.root, l.nodes, e.nodes, l.root, move);
      MaterialiseCompletes(l.start, l.root, l.nodes, e.nodes, down);
      PromotedTree(eval, prm.plyPenalty, l, move);
      var t := Materialise(l.nodes, down);
      assert down in t;
      SubtreeCompletes(t, e.nodes, down);
      SelectSimulates(prm, l.start, down, Subtree(t, down), Subtree(e.nodes, down),
                      l.moves + [Recorded(n.pos, RootPolicy(l), move)]);
    }
  }

  lemma SingleCompletes(root: Path, n: Node)
    requires !n.expanded
    ensures Completes(map[root := n], map[root := n])
  {
    var t := map[root := n];
    forall p: Path ensures !Missing(t, p) {
    }
  }

  lemma UndoSimulates(l: Game, e: Game)
    requires Simulates(l, e)
    ensures Simulates(Undo(l), Undo(e))
  {
    if l.moves != [] && l.root != [] {
      SingleCompletes(Parent(l.root), FreshNode(l.moves[|l.moves| - 1].pos, 1.0));
    }
  }

  lemma {:induction false} ResetSimulates(l: Game, e: Game)
    requires Simulates(l, e)
    ensures Simulates(Reset(l), Reset(e))
    decreases |l.moves|
  {
    if l.moves != [] && l.root != [] {
      UndoSimulates(l, e);
      ResetSimulates(Undo(l), Undo(e));
    }
  }

  lemma RandomMoveSimulates(prm: Params, eval: Grid -> Evaluation, l: Game, e: Game, temperature: real,
                            uniform: Rng.Uniform)
    requires Inv(eval, prm.plyPenalty, l) && Sound(l) && Simulates(l, e) && Sound(e)
    ensures var a, b := MakeRandomMove(prm, l, temperature, uniform), EagerMakeRandomMove(prm, e, temperature, uniform);
            Agree(a, b)
  {
    SimulationView(eval, prm.plyPenalty, l, e);
    var move := RandomColumn(prm, RootPolicy(l), RootPosition(l), temperature, uniform);
    if move.Some? {
      MoveSimulates(prm, eval, l, e, move.value);
    }
  }

  lemma SearchStepSimulates(prm: Params, eval: Grid -> Evaluation, l: Game, e: Game, op: Op)
    requires Inv(eval, prm.plyPenalty, l) && Sound(l) && Simulates(l, e) && Sound(e)
    requires op.Evaluate? || op.AddNoise?
    ensures Agree(Step(prm, eval, l, op), EagerStep(prm, eval, e, op))
  {
    SimulationView(eval, prm.plyPenalty, l, e);
    if op.Evaluate? {
      ReceiveSimulates(prm, eval, l, e, op.noise);
    } else {
      NoiseSimulates(prm, eval, l, e, op.noise);
    }
  }

  lemma MoveStepSimulates(prm: Params, eval: Grid -> Evaluation, l: Game, e: Game, op: Op)
    requires Inv(eval, prm.plyPenalty, l) && Sound(l) && Simulates(l, e) && Sound(e) && op.Move?
    ensures Agree(Step(prm, eval, l, op), EagerStep(prm, eval, e, op))
  {
    SimulationView(eval, prm.plyPenalty, l, e);
    MoveSimulates(prm, eval, l, e, op.move);
  }

  lemma RandomMoveStepSimulates(prm: Params, eval: Grid -> Evaluation, l: Game, e: Game, op: Op)
    requires Inv(eval, prm.plyPenalty, l) && Sound(l) && Simulates(l, e) && Sound(e) && op.RandomMove?
    ensures Agree(Step(prm, eval, l, op), EagerStep(prm, eval, e, op))
  {
    RandomMoveSimulates(prm, eval, l, e, op.temperature, op.uniform);
  }

  lemma UndoStepSimulates(prm: Params, eval: Grid -> Evaluation, l: Game, e: Game, op: Op)
    requires Sound(l) && Simulates(l, e) && Sound(e) && (op.UndoMove? || op.ResetAll?)
    ensures Agree(Step(prm, eval, l, op), EagerStep(prm, eval, e, op))
  {
    if op.UndoMove? {
      UndoSimulates(l, e);
    } else {
      ResetSimulates(l, e);
    }
  }

  lemma StepSimulates(prm: Params, eval: Grid -> Evaluation, l: Game, e: Game, op: Op)
    requires Inv(eval, prm.plyPenalty, l) && Sound(l) && Simulates(l, e) && Sound(e)
    ensures Agree(Step(prm, eval, l, op), EagerStep(prm, eval, e, op))
  {
    if op.Evaluate? || op.AddNoise? {
      SearchStepSimulates(prm, eval, l, e, op);
    } else if op.Move? {
      MoveStepSimulates(prm, eval, l, e, op);
    } else if op.RandomMove? {
      RandomMoveStepSimulates(prm, eval, l, e, op);
    } else {
      UndoStepSimulates(prm, eval, l, e, op);
    }
  }

  /** A run of the eager search. */
  ghost function EagerRun(prm: Params, eval: Grid -> Evaluation, g: Game, ops: seq<Op>): Option<Game>
    decreases |ops|
  {
    if ops == [] then Some(g)
    else if !Sound(g) then None
    else match EagerStep(prm, eval, g, ops[0])
      case None => None
      case Some(h) => EagerRun(prm, eval, h, ops[1..])
  }

  /** One operation first, then the rest. */
  lemma RunUnrolled(prm: Params, eval: Grid -> Evaluation, l: Game, e: Game, ops: seq<Op>)
    requires Inv(eval, prm.plyPenalty, l) && Sound(l) && Sound(e) && ops != []
    ensures Step(prm, eval, l, ops[0]).None? ==> Run(prm, eval, l, ops).None?
    ensures Step(prm, eval, l, ops[0]).Some? ==>
      && Inv(eval, prm.plyPenalty, Step(prm, eval, l, ops[0]).value)
      && Run(prm, eval, l, ops) == Run(prm, eval, Step(prm, eval, l, ops[0]).value, ops[1..])
    ensures EagerRun(prm, eval, e, ops)
         == match EagerStep(prm, eval, e, ops[0])
            case None => None
            case Some(h) => EagerRun(prm, eval, h, ops[1..])
  {
    if Step(prm, eval, l, ops[0]).Some? {
      StepInv(prm, eval, l, ops[0]);
    }
  }

  lemma {:induction false} RunSimulates(prm: Params, eval: Grid -> Evaluation, l: Game, e: Game, ops: seq<Op>)
    requires Inv(eval, prm.plyPenalty, l) && Simulates(l, e)
    ensures var a, b := Run(prm, eval, l, ops), EagerRun(prm, eval, e, ops);
            Agree(a, b)
    decreases |ops|
  {
    if ops != [] {
      InvSound(eval, prm.plyPenalty, l);
      SimulationView(eval, prm.plyPenalty, l, e);
      StepSimulates(prm, eval, l, e, ops[0]);
      RunUnrolled(prm, eval, l, e, ops);
      var a, b := Step(prm, eval, l, ops[0]), EagerStep(prm, eval, e, ops[0]);
      if a.Some? {
        RunSimulates(prm, eval, a.value, b.value, ops[1..]);
      }
    }
  }

  /**
   Lazy refines eager: from any start, over every sequence of evaluations, noise, moves, undos and
   resets, the two searches succeed together and then look the same to every caller.
   */
  lemma LazyRefinesEager(prm: Params, eval: Grid -> Evaluation, start: Grid, ops: seq<Op>)
    ensures Inv(eval, prm.plyPenalty, NewGame(start))
    ensures var a, b := Run(prm, eval, NewGame(start), ops), EagerRun(prm, eval, NewGame(start), ops);
            (a.Some? <==> b.Some?)
            && (a.Some? ==> Sound(a.value) && Sound(b.value) && SameView(a.value, b.value)
                            && a.value.leaf == b.value.leaf && a.value.root == b.value.root)
  {
    var g := NewGame(start);
    NewGameInv(eval, prm.plyPenalty, start);
    SingleCompletes([], FreshNode(start, 1.0));
    RunSimulates(prm, eval, g, g, ops);
    if Run(prm, eval, g, ops).Some? {
      RunKeepsInvariant(prm, eval, g, ops);
      InvSound(eval, prm.plyPenalty, Run(prm, eval, g, ops).value);
      SimulationView(eval, prm.plyPenalty, Run(prm, eval, g, ops).value, EagerRun(prm, eval, g, ops).value);
    }
  }
}
