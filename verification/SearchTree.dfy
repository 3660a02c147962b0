/**
 The search tree of `cpp/src/mcts.cpp`. A node is addressed by the moves that lead to it from the
 starting position, so the children of `p` are `p + [col]`, its parent is `p` without the last move,
 and promoting a child to root keeps the addresses. Children are created lazily, when first
 selected.
 */
module SearchTree {
  import opened Board
  import opened Policies

  const NODE_EPSILON := 0.00000001

  type Path = seq<nat>

  datatype Node = Node(pos: Grid, visits: nat, qPen: real, qNoPen: real, prior: real, priors: Policy,
                       legal: set<nat>, expanded: bool)

  type Tree = map<Path, Node>

  /** A pair of values: with and without the ply penalty. */
  datatype Values = Values(pen: real, noPen: real) {
    function Negated(): Values {
      Values(-pen, -noPen)
    }
  }

  datatype Evaluation = Evaluation(policy: Logits, q: Values)

  /** The search coefficients and the transcendental functions. */
  datatype Params = Params(c: real, plyPenalty: real, ln: real -> real, sqrt: real -> real,
                           exp: real -> real, pow: (real, real) -> real)

  function FreshNode(pos: Grid, prior: real): Node {
    Node(pos, 0, 0.0, 0.0, prior, ZEROS, {}, false)
  }

  function Parent(p: Path): Path
    requires p != []
  {
    p[..|p| - 1]
  }

  function Last(p: Path): nat
    requires p != []
  {
    p[|p| - 1]
  }

  // ----- terminal values ------------------------------------------------------------------------

  function Penalty(g: Grid, plyPenalty: real): real {
    plyPenalty * (Ply(g) as real)
  }

  function OutcomeValues(outcome: Terminal, penalty: real): Values {
    match outcome
    case PlayerWin => Values(1.0 - penalty, 1.0)
    case OpponentWin => Values(-1.0 + penalty, -1.0)
    case Draw => Values(0.0, 0.0)
  }

  /** `Position::terminal_values`, from the view of the player to move. */
  ghost function TerminalValues(g: Grid, plyPenalty: real): Option<Values> {
    match TerminalState(g)
    case None => None
    case Some(outcome) => Some(OutcomeValues(outcome, Penalty(g, plyPenalty)))
  }

  // ----- selection ------------------------------------------------------------------------------

  function QPenalty(n: Node): real {
    n.qPen / (n.visits as real + 1.0)
  }

  function QNoPenalty(n: Node): real {
    n.qNoPen / (n.visits as real + 1.0)
  }

  function Exploration(prm: Params, n: Node, parentLogVisits: real): real {
    prm.sqrt(parentLogVisits / (n.visits as real + 1.0)) * (n.prior + NODE_EPSILON)
  }

  function Uct(prm: Params, n: Node, parentLogVisits: real): real {
    -QPenalty(n) + prm.c * Exploration(prm, n, parentLogVisits)
  }

  /** The score of a column: of its node, or from the prior alone while it has none. */
  function Score(prm: Params, t: Tree, p: Path, col: nat): real
    requires p in t && col < COLS
  {
    var logVisits := prm.ln(t[p].visits as real);
    if p + [col] in t then Uct(prm, t[p + [col]], logVisits)
    else prm.c * (prm.sqrt(logVisits) * (t[p].priors[col] + NODE_EPSILON))
  }

  function Scores(prm: Params, t: Tree, p: Path): Policy
    requires p in t
  {
    seq(COLS, c requires 0 <= c < COLS => Score(prm, t, p, c))
  }

  /** The scan for the best score: on a tie the last column wins. */
  function BestColumn(scores: Policy, legal: set<nat>, n: nat): (best: Option<nat>)
    requires n <= COLS
    ensures best.None? <==> forall c :: 0 <= c < n ==> c !in legal
    ensures best.Some? ==>
      && best.value < n && best.value in legal
      && (forall c :: 0 <= c < n && c in legal ==> scores[c] <= scores[best.value])
      && (forall c :: best.value < c < n && c in legal ==> scores[c] < scores[best.value])
  {
    if n == 0 then None
    else
      var before := BestColumn(scores, legal, n - 1);
      if n - 1 !in legal then before
      else if before.None? || scores[n - 1] >= scores[before.value] then Some(n - 1)
      else before
  }

  /** No node is deeper than the board has cells. */
  predicate Shallow(t: Tree) {
    forall p :: p in t ==> |p| <= CELLS
  }

  /** `select_leaf` without the creation of the node: where the descent from `p` ends. */
  function Descend(prm: Params, t: Tree, p: Path): Path
    requires p in t && Shallow(t)
    decreases CELLS - |p|
  {
    if !t[p].expanded then p
    else match BestColumn(Scores(prm, t, p), t[p].legal, COLS)
      case None => p
      case Some(col) => if p + [col] in t then Descend(prm, t, p + [col]) else p + [col]
  }

  /** `materialize_child` at the end of a descent. */
  function Materialise(t: Tree, p: Path): Tree {
    if p in t || p == [] || Parent(p) !in t || Last(p) >= COLS || !Legal(t[Parent(p)].pos, Last(p)) then t
    else t[p := FreshNode(Drop(t[Parent(p)].pos, Last(p)), t[Parent(p)].priors[Last(p)])]
  }

  // ----- updates --------------------------------------------------------------------------------

  /** `expand_leaf`. */
  function ExpandNode(n: Node, policy: Policy): Node {
    var legal := LegalColumns(n.pos);
    n.(expanded := true, legal := n.legal + legal,
       priors := seq(COLS, c requires 0 <= c < COLS => if c in legal then policy[c] else n.priors[c]))
  }

  function Expand(t: Tree, leaf: Path, policy: Policy): Tree
    requires leaf in t
  {
    t[leaf := ExpandNode(t[leaf], policy)]
  }

  /** The value as seen `distance` plies above. */
  function Signed(v: Values, distance: nat): Values {
    if distance % 2 == 0 then v else v.Negated()
  }

  function Visited(n: Node, v: Values): Node {
    n.(visits := n.visits + 1, qPen := n.qPen + v.pen, qNoPen := n.qNoPen + v.noPen)
  }

  /** `backpropagate`: every ancestor of the leaf is visited with alternating sign. */
  function Backpropagate(t: Tree, leaf: Path, v: Values): (r: Tree)
    ensures r.Keys == t.Keys
  {
    map p | p in t :: if p <= leaf then Visited(t[p], Signed(v, |leaf| - |p|)) else t[p]
  }

  /** `Node::policy`: the visit fractions of the children, or uniform. */
  function ChildVisits(t: Tree, p: Path, col: nat): nat {
    if p + [col] in t then t[p + [col]].visits else 0
  }

  function VisitSum(t: Tree, p: Path): nat {
    ChildVisits(t, p, 0) + ChildVisits(t, p, 1) + ChildVisits(t, p, 2) + ChildVisits(t, p, 3)
    + ChildVisits(t, p, 4) + ChildVisits(t, p, 5) + ChildVisits(t, p, 6)
  }

  function VisitPolicy(t: Tree, p: Path): Policy
    requires p in t
  {
    if !t[p].expanded || VisitSum(t, p) == 0 then UNIFORM
    else seq(COLS, c requires 0 <= c < COLS => ChildVisits(t, p, c) as real / VisitSum(t, p) as real)
  }

  function ChildValues(t: Tree, p: Path, col: nat): Values {
    if p + [col] in t then Values(t[p + [col]].qPen, t[p + [col]].qNoPen) else Values(0.0, 0.0)
  }

  function PenSum(t: Tree, p: Path): real {
    ChildValues(t, p, 0).pen + ChildValues(t, p, 1).pen + ChildValues(t, p, 2).pen + ChildValues(t, p, 3).pen
    + ChildValues(t, p, 4).pen + ChildValues(t, p, 5).pen + ChildValues(t, p, 6).pen
  }

  function NoPenSum(t: Tree, p: Path): real {
    ChildValues(t, p, 0).noPen + ChildValues(t, p, 1).noPen + ChildValues(t, p, 2).noPen
    + ChildValues(t, p, 3).noPen + ChildValues(t, p, 4).noPen + ChildValues(t, p, 5).noPen
    + ChildValues(t, p, 6).noPen
  }

  // ----- the tree invariant ---------------------------------------------------------------------

  /** A node sits where its moves lead, below an expanded parent for which the move is legal. */
  ghost predicate Placed(start: Grid, root: Path, t: Tree, p: Path)
    requires p in t
  {
    && root <= p
    && Play(start, p) == Some(t[p].pos)
    && t[p].legal == (if t[p].expanded then LegalColumns(t[p].pos) else {})
    && (t[p].expanded ==> TerminalState(t[p].pos).None?)
    && (p != root ==> Linked(t, p))
  }

  predicate Linked(t: Tree, p: Path)
    requires p in t
  {
    p != [] && Parent(p) in t && t[Parent(p)].expanded && Last(p) in t[Parent(p)].legal
    && Last(p) < COLS && t[p].prior == t[Parent(p)].priors[Last(p)]
  }

  ghost predicate Shape(start: Grid, root: Path, t: Tree) {
    root in t && forall p {:trigger Placed(start, root, t, p)} :: p in t ==> Placed(start, root, t, p)
  }

  /** `visits` updates of a constant value. */
  function Repeated(visits: nat, v: real): real {
    if visits == 0 then 0.0 else Repeated(visits - 1, v) + v
  }

  /**
   The books of a node: a terminal node holds its terminal value once per visit; a node waiting for
   its evaluation holds nothing; an expanded node holds its own evaluation minus what its children
   hold, with one visit of its own.
   */
  predicate NodeBalanced(terminal: Option<Values>, own: Values, n: Node, visitSum: nat, penSum: real, noPenSum: real) {
    match terminal
    case Some(v) => n.qPen == Repeated(n.visits, v.pen) && n.qNoPen == Repeated(n.visits, v.noPen)
    case None =>
      if n.expanded then
        n.visits == 1 + visitSum && n.qPen == own.pen - penSum && n.qNoPen == own.noPen - noPenSum
      else
        n.visits == 0 && n.qPen == 0.0 && n.qNoPen == 0.0
  }

  ghost predicate Balanced(eval: Grid -> Evaluation, plyPenalty: real, t: Tree, p: Path)
    requires p in t
  {
    NodeBalanced(TerminalValues(t[p].pos, plyPenalty), eval(t[p].pos).q, t[p],
                 VisitSum(t, p), PenSum(t, p), NoPenSum(t, p))
  }

  ghost predicate Books(eval: Grid -> Evaluation, plyPenalty: real, t: Tree) {
    forall p {:trigger Balanced(eval, plyPenalty, t, p)} :: p in t ==> Balanced(eval, plyPenalty, t, p)
  }

  lemma PlaySnoc(start: Grid, p: Path, col: nat)
    requires Play(start, p).Some?
    ensures Play(start, p + [col])
         == if Legal(Play(start, p).value, col) then Some(Drop(Play(start, p).value, col)) else None
  {
    PlayAppend(start, p, [col]);
    var g := Play(start, p).value;
    if Legal(g, col) {
      assert [col][1..] == [];
      assert Play(Drop(g, col), []) == Some(Drop(g, col));
    }
  }

  lemma ShapeShallow(start: Grid, root: Path, t: Tree)
    requires Shape(start, root, t)
    ensures Shallow(t)
  {
    forall p | p in t ensures |p| <= CELLS {
      assert Placed(start, root, t, p);
      FullGrid(t[p].pos);
    }
  }

  /** Every address between the root and a node is a node, expanded if it is a proper ancestor. */
  lemma {:induction false} AncestorsPresent(start: Grid, root: Path, t: Tree, p: Path, q: Path)
    requires Shape(start, root, t) && p in t && root <= q <= p
    ensures q in t && (q != p ==> t[q].expanded)
    decreases |p|
  {
    if q != p {
      assert Placed(start, root, t, p) && p != root;
      assert root <= q <= Parent(p);
      AncestorsPresent(start, root, t, Parent(p), q);
    }
  }

  lemma ChildMeansExpanded(start: Grid, root: Path, t: Tree, p: Path, col: nat)
    requires Shape(start, root, t) && p in t && p + [col] in t
    ensures t[p].expanded && col < COLS && col in t[p].legal && t[p + [col]].prior == t[p].priors[col]
  {
    assert Placed(start, root, t, p + [col]) && Placed(start, root, t, p);
    assert Parent(p + [col]) == p;
  }

  /** An unexpanded node has no children. */
  lemma UnexpandedHasNoChild(start: Grid, root: Path, t: Tree, p: Path, col: nat)
    requires Shape(start, root, t) && p in t && !t[p].expanded
    ensures p + [col] !in t
  {
    if p + [col] in t {
      ChildMeansExpanded(start, root, t, p, col);
    }
  }

  /** The child of `p` on the way to the leaf. */
  lemma OnlyChildOnPath(p: Path, leaf: Path, col: nat)
    ensures p + [col] <= leaf <==> p <= leaf && |p| < |leaf| && leaf[|p|] == col
  {
    if p <= leaf && |p| < |leaf| && leaf[|p|] == col {
      assert leaf[..|p| + 1] == p + [col];
    }
  }

  // ----- selection preserves the invariant ------------------------------------------------------

  /** `leaf` is a missing child of an expanded node, for a legal move. */
  predicate CanGrow(root: Path, t: Tree, leaf: Path) {
    && leaf !in t && leaf != [] && leaf != root && root <= leaf
    && Parent(leaf) in t && t[Parent(leaf)].expanded
    && Last(leaf) in t[Parent(leaf)].legal && Last(leaf) < COLS
  }

  /** A descent ends below the root, at an unexpanded node or at a missing child of an expanded one. */
  lemma {:induction false} DescendEnds(prm: Params, start: Grid, root: Path, t: Tree, p: Path)
    requires Shape(start, root, t) && Shallow(t) && p in t
    ensures var leaf := Descend(prm, t, p);
            p <= leaf && root <= leaf && if leaf in t then !t[leaf].expanded else CanGrow(root, t, leaf)
    decreases CELLS - |p|
  {
    assert Placed(start, root, t, p);
    if t[p].expanded {
      var col := NonTerminalHasMove(t[p].pos);
      assert col in t[p].legal;
      var best := BestColumn(Scores(prm, t, p), t[p].legal, COLS);
      var q := p + [best.value];
      assert p <= q && Parent(q) == p && Last(q) == best.value;
      if q in t {
        DescendEnds(prm, start, root, t, q);
      } else {
        assert root <= q;
      }
    }
  }

  lemma PathSnoc(p: Path)
    requires p != []
    ensures p == Parent(p) + [Last(p)]
  {
  }

  lemma GrownPosition(start: Grid, root: Path, t: Tree, leaf: Path)
    requires Shape(start, root, t) && CanGrow(root, t, leaf)
    ensures Legal(t[Parent(leaf)].pos, Last(leaf))
    ensures Play(start, leaf) == Some(Drop(t[Parent(leaf)].pos, Last(leaf)))
  {
    assert Placed(start, root, t, Parent(leaf));
    PathSnoc(leaf);
    PlaySnoc(start, Parent(leaf), Last(leaf));
  }

  lemma GrownNode(start: Grid, root: Path, t: Tree, leaf: Path)
    requires Shape(start, root, t) && CanGrow(root, t, leaf)
    ensures Legal(t[Parent(leaf)].pos, Last(leaf))
    ensures Play(start, leaf) == Some(Drop(t[Parent(leaf)].pos, Last(leaf)))
    ensures Materialise(t, leaf)
         == t[leaf := FreshNode(Drop(t[Parent(leaf)].pos, Last(leaf)), t[Parent(leaf)].priors[Last(leaf)])]
  {
    GrownPosition(start, root, t, leaf);
  }

  lemma StillPlaced(start: Grid, root: Path, t: Tree, r: Tree, p: Path)
    requires p in t && Placed(start, root, t, p)
    requires forall q :: q in t ==> q in r && r[q] == t[q]
    ensures Placed(start, root, r, p)
  {
    if p != root {
      assert Linked(t, p);
    }
  }

  lemma MaterialiseShape(start: Grid, root: Path, t: Tree, leaf: Path)
    requires Shape(start, root, t) && CanGrow(root, t, leaf)
    ensures leaf in Materialise(t, leaf) && !Materialise(t, leaf)[leaf].expanded
    ensures Shape(start, root, Materialise(t, leaf))
  {
    GrownNode(start, root, t, leaf);
    var r := Materialise(t, leaf);
    assert Placed(start, root, r, leaf);
    forall p | p in r ensures Placed(start, root, r, p) {
      if p != leaf {
        StillPlaced(start, root, t, r, p);
      }
    }
  }

  lemma FreshBalanced(eval: Grid -> Evaluation, plyPenalty: real, t: Tree, p: Path, pos: Grid, prior: real)
    requires p in t && t[p] == FreshNode(pos, prior)
    ensures Balanced(eval, plyPenalty, t, p)
  {
  }

  lemma SameSums(t: Tree, r: Tree, p: Path)
    requires forall col: nat :: col < COLS ==>
      ChildVisits(r, p, col) == ChildVisits(t, p, col) && ChildValues(r, p, col) == ChildValues(t, p, col)
    ensures VisitSum(r, p) == VisitSum(t, p) && PenSum(r, p) == PenSum(t, p) && NoPenSum(r, p) == NoPenSum(t, p)
  {
  }

  lemma SameBalance(eval: Grid -> Evaluation, plyPenalty: real, t: Tree, r: Tree, p: Path)
    requires p in t && p in r && Balanced(eval, plyPenalty, t, p)
    requires r[p].pos == t[p].pos && r[p].visits == t[p].visits && r[p].qPen == t[p].qPen
    requires r[p].qNoPen == t[p].qNoPen && r[p].expanded == t[p].expanded
    requires VisitSum(r, p) == VisitSum(t, p) && PenSum(r, p) == PenSum(t, p) && NoPenSum(r, p) == NoPenSum(t, p)
    ensures Balanced(eval, plyPenalty, r, p)
  {
  }

  /** A node that has not been visited yet adds nothing to any sum. */
  lemma MaterialiseBooks(eval: Grid -> Evaluation, plyPenalty: real, start: Grid, root: Path, t: Tree, leaf: Path)
    requires Shape(start, root, t) && CanGrow(root, t, leaf) && Books(eval, plyPenalty, t)
    ensures Books(eval, plyPenalty, Materialise(t, leaf))
  {
    GrownNode(start, root, t, leaf);
    var r := Materialise(t, leaf);
    forall p | p in r ensures Balanced(eval, plyPenalty, r, p) {
      if p == leaf {
        FreshBalanced(eval, plyPenalty, r, p, r[p].pos, r[p].prior);
      } else {
        SameSums(t, r, p);
        SameBalance(eval, plyPenalty, t, r, p);
      }
    }
  }

  // ----- evaluation preserves the invariant -----------------------------------------------------

  /** Expanding a non-terminal leaf and visiting its ancestors. */
  function Evaluated(t: Tree, leaf: Path, policy: Policy, v: Values): Tree
    requires leaf in t
  {
    Backpropagate(Expand(t, leaf, policy), leaf, v)
  }

  lemma ExpandShape(start: Grid, root: Path, t: Tree, leaf: Path, policy: Policy)
    requires Shape(start, root, t) && leaf in t && !t[leaf].expanded && TerminalState(t[leaf].pos).None?
    ensures Shape(start, root, Expand(t, leaf, policy))
  {
    var r := Expand(t, leaf, policy);
    forall p | p in r ensures Placed(start, root, r, p) {
      assert Placed(start, root, t, p);
      if p != root {
        assert Linked(t, p);
        assert Parent(p) != leaf;
      }
    }
  }

  /** Two trees that differ only in visit counts and value sums. */
  predicate SameFrame(t: Tree, r: Tree) {
    && r.Keys == t.Keys
    && forall q :: q in t ==> q in r && r[q] == t[q].(visits := r[q].visits, qPen := r[q].qPen, qNoPen := r[q].qNoPen)
  }

  lemma SameFramePlaced(start: Grid, root: Path, t: Tree, r: Tree, p: Path)
    requires SameFrame(t, r) && p in t && Placed(start, root, t, p)
    ensures Placed(start, root, r, p)
  {
    if p != root {
      assert Linked(t, p);
    }
  }

  lemma BackpropagateShape(start: Grid, root: Path, t: Tree, leaf: Path, v: Values)
    requires Shape(start, root, t)
    ensures Shape(start, root, Backpropagate(t, leaf, v))
  {
    var r := Backpropagate(t, leaf, v);
    assert SameFrame(t, r);
    forall p | p in r ensures Placed(start, root, r, p) {
      SameFramePlaced(start, root, t, r, p);
    }
  }

  /** How the children's books change when one child of `p` is visited. */
  lemma BumpedSums(t: Tree, leaf: Path, v: Values, p: Path)
    requires p <= leaf && |p| < |leaf| && leaf[|p|] < COLS && p + [leaf[|p|]] in t
    ensures var r := Backpropagate(t, leaf, v);
            var w := Signed(v, |leaf| - |p| - 1);
            && VisitSum(r, p) == VisitSum(t, p) + 1
            && PenSum(r, p) == PenSum(t, p) + w.pen
            && NoPenSum(r, p) == NoPenSum(t, p) + w.noPen
  {
    var r := Backpropagate(t, leaf, v);
    var w := Signed(v, |leaf| - |p| - 1);
    forall col: nat | col < COLS
      ensures ChildVisits(r, p, col) == ChildVisits(t, p, col) + if col == leaf[|p|] then 1 else 0
      ensures ChildValues(r, p, col).pen == ChildValues(t, p, col).pen + if col == leaf[|p|] then w.pen else 0.0
      ensures ChildValues(r, p, col).noPen == ChildValues(t, p, col).noPen + if col == leaf[|p|] then w.noPen else 0.0
    {
      OnlyChildOnPath(p, leaf, col);
    }
  }

  lemma UntouchedSums(t: Tree, leaf: Path, v: Values, p: Path)
    requires !(p <= leaf && |p| < |leaf|)
    ensures var r := Backpropagate(t, leaf, v);
            VisitSum(r, p) == VisitSum(t, p) && PenSum(r, p) == PenSum(t, p) && NoPenSum(r, p) == NoPenSum(t, p)
  {
    var r := Backpropagate(t, leaf, v);
    forall col: nat | col < COLS
      ensures ChildVisits(r, p, col) == ChildVisits(t, p, col) && ChildValues(r, p, col) == ChildValues(t, p, col)
    {
      OnlyChildOnPath(p, leaf, col);
    }
    SameSums(t, r, p);
  }

  lemma SignedStep(v: Values, distance: nat)
    requires distance > 0
    ensures Signed(v, distance) == Signed(v, distance - 1).Negated()
  {
  }

  /** The address of a proper ancestor's child on the way to the leaf. */
  lemma ChildOnPath(start: Grid, root: Path, t: Tree, leaf: Path, p: Path)
    requires Shape(start, root, t) && leaf in t && p in t && p <= leaf && p != leaf
    ensures |p| < |leaf| && leaf[|p|] < COLS && p + [leaf[|p|]] in t && t[p].expanded
  {
    var q := p + [leaf[|p|]];
    OnlyChildOnPath(p, leaf, leaf[|p|]);
    assert Placed(start, root, t, p);
    AncestorsPresent(start, root, t, leaf, q);
    ChildMeansExpanded(start, root, t, p, leaf[|p|]);
  }

  lemma AncestorVisited(t: Tree, leaf: Path, v: Values, p: Path)
    requires p in t && p <= leaf && |p| < |leaf|
    ensures Backpropagate(t, leaf, v)[p] == Visited(t[p], Signed(v, |leaf| - |p| - 1).Negated())
  {
    SignedStep(v, |leaf| - |p|);
  }

  /** An ancestor's books stay balanced: it moves by the opposite of what its child on the path moves. */
  lemma AncestorBalance(eval: Grid -> Evaluation, plyPenalty: real, t: Tree, leaf: Path, v: Values, p: Path)
    requires p in t && p <= leaf && |p| < |leaf| && leaf[|p|] < COLS && p + [leaf[|p|]] in t
    requires t[p].expanded && TerminalValues(t[p].pos, plyPenalty) == None
    requires Balanced(eval, plyPenalty, t, p)
    ensures Balanced(eval, plyPenalty, Backpropagate(t, leaf, v), p)
  {
    var r := Backpropagate(t, leaf, v);
    var w := Signed(v, |leaf| - |p| - 1);
    BumpedSums(t, leaf, v, p);
    AncestorVisited(t, leaf, v, p);
    VisitedBalance(eval(t[p].pos).q, t[p], VisitSum(t, p), PenSum(t, p), NoPenSum(t, p), w);
    assert r[p].pos == t[p].pos;
    assert NodeBalanced(None, eval(t[p].pos).q, r[p], VisitSum(r, p), PenSum(r, p), NoPenSum(r, p));
  }

  lemma VisitedBalance(own: Values, n: Node, visitSum: nat, penSum: real, noPenSum: real, w: Values)
    requires n.expanded && NodeBalanced(None, own, n, visitSum, penSum, noPenSum)
    ensures NodeBalanced(None, own, Visited(n, w.Negated()), visitSum + 1, penSum + w.pen, noPenSum + w.noPen)
  {
  }

  lemma OtherBalance(eval: Grid -> Evaluation, plyPenalty: real, t: Tree, leaf: Path, v: Values, p: Path)
    requires p in t && !(p <= leaf) && Balanced(eval, plyPenalty, t, p)
    ensures Balanced(eval, plyPenalty, Backpropagate(t, leaf, v), p)
  {
    UntouchedSums(t, leaf, v, p);
    SameBalance(eval, plyPenalty, t, Backpropagate(t, leaf, v), p);
  }

  /** A visit to a node whose own books absorb it keeps all books balanced. */
  lemma BackpropagateBooks(eval: Grid -> Evaluation, plyPenalty: real, start: Grid, root: Path, t: Tree, leaf: Path,
                           v: Values)
    requires Shape(start, root, t) && leaf in t
    requires forall p :: p in t && p != leaf ==> Balanced(eval, plyPenalty, t, p)
    requires Balanced(eval, plyPenalty, Backpropagate(t, leaf, v), leaf)
    ensures Books(eval, plyPenalty, Backpropagate(t, leaf, v))
  {
    var r := Backpropagate(t, leaf, v);
    forall p | p in r ensures Balanced(eval, plyPenalty, r, p) {
      if p != leaf {
        if p <= leaf {
          ChildOnPath(start, root, t, leaf, p);
          assert Placed(start, root, t, p);
          AncestorBalance(eval, plyPenalty, t, leaf, v, p);
        } else {
          OtherBalance(eval, plyPenalty, t, leaf, v, p);
        }
      }
    }
  }

  /** A terminal leaf takes its terminal value once more. */
  lemma TerminalVisit(eval: Grid -> Evaluation, plyPenalty: real, start: Grid, root: Path, t: Tree, leaf: Path)
    requires Shape(start, root, t) && Books(eval, plyPenalty, t) && leaf in t
    requires TerminalState(t[leaf].pos).Some?
    ensures var r := Backpropagate(t, leaf, TerminalValues(t[leaf].pos, plyPenalty).value);
            Shape(start, root, r) && Books(eval, plyPenalty, r)
  {
    var v := TerminalValues(t[leaf].pos, plyPenalty).value;
    var r := Backpropagate(t, leaf, v);
    BackpropagateShape(start, root, t, leaf, v);
    TerminalBalance(eval, plyPenalty, t, r, leaf, v);
    BackpropagateBooks(eval, plyPenalty, start, root, t, leaf, v);
  }

  lemma TerminalBalance(eval: Grid -> Evaluation, plyPenalty: real, t: Tree, r: Tree, leaf: Path, v: Values)
    requires leaf in t && leaf in r && Balanced(eval, plyPenalty, t, leaf) && r[leaf] == Visited(t[leaf], v)
    requires TerminalValues(t[leaf].pos, plyPenalty) == Some(v)
    ensures Balanced(eval, plyPenalty, r, leaf)
  {
    RepeatedStep(t[leaf].visits, v.pen);
    RepeatedStep(t[leaf].visits, v.noPen);
  }

  lemma RepeatedStep(visits: nat, v: real)
    ensures Repeated(visits + 1, v) == Repeated(visits, v) + v
  {
  }

  lemma NoChildSums(start: Grid, root: Path, t: Tree, p: Path)
    requires Shape(start, root, t) && p in t && !t[p].expanded
    ensures VisitSum(t, p) == 0 && PenSum(t, p) == 0.0 && NoPenSum(t, p) == 0.0
  {
    forall col: nat | col < COLS ensures p + [col] !in t {
      UnexpandedHasNoChild(start, root, t, p, col);
    }
    assert p + [0] !in t && p + [1] !in t && p + [2] !in t && p + [3] !in t && p + [4] !in t && p + [5] !in t
        && p + [6] !in t;
  }

  /** Expanding changes no visit count and no value. */
  lemma ExpandSums(t: Tree, leaf: Path, policy: Policy, p: Path)
    requires leaf in t
    ensures var r := Expand(t, leaf, policy);
            VisitSum(r, p) == VisitSum(t, p) && PenSum(r, p) == PenSum(t, p) && NoPenSum(r, p) == NoPenSum(t, p)
  {
    SameSums(t, Expand(t, leaf, policy), p);
  }

  /** A new node's first visit records its own evaluation. */
  lemma FirstVisit(eval: Grid -> Evaluation, plyPenalty: real, start: Grid, root: Path, t: Tree, leaf: Path,
                   policy: Policy, v: Values)
    requires Shape(start, root, t) && Books(eval, plyPenalty, t) && leaf in t && !t[leaf].expanded
    requires TerminalState(t[leaf].pos).None? && v == eval(t[leaf].pos).q
    ensures Shape(start, root, Evaluated(t, leaf, policy, v))
    ensures Books(eval, plyPenalty, Evaluated(t, leaf, policy, v))
  {
    var r := Expand(t, leaf, policy);
    ExpandShape(start, root, t, leaf, policy);
    BackpropagateShape(start, root, r, leaf, v);
    ExpandBooks(eval, plyPenalty, t, leaf, policy);
    FirstBalance(eval, plyPenalty, start, root, t, leaf, policy, v);
    BackpropagateBooks(eval, plyPenalty, start, root, r, leaf, v);
  }

  lemma ExpandBooks(eval: Grid -> Evaluation, plyPenalty: real, t: Tree, leaf: Path, policy: Policy)
    requires leaf in t && Books(eval, plyPenalty, t)
    ensures var r := Expand(t, leaf, policy);
            forall p :: p in r && p != leaf ==> Balanced(eval, plyPenalty, r, p)
  {
    var r := Expand(t, leaf, policy);
    forall p | p in r && p != leaf ensures Balanced(eval, plyPenalty, r, p) {
      ExpandSums(t, leaf, policy, p);
      SameBalance(eval, plyPenalty, t, r, p);
    }
  }

  lemma FirstBalance(eval: Grid -> Evaluation, plyPenalty: real, start: Grid, root: Path, t: Tree, leaf: Path,
                     policy: Policy, v: Values)
    requires Shape(start, root, t) && leaf in t && !t[leaf].expanded && Balanced(eval, plyPenalty, t, leaf)
    requires TerminalState(t[leaf].pos).None? && v == eval(t[leaf].pos).q
    ensures Balanced(eval, plyPenalty, Evaluated(t, leaf, policy, v), leaf)
  {
    NoChildSums(start, root, t, leaf);
    ExpandSums(t, leaf, policy, leaf);
    UntouchedSums(Expand(t, leaf, policy), leaf, v, leaf);
    var n := Evaluated(t, leaf, policy, v)[leaf];
    assert n == Visited(ExpandNode(t[leaf], policy), v);
    assert NodeBalanced(None, v, n, 0, 0.0, 0.0);
  }

  // ----- promotion, noise and undo --------------------------------------------------------------

  /** The subtree below `root`: what is left when a child becomes the root. */
  function Subtree(t: Tree, root: Path): Tree {
    map p | p in t && root <= p :: t[p]
  }

  lemma SubtreeShape(start: Grid, root: Path, t: Tree, down: Path)
    requires Shape(start, root, t) && down in t
    ensures Shape(start, down, Subtree(t, down))
  {
    var r := Subtree(t, down);
    forall p | p in r ensures Placed(start, down, r, p) {
      assert Placed(start, root, t, p);
      assert Placed(start, root, t, down);
      if p != down {
        assert |p| > |down|;
        assert Linked(t, p);
        assert down <= Parent(p);
      }
    }
  }

  lemma SubtreeBooks(eval: Grid -> Evaluation, plyPenalty: real, t: Tree, down: Path)
    requires Books(eval, plyPenalty, t)
    ensures Books(eval, plyPenalty, Subtree(t, down))
  {
    var r := Subtree(t, down);
    forall p | p in r ensures Balanced(eval, plyPenalty, r, p) {
      assert forall col: nat :: down <= p + [col];
      SameSums(t, r, p);
      SameBalance(eval, plyPenalty, t, r, p);
    }
  }

  /** New priors for the root, copied into the children that exist. */
  function Repriored(t: Tree, root: Path, priors: Policy): Tree
    requires root in t
  {
    map p | p in t ::
      if p == root then t[p].(priors := priors)
      else if p != [] && Parent(p) == root && Last(p) < COLS then t[p].(prior := priors[Last(p)])
      else t[p]
  }

  lemma ReprioredShape(start: Grid, root: Path, t: Tree, priors: Policy)
    requires Shape(start, root, t)
    ensures Shape(start, root, Repriored(t, root, priors))
  {
    var r := Repriored(t, root, priors);
    forall p | p in r ensures Placed(start, root, r, p) {
      assert Placed(start, root, t, p);
      if p != root {
        assert Linked(t, p);
      }
    }
  }

  lemma ReprioredBooks(eval: Grid -> Evaluation, plyPenalty: real, t: Tree, root: Path, priors: Policy)
    requires root in t && Books(eval, plyPenalty, t)
    ensures Books(eval, plyPenalty, Repriored(t, root, priors))
  {
    var r := Repriored(t, root, priors);
    forall p | p in r ensures Balanced(eval, plyPenalty, r, p) {
      SameSums(t, r, p);
      SameBalance(eval, plyPenalty, t, r, p);
    }
  }

  lemma SingleNode(eval: Grid -> Evaluation, plyPenalty: real, start: Grid, root: Path, pos: Grid, prior: real)
    requires Play(start, root) == Some(pos)
    ensures Shape(start, root, map[root := FreshNode(pos, prior)])
    ensures Books(eval, plyPenalty, map[root := FreshNode(pos, prior)])
  {
    FreshBalanced(eval, plyPenalty, map[root := FreshNode(pos, prior)], root, pos, prior);
  }

  // ----- consequences ---------------------------------------------------------------------------

  predicate InUnit(x: real) {
    -1.0 <= x <= 1.0
  }

  lemma {:induction false} RepeatedIsProduct(visits: nat, v: real)
    ensures Repeated(visits, v) == visits as real * v
  {
    if visits > 0 {
      RepeatedIsProduct(visits - 1, v);
      assert (visits - 1) as real * v + v == visits as real * v;
    }
  }

  /** A ply penalty of at most 1/21 keeps every terminal value in [-1, 1]. */
  lemma TerminalInUnit(g: Grid, plyPenalty: real)
    requires 0.0 <= 42.0 * plyPenalty <= 2.0 && TerminalValues(g, plyPenalty).Some?
    ensures InUnit(TerminalValues(g, plyPenalty).value.pen) && InUnit(TerminalValues(g, plyPenalty).value.noPen)
  {
    PenaltyInRange(g, plyPenalty);
    OutcomeInUnit(TerminalState(g).value, Penalty(g, plyPenalty));
  }

  lemma PenaltyInRange(g: Grid, plyPenalty: real)
    requires 0.0 <= 42.0 * plyPenalty <= 2.0
    ensures 0.0 <= Penalty(g, plyPenalty) <= 2.0
  {
    FullGrid(g);
    PenaltyRange(plyPenalty, Ply(g));
  }

  lemma OutcomeInUnit(outcome: Terminal, penalty: real)
    requires 0.0 <= penalty <= 2.0
    ensures InUnit(OutcomeValues(outcome, penalty).pen) && InUnit(OutcomeValues(outcome, penalty).noPen)
  {
  }

  lemma PenaltyRange(plyPenalty: real, ply: nat)
    requires 0.0 <= 42.0 * plyPenalty <= 2.0 && ply <= 42
    ensures 0.0 <= plyPenalty * (ply as real) <= 2.0
  {
    assert plyPenalty * (42.0 - ply as real) >= 0.0;
  }

  lemma {:induction false} RepeatedBound(visits: nat, v: real)
    requires InUnit(v)
    ensures -(visits as real) <= Repeated(visits, v) <= visits as real
  {
    if visits > 0 {
      RepeatedBound(visits - 1, v);
    }
  }

  lemma SumOfCounts(a: nat, b: nat, c: nat, d: nat, e: nat, f: nat, g: nat)
    ensures (a + b + c + d + e + f + g) as real
         == a as real + b as real + c as real + d as real + e as real + f as real + g as real
  {
  }

  /** The reported policy orders the columns by their visits. */
  lemma VisitShareOrder(t: Tree, p: Path, i: nat, j: nat)
    requires p in t && t[p].expanded && VisitSum(t, p) > 0 && i < COLS && j < COLS
    ensures VisitPolicy(t, p)[i] < VisitPolicy(t, p)[j] <==> ChildVisits(t, p, i) < ChildVisits(t, p, j)
    ensures VisitPolicy(t, p)[i] == VisitPolicy(t, p)[j] <==> ChildVisits(t, p, i) == ChildVisits(t, p, j)
  {
    var x, y := ChildVisits(t, p, i) as real, ChildVisits(t, p, j) as real;
    if x < y {
      ShareOrder(x, y, VisitSum(t, p) as real);
    } else if y < x {
      ShareOrder(y, x, VisitSum(t, p) as real);
    }
  }

  /** It is a distribution. */
  lemma VisitSharesTotal(t: Tree, p: Path)
    requires p in t && t[p].expanded && VisitSum(t, p) > 0
    ensures Total(VisitPolicy(t, p)) == 1.0
  {
    var a, b, c, d := ChildVisits(t, p, 0), ChildVisits(t, p, 1), ChildVisits(t, p, 2), ChildVisits(t, p, 3);
    var e, f, g := ChildVisits(t, p, 4), ChildVisits(t, p, 5), ChildVisits(t, p, 6);
    var sum := VisitSum(t, p) as real;
    SumOfCounts(a, b, c, d, e, f, g);
    SharesTotal(a as real, b as real, c as real, d as real, e as real, f as real, g as real, sum);
    var q := VisitPolicy(t, p);
    assert q[0] == a as real / sum && q[1] == b as real / sum && q[2] == c as real / sum && q[3] == d as real / sum;
    assert q[4] == e as real / sum && q[5] == f as real / sum && q[6] == g as real / sum;
  }

  predicate NodeBounded(n: Node) {
    && -(n.visits as real) <= n.qPen <= n.visits as real
    && -(n.visits as real) <= n.qNoPen <= n.visits as real
  }

  /** A value sum never exceeds the visit count while evaluations and terminal values lie in [-1, 1]. */
  lemma {:induction false} ValuesBounded(eval: Grid -> Evaluation, plyPenalty: real, start: Grid, root: Path, t: Tree,
                                         p: Path)
    requires Shape(start, root, t) && Shallow(t) && Books(eval, plyPenalty, t) && p in t
    requires forall g :: InUnit(eval(g).q.pen) && InUnit(eval(g).q.noPen)
    requires forall g: Grid :: TerminalValues(g, plyPenalty).Some? ==>
      InUnit(TerminalValues(g, plyPenalty).value.pen) && InUnit(TerminalValues(g, plyPenalty).value.noPen)
    ensures NodeBounded(t[p])
    decreases CELLS - |p|
  {
    assert Balanced(eval, plyPenalty, t, p);
    match TerminalValues(t[p].pos, plyPenalty) {
      case Some(v) =>
        RepeatedBound(t[p].visits, v.pen);
        RepeatedBound(t[p].visits, v.noPen);
      case None =>
        forall col: nat | col < COLS
          ensures ChildBounded(t, p, col)
        {
          if p + [col] in t {
            ValuesBounded(eval, plyPenalty, start, root, t, p + [col]);
          }
        }
        SumsBounded(t, p);
        assert InUnit(eval(t[p].pos).q.pen) && InUnit(eval(t[p].pos).q.noPen);
    }
  }

  predicate ChildBounded(t: Tree, p: Path, col: nat) {
    var v := ChildValues(t, p, col);
    && -(ChildVisits(t, p, col) as real) <= v.pen <= ChildVisits(t, p, col) as real
    && -(ChildVisits(t, p, col) as real) <= v.noPen <= ChildVisits(t, p, col) as real
  }

  lemma SumsBounded(t: Tree, p: Path)
    requires forall col: nat :: col < COLS ==> ChildBounded(t, p, col)
    ensures -(VisitSum(t, p) as real) <= PenSum(t, p) <= VisitSum(t, p) as real
    ensures -(VisitSum(t, p) as real) <= NoPenSum(t, p) <= VisitSum(t, p) as real
  {
    assert ChildBounded(t, p, 0) && ChildBounded(t, p, 1) && ChildBounded(t, p, 2) && ChildBounded(t, p, 3);
    assert ChildBounded(t, p, 4) && ChildBounded(t, p, 5) && ChildBounded(t, p, 6);
  }
}
