/**
 One single-owner game of `cpp/src/mcts.cpp` as a state with its operations: evaluation of the
 selected leaf, root noise, moves, undo and reset. The object that performs them in place is in
 MctsGame.dfy. `None` stands for an exception.
 */
module Games {
  import opened Board
  import opened Policies
  import opened SearchTree
  import Rng

  datatype Recorded = Recorded(pos: Grid, policy: Policy, move: nat)

  datatype Game = Game(start: Grid, root: Path, nodes: Tree, leaf: Path, moves: seq<Recorded>)

  /** Root noise: its coefficients and the normalised draw over the legal columns. */
  datatype Noise = Noise(alpha: real, epsilon: real, draw: Policy)

  function NewGame(start: Grid): Game {
    Game(start, [], map[[] := FreshNode(start, 1.0)], [], [])
  }

  /** The part of the invariant the operations need to be defined. */
  predicate Sound(g: Game) {
    g.root in g.nodes && g.leaf in g.nodes && Shallow(g.nodes)
  }

  /** `select_leaf` from the root. */
  function Reselected(prm: Params, start: Grid, root: Path, t: Tree, moves: seq<Recorded>): Game
    requires root in t && Shallow(t)
  {
    var leaf := Descend(prm, t, root);
    Game(start, root, Materialise(t, leaf), leaf, moves)
  }

  function Mixed(e: real, a: real, b: real): real {
    (1.0 - e) * a + e * b
  }

  /** `mix_dirichlet_noise`. */
  function MixNoise(p: Policy, legal: set<nat>, noise: Noise): Option<Policy> {
    if noise.alpha <= 0.0 || noise.epsilon <= 0.0 || noise.epsilon > 1.0 then None
    else Some(seq(COLS, c requires 0 <= c < COLS =>
      if c in legal then Mixed(noise.epsilon, p[c], noise.draw[c]) else p[c]))
  }

  function LeafPosition(g: Game): Grid
    requires Sound(g)
  {
    g.nodes[g.leaf].pos
  }

  function RootPosition(g: Game): Grid
    requires Sound(g)
  {
    g.nodes[g.root].pos
  }

  function RootVisits(g: Game): nat
    requires Sound(g)
  {
    g.nodes[g.root].visits
  }

  function RootPolicy(g: Game): Policy
    requires Sound(g)
  {
    VisitPolicy(g.nodes, g.root)
  }

  /** The priors an evaluation gives a leaf. */
  function LeafPriors(prm: Params, pos: Grid, atRoot: bool, logits: Logits, noise: Noise): Option<Policy> {
    match Softmax(prm.exp, MaskLogits(logits, LegalColumns(pos)))
    case None => None
    case Some(policy) =>
      if atRoot && noise.epsilon > 0.0 then MixNoise(policy, LegalColumns(pos), noise) else Some(policy)
  }

  /** What an evaluation does to the leaf: another visit to a terminal node, or its expansion. */
  datatype Update = Revisit(v: Values) | Growth(policy: Policy, q: Values)

  ghost function LeafUpdate(prm: Params, pos: Grid, atRoot: bool, e: Evaluation, noise: Noise): Option<Update> {
    match TerminalValues(pos, prm.plyPenalty)
    case Some(v) => Some(Revisit(v))
    case None =>
      match LeafPriors(prm, pos, atRoot, e.policy, noise)
      case None => None
      case Some(policy) => Some(Growth(policy, e.q))
  }

  /** The tree after the update, before the next selection. */
  function Updated(t: Tree, leaf: Path, update: Update): Tree
    requires leaf in t
  {
    match update
    case Revisit(v) => Backpropagate(t, leaf, v)
    case Growth(policy, q) => Evaluated(t, leaf, policy, q)
  }

  /** `receive_evaluation`. A terminal leaf ignores the evaluation. */
  ghost function Receive(prm: Params, g: Game, e: Evaluation, noise: Noise): Option<Game>
    requires Sound(g)
  {
    match LeafUpdate(prm, LeafPosition(g), g.leaf == g.root, e, noise)
    case None => None
    case Some(update) => Some(Reselected(prm, g.start, g.root, Updated(g.nodes, g.leaf, update), g.moves))
  }

  /** `add_root_dirichlet_noise`. */
  ghost function AddRootNoise(prm: Params, g: Game, noise: Noise): Option<Game>
    requires Sound(g)
  {
    var n := g.nodes[g.root];
    if noise.epsilon == 0.0 || !n.expanded || TerminalState(n.pos).Some? then Some(g)
    else match MixNoise(n.priors, LegalColumns(n.pos), noise)
      case None => None
      case Some(priors) => Some(Reselected(prm, g.start, g.root, Repriored(g.nodes, g.root, priors), g.moves))
  }

  /** `make_move`: record, create the child if it is missing, promote it, select again. */
  function MakeMove(prm: Params, g: Game, move: nat): Option<Game>
    requires Sound(g)
  {
    var n := g.nodes[g.root];
    if move >= COLS || !n.expanded || move !in n.legal then None
    else
      var down := g.root + [move];
      var below := Subtree(Materialise(g.nodes, down), down);
      if down !in below || !Shallow(below) then None
      else Some(Reselected(prm, g.start, down, below, g.moves + [Recorded(n.pos, RootPolicy(g), move)]))
  }

  /** The column `make_random_move` draws: mask, temper, sample. */
  function RandomColumn(prm: Params, policy: Policy, pos: Grid, temperature: real, uniform: Rng.Uniform): Option<nat>
  {
    match ApplyTemperature(prm.pow, MaskPolicy(policy, LegalColumns(pos)), temperature)
    case None => None
    case Some(tempered) => Rng.Sampled(tempered, uniform)
  }

  /** `make_random_move` for a uniform draw. */
  function MakeRandomMove(prm: Params, g: Game, temperature: real, uniform: Rng.Uniform): Option<Game>
    requires Sound(g)
  {
    match RandomColumn(prm, RootPolicy(g), RootPosition(g), temperature, uniform)
    case None => None
    case Some(move) => MakeMove(prm, g, move)
  }

  /** `undo`: a fresh root at the previous position; nothing without a history. */
  function Undo(g: Game): Game {
    if g.moves == [] || g.root == [] then g
    else
      var up := Parent(g.root);
      Game(g.start, up, map[up := FreshNode(g.moves[|g.moves| - 1].pos, 1.0)], up, g.moves[..|g.moves| - 1])
  }

  /** `reset`: undo while there is a history. */
  function Reset(g: Game): Game
    decreases |g.moves|
  {
    if g.moves == [] || g.root == [] then g else Reset(Undo(g))
  }

  // ----- the invariant --------------------------------------------------------------------------

  /** The recorded moves are the root's address, each with the non-terminal position it was played in. */
  ghost predicate History(g: Game) {
    && |g.moves| == |g.root|
    && forall i :: 0 <= i < |g.moves| ==>
         && g.moves[i].move == g.root[i]
         && Play(g.start, g.root[..i]) == Some(g.moves[i].pos)
         && TerminalState(g.moves[i].pos).None?
  }

  ghost predicate Inv(eval: Grid -> Evaluation, plyPenalty: real, g: Game) {
    && Shape(g.start, g.root, g.nodes)
    && Books(eval, plyPenalty, g.nodes)
    && g.leaf in g.nodes && !g.nodes[g.leaf].expanded
    && History(g)
  }

  lemma InvSound(eval: Grid -> Evaluation, plyPenalty: real, g: Game)
    requires Inv(eval, plyPenalty, g)
    ensures Sound(g)
  {
    ShapeShallow(g.start, g.root, g.nodes);
  }

  /** The root position is the replay of the recorded moves. */
  lemma BoardIsReplay(eval: Grid -> Evaluation, plyPenalty: real, g: Game)
    requires Inv(eval, plyPenalty, g)
    ensures Play(g.start, g.root) == Some(g.nodes[g.root].pos)
    ensures g.root == seq(|g.moves|, i requires 0 <= i < |g.moves| => g.moves[i].move)
  {
    assert Placed(g.start, g.root, g.nodes, g.root);
  }

  lemma NewGameInv(eval: Grid -> Evaluation, plyPenalty: real, start: Grid)
    ensures Inv(eval, plyPenalty, NewGame(start))
  {
    SingleNode(eval, plyPenalty, start, [], start, 1.0);
  }

  /** Selecting again keeps the tree invariant and ends at an unexpanded leaf. */
  lemma ReselectedTree(prm: Params, eval: Grid -> Evaluation, start: Grid, root: Path, t: Tree, moves: seq<Recorded>)
    requires Shape(start, root, t) && Shallow(t) && Books(eval, prm.plyPenalty, t)
    ensures var g := Reselected(prm, start, root, t, moves);
            && Shape(start, root, g.nodes) && Books(eval, prm.plyPenalty, g.nodes)
            && g.leaf in g.nodes && !g.nodes[g.leaf].expanded
            && (forall p :: p in t ==> p in g.nodes && g.nodes[p] == t[p])
  {
    var leaf := Descend(prm, t, root);
    DescendEnds(prm, start, root, t, root);
    if leaf !in t {
      MaterialiseShape(start, root, t, leaf);
      MaterialiseBooks(eval, prm.plyPenalty, start, root, t, leaf);
    }
  }

  lemma UpdatedTree(prm: Params, eval: Grid -> Evaluation, g: Game, noise: Noise, update: Update)
    requires Inv(eval, prm.plyPenalty, g) && Sound(g)
    requires LeafUpdate(prm, LeafPosition(g), g.leaf == g.root, eval(LeafPosition(g)), noise) == Some(update)
    ensures Shape(g.start, g.root, Updated(g.nodes, g.leaf, update))
    ensures Books(eval, prm.plyPenalty, Updated(g.nodes, g.leaf, update))
  {
    match update {
      case Revisit(v) => TerminalVisit(eval, prm.plyPenalty, g.start, g.root, g.nodes, g.leaf);
      case Growth(policy, q) => FirstVisit(eval, prm.plyPenalty, g.start, g.root, g.nodes, g.leaf, policy, q);
    }
  }

  /** An evaluation that is the evaluator's own for the leaf keeps every invariant. */
  lemma ReceiveInv(prm: Params, eval: Grid -> Evaluation, g: Game, noise: Noise)
    requires Inv(eval, prm.plyPenalty, g) && Sound(g)
    requires Receive(prm, g, eval(LeafPosition(g)), noise).Some?
    ensures Inv(eval, prm.plyPenalty, Receive(prm, g, eval(LeafPosition(g)), noise).value)
  {
    var update := LeafUpdate(prm, LeafPosition(g), g.leaf == g.root, eval(LeafPosition(g)), noise).value;
    UpdatedTree(prm, eval, g, noise, update);
    ReselectedTree(prm, eval, g.start, g.root, Updated(g.nodes, g.leaf, update), g.moves);
  }

  /** Total weight on the given columns. */
  function Within(p: Policy, legal: set<nat>): real {
    Total(MaskPolicy(p, legal))
  }

  lemma MixSum(e: real, a: real, b: real, c: real, d: real)
    ensures ((1.0 - e) * a + e * b) + ((1.0 - e) * c + e * d) == (1.0 - e) * (a + c) + e * (b + d)
  {
  }

  lemma MixedSum(e: real, a: real, b: real, c: real, d: real)
    ensures Mixed(e, a, b) + Mixed(e, c, d) == Mixed(e, a + c, b + d)
  {
    MixSum(e, a, b, c, d);
  }

  lemma MixedOne(e: real)
    ensures Mixed(e, 1.0, 1.0) == 1.0
  {
  }

  lemma MixedTotal(e: real, a: Policy, b: Policy, m: Policy)
    requires forall c :: 0 <= c < COLS ==> m[c] == Mixed(e, a[c], b[c])
    ensures Total(m) == Mixed(e, Total(a), Total(b))
  {
    MixedSum(e, a[0], b[0], a[1], b[1]);
    MixedSum(e, a[0] + a[1], b[0] + b[1], a[2], b[2]);
    MixedSum(e, a[0] + a[1] + a[2], b[0] + b[1] + b[2], a[3], b[3]);
    MixedSum(e, a[0] + a[1] + a[2] + a[3], b[0] + b[1] + b[2] + b[3], a[4], b[4]);
    MixedSum(e, a[0] + a[1] + a[2] + a[3] + a[4], b[0] + b[1] + b[2] + b[3] + b[4], a[5], b[5]);
    MixedSum(e, a[0] + a[1] + a[2] + a[3] + a[4] + a[5], b[0] + b[1] + b[2] + b[3] + b[4] + b[5], a[6], b[6]);
  }

  /** Mixing normalised noise into a normalised prior keeps it normalised over the legal columns. */
  lemma MixKeepsTotal(p: Policy, legal: set<nat>, noise: Noise)
    requires Within(p, legal) == 1.0 && Within(noise.draw, legal) == 1.0 && MixNoise(p, legal, noise).Some?
    ensures Within(MixNoise(p, legal, noise).value, legal) == 1.0
  {
    var e := noise.epsilon;
    var m := MaskPolicy(MixNoise(p, legal, noise).value, legal);
    forall c | 0 <= c < COLS ensures m[c] == Mixed(e, MaskPolicy(p, legal)[c], MaskPolicy(noise.draw, legal)[c]) {
    }
    MixedTotal(e, MaskPolicy(p, legal), MaskPolicy(noise.draw, legal), m);
    MixedOne(e);
  }

  /**
   An evaluated leaf below the root keeps the softmax of its masked logits as its children's priors, a
   distribution over its legal columns.
   */
  lemma LeafKeepsPriors(prm: Params, eval: Grid -> Evaluation, g: Game, noise: Noise)
    requires Inv(eval, prm.plyPenalty, g) && Sound(g) && g.leaf != g.root && TerminalState(LeafPosition(g)).None?
    requires IsExp(prm.exp) && Receive(prm, g, eval(LeafPosition(g)), noise).Some?
    ensures var h := Receive(prm, g, eval(LeafPosition(g)), noise).value;
            var policy := Softmax(prm.exp, MaskLogits(eval(LeafPosition(g)).policy, LegalColumns(LeafPosition(g))));
            && policy.Some? && g.leaf in h.nodes && h.nodes[g.leaf].expanded
            && forall c: nat :: c < COLS && Legal(LeafPosition(g), c) ==> h.nodes[g.leaf].priors[c] == policy.value[c]
  {
    var e := eval(LeafPosition(g));
    var update := LeafUpdate(prm, LeafPosition(g), false, e, noise).value;
    UpdatedTree(prm, eval, g, noise, update);
    var t := Updated(g.nodes, g.leaf, update);
    ShapeShallow(g.start, g.root, t);
    ReselectedTree(prm, eval, g.start, g.root, t, g.moves);
    assert t[g.leaf].priors == ExpandNode(g.nodes[g.leaf], update.policy).priors;
  }

  lemma AddRootNoiseInv(prm: Params, eval: Grid -> Evaluation, g: Game, noise: Noise)
    requires Inv(eval, prm.plyPenalty, g) && Sound(g) && AddRootNoise(prm, g, noise).Some?
    ensures Inv(eval, prm.plyPenalty, AddRootNoise(prm, g, noise).value)
  {
    var n := g.nodes[g.root];
    if noise.epsilon != 0.0 && n.expanded && TerminalState(n.pos).None? {
      var priors := MixNoise(n.priors, LegalColumns(n.pos), noise).value;
      var t := Repriored(g.nodes, g.root, priors);
      ReprioredShape(g.start, g.root, g.nodes, priors);
      ReprioredBooks(eval, prm.plyPenalty, g.nodes, g.root, priors);
      ReselectedTree(prm, eval, g.start, g.root, t, g.moves);
    }
  }

  /** The tree after `make_move` has created the child. */
  lemma PromotedTree(eval: Grid -> Evaluation, plyPenalty: real, g: Game, move: nat)
    requires Inv(eval, plyPenalty, g) && Sound(g)
    requires move < COLS && g.nodes[g.root].expanded && move in g.nodes[g.root].legal
    ensures var down := g.root + [move];
            var below := Subtree(Materialise(g.nodes, down), down);
            && Shape(g.start, down, below) && Shallow(below) && Books(eval, plyPenalty, below)
            && below[down].visits == ChildVisits(g.nodes, g.root, move)
  {
    var down := g.root + [move];
    var t := Materialise(g.nodes, down);
    assert Parent(down) == g.root && Last(down) == move;
    if down !in g.nodes {
      assert g.root <= down;
      assert CanGrow(g.root, g.nodes, down);
      MaterialiseShape(g.start, g.root, g.nodes, down);
      MaterialiseBooks(eval, plyPenalty, g.start, g.root, g.nodes, down);
      GrownNode(g.start, g.root, g.nodes, down);
    }
    SubtreeShape(g.start, g.root, t, down);
    SubtreeBooks(eval, plyPenalty, t, down);
    ShapeShallow(g.start, down, Subtree(t, down));
  }

  /** A move succeeds exactly when the root is expanded and the move legal there. */
  lemma MakeMoveInv(prm: Params, eval: Grid -> Evaluation, g: Game, move: nat)
    requires Inv(eval, prm.plyPenalty, g) && Sound(g)
    ensures MakeMove(prm, g, move).Some? <==> g.nodes[g.root].expanded && Legal(RootPosition(g), move)
    ensures MakeMove(prm, g, move).Some? ==>
      var h := MakeMove(prm, g, move).value;
      && Inv(eval, prm.plyPenalty, h)
      && Sound(h) && h.root == g.root + [move] && h.start == g.start
      && RootPosition(h) == Drop(RootPosition(g), move)
      && RootVisits(h) == ChildVisits(g.nodes, g.root, move)
  {
    assert Placed(g.start, g.root, g.nodes, g.root);
    if move < COLS && g.nodes[g.root].expanded && move in g.nodes[g.root].legal {
      var down := g.root + [move];
      var below := Subtree(Materialise(g.nodes, down), down);
      PromotedTree(eval, prm.plyPenalty, g, move);
      var moves := g.moves + [Recorded(g.nodes[g.root].pos, RootPolicy(g), move)];
      var h := Reselected(prm, g.start, down, below, moves);
      ReselectedTree(prm, eval, g.start, down, below, moves);
      PlaySnoc(g.start, g.root, move);
      assert Placed(g.start, down, h.nodes, down);
      ExtendHistory(g, h, move);
      InvSound(eval, prm.plyPenalty, h);
    }
  }

  lemma ExtendHistory(g: Game, h: Game, move: nat)
    requires History(g) && g.root in g.nodes && Play(g.start, g.root) == Some(g.nodes[g.root].pos)
    requires h.start == g.start && h.root == g.root + [move]
    requires |h.moves| == |g.moves| + 1 && h.moves[..|g.moves|] == g.moves
    requires h.moves[|g.moves|].pos == g.nodes[g.root].pos && h.moves[|g.moves|].move == move
    requires TerminalState(g.nodes[g.root].pos).None?
    ensures History(h)
  {
    forall i | 0 <= i < |h.moves|
      ensures h.moves[i].move == h.root[i] && Play(h.start, h.root[..i]) == Some(h.moves[i].pos)
      ensures TerminalState(h.moves[i].pos).None?
    {
      if i < |g.moves| {
        assert h.moves[i] == h.moves[..|g.moves|][i] == g.moves[i];
        assert h.root[..i] == g.root[..i];
      } else {
        assert h.root[..i] == g.root;
      }
    }
  }

  lemma UndoHistory(g: Game)
    requires History(g) && g.moves != []
    ensures History(Undo(g)) && Undo(g).root == Parent(g.root) && Undo(g).start == g.start
  {
    var h := Undo(g);
    forall i | 0 <= i < |h.moves|
      ensures h.moves[i].move == h.root[i] && Play(h.start, h.root[..i]) == Some(h.moves[i].pos)
      ensures TerminalState(h.moves[i].pos).None?
    {
      assert h.moves[i] == g.moves[i];
      assert h.root[..i] == g.root[..i];
    }
  }

  /** Undo goes back to the position the last move was played in; the invariant survives. */
  lemma UndoInv(eval: Grid -> Evaluation, plyPenalty: real, g: Game)
    requires Inv(eval, plyPenalty, g)
    ensures Inv(eval, plyPenalty, Undo(g))
    ensures g.moves != [] ==> Undo(g).root == Parent(g.root) && Undo(g).start == g.start
  {
    if g.moves != [] {
      UndoHistory(g);
      var n := |g.moves| - 1;
      assert Parent(g.root) == g.root[..n];
      SingleNode(eval, plyPenalty, g.start, Parent(g.root), g.moves[n].pos, 1.0);
    }
  }

  lemma {:induction false} ResetInv(eval: Grid -> Evaluation, plyPenalty: real, g: Game)
    requires Inv(eval, plyPenalty, g)
    ensures Inv(eval, plyPenalty, Reset(g))
    ensures Reset(g).root == [] && Reset(g).start == g.start && Reset(g).moves == []
    decreases |g.moves|
  {
    if g.moves != [] {
      UndoInv(eval, plyPenalty, g);
      ResetInv(eval, plyPenalty, Undo(g));
    }
  }

  lemma MakeMoveRecords(prm: Params, g: Game, move: nat)
    requires Sound(g) && MakeMove(prm, g, move).Some?
    ensures var h := MakeMove(prm, g, move).value;
            && h.start == g.start && h.root == g.root + [move]
            && h.moves == g.moves + [Recorded(g.nodes[g.root].pos, RootPolicy(g), move)]
  {
  }

  /** Undoing a move restores the position and the history from before it, with an empty tree. */
  lemma UndoAfterMove(prm: Params, g: Game, move: nat)
    requires Sound(g) && MakeMove(prm, g, move).Some?
    ensures Undo(MakeMove(prm, g, move).value)
         == Game(g.start, g.root, map[g.root := FreshNode(g.nodes[g.root].pos, 1.0)], g.root, g.moves)
  {
    MakeMoveRecords(prm, g, move);
    UndoOfRecord(g, MakeMove(prm, g, move).value, Recorded(g.nodes[g.root].pos, RootPolicy(g), move));
  }

  lemma UndoOfRecord(g: Game, h: Game, record: Recorded)
    requires h.start == g.start && h.root == g.root + [record.move] && h.moves == g.moves + [record]
    ensures Undo(h) == Game(g.start, g.root, map[g.root := FreshNode(record.pos, 1.0)], g.root, g.moves)
  {
    assert Parent(h.root) == g.root;
    assert h.moves[..|h.moves| - 1] == g.moves;
  }

  // ----- whole runs -----------------------------------------------------------------------------

  datatype Op = Evaluate(noise: Noise) | AddNoise(noise: Noise) | Move(move: nat)
              | RandomMove(temperature: real, uniform: Rng.Uniform) | UndoMove | ResetAll

  ghost function Step(prm: Params, eval: Grid -> Evaluation, g: Game, op: Op): Option<Game>
    requires Sound(g)
  {
    match op
    case Evaluate(noise) => Receive(prm, g, eval(LeafPosition(g)), noise)
    case AddNoise(noise) => AddRootNoise(prm, g, noise)
    case Move(move) => MakeMove(prm, g, move)
    case RandomMove(temperature, uniform) => MakeRandomMove(prm, g, temperature, uniform)
    case UndoMove => Some(Undo(g))
    case ResetAll => Some(Reset(g))
  }

  lemma StepInv(prm: Params, eval: Grid -> Evaluation, g: Game, op: Op)
    requires Inv(eval, prm.plyPenalty, g) && Sound(g) && Step(prm, eval, g, op).Some?
    ensures Inv(eval, prm.plyPenalty, Step(prm, eval, g, op).value)
    ensures Sound(Step(prm, eval, g, op).value)
  {
    match op {
      case Evaluate(noise) => ReceiveInv(prm, eval, g, noise);
      case AddNoise(noise) => AddRootNoiseInv(prm, eval, g, noise);
      case Move(move) => MakeMoveInv(prm, eval, g, move);
      case RandomMove(temperature, uniform) =>
        MakeMoveInv(prm, eval, g, RandomColumn(prm, RootPolicy(g), RootPosition(g), temperature, uniform).value);
      case UndoMove => UndoInv(eval, prm.plyPenalty, g);
      case ResetAll => ResetInv(eval, prm.plyPenalty, g);
    }
    InvSound(eval, prm.plyPenalty, Step(prm, eval, g, op).value);
  }

  /** A run of operations; `None` once one throws. */
  ghost function Run(prm: Params, eval: Grid -> Evaluation, g: Game, ops: seq<Op>): Option<Game>
    requires Inv(eval, prm.plyPenalty, g)
    decreases |ops|
  {
    InvSound(eval, prm.plyPenalty, g);
    if ops == [] then Some(g)
    else match Step(prm, eval, g, ops[0])
      case None => None
      case Some(h) =>
        StepInv(prm, eval, g, ops[0]);
        Run(prm, eval, h, ops[1..])
  }

  /**
   The tree invariant holds after every sequence of operations from any start, and with it: the
   books balance at every node, the selected leaf is unexpanded, no value sum exceeds its visit count
   (for evaluations and terminal values in [-1, 1]), and the board is the replay of the history.
   */
  lemma {:induction false} RunKeepsInvariant(prm: Params, eval: Grid -> Evaluation, g: Game, ops: seq<Op>)
    requires Inv(eval, prm.plyPenalty, g)
    ensures Run(prm, eval, g, ops).Some? ==>
      Inv(eval, prm.plyPenalty, Run(prm, eval, g, ops).value)
    decreases |ops|
  {
    InvSound(eval, prm.plyPenalty, g);
    if ops != [] && Step(prm, eval, g, ops[0]).Some? {
      StepInv(prm, eval, g, ops[0]);
      RunKeepsInvariant(prm, eval, Step(prm, eval, g, ops[0]).value, ops[1..]);
    }
  }

  lemma RunBoundsValues(prm: Params, eval: Grid -> Evaluation, start: Grid, ops: seq<Op>, p: Path)
    requires Inv(eval, prm.plyPenalty, NewGame(start))
    requires Run(prm, eval, NewGame(start), ops).Some? && p in Run(prm, eval, NewGame(start), ops).value.nodes
    requires forall g :: InUnit(eval(g).q.pen) && InUnit(eval(g).q.noPen)
    requires 0.0 <= 42.0 * prm.plyPenalty <= 2.0
    ensures NodeBounded(Run(prm, eval, NewGame(start), ops).value.nodes[p])
  {
    var g := Run(prm, eval, NewGame(start), ops).value;
    RunKeepsInvariant(prm, eval, NewGame(start), ops);
    ShapeShallow(g.start, g.root, g.nodes);
    forall b: Grid | TerminalValues(b, prm.plyPenalty).Some?
      ensures InUnit(TerminalValues(b, prm.plyPenalty).value.pen)
      ensures InUnit(TerminalValues(b, prm.plyPenalty).value.noPen)
    {
      TerminalInUnit(b, prm.plyPenalty);
    }
    ValuesBounded(eval, prm.plyPenalty, g.start, g.root, g.nodes, p);
  }
}
