/**
 One self-play game as the worker loop of `cpp/src/self_play.cpp` drives it: receive the evaluation
 of the selected leaf; below the iteration count go back for another; at the count either play a
 move or, at a finished position, return the result.
 */
module SelfPlayGames {
  import opened Board
  import opened Policies
  import opened SearchTree
  import opened Games
  import opened Outcomes
  import opened Steps
  import Rng

  datatype Metadata = Metadata(id: nat, player0: nat, player1: nat)

  datatype Owned = Owned(meta: Metadata, game: Game)

  datatype GameResult = GameResult(meta: Metadata, samples: seq<Sample>)

  type Evaluator = (nat, Grid) -> Evaluation

  /**
   The options. `draw` is the normalised root noise and `uniform` the move draw; both are fixed by the
   seed, the game and the root.
   */
  datatype Options = Options(prm: Params, iterations: nat, alpha: real, epsilon: real,
                             midpoint: nat, cutoff: nat, early: real, middle: real, late: real,
                             draw: (nat, Grid) -> Policy, uniform: (nat, nat) -> Rng.Uniform)

  ghost predicate ValidOptions(o: Options) {
    && o.iterations > 0
    && 0.0 <= o.epsilon <= 1.0 && (o.epsilon > 0.0 ==> o.alpha > 0.0)
    && o.early >= 0.0 && o.middle >= 0.0 && o.late >= 0.0 && o.midpoint <= o.cutoff
    && IsExp(o.prm.exp) && IsPow(o.prm.pow)
  }

  /** `leaf_model_id_to_play`. */
  function Model(meta: Metadata, pos: Grid): nat {
    if Ply(pos) % 2 == 0 then meta.player0 else meta.player1
  }

  /** The evaluator as one game sees it. */
  function EvalFor(evaluate: Evaluator, meta: Metadata): Grid -> Evaluation {
    (pos: Grid) => evaluate(Model(meta, pos), pos)
  }

  predicate HasFiniteLegalLogit(pos: Grid, policy: Logits) {
    exists c: nat :: c < COLS && Legal(pos, c) && policy[c].Finite?
  }

  /** `validate_evaluation`: some legal move of an unfinished position has a finite logit. */
  ghost predicate Usable(pos: Grid, e: Evaluation) {
    TerminalState(pos).Some? || HasFiniteLegalLogit(pos, e.policy)
  }

  ghost predicate ValidEvaluator(evaluate: Evaluator) {
    forall model: nat, pos: Grid :: Usable(pos, evaluate(model, pos))
  }

  function RootNoise(o: Options, meta: Metadata, root: Grid): Noise {
    Noise(o.alpha, o.epsilon, o.draw(meta.id, root))
  }

  function Temperature(o: Options, ply: nat): real {
    if ply < o.midpoint then o.early else if ply < o.cutoff then o.middle else o.late
  }

  /** The column a worker plays from the root. */
  function PlayedColumn(o: Options, meta: Metadata, g: Game): Option<nat>
    requires Sound(g)
  {
    var ply := Ply(RootPosition(g));
    RandomColumn(o.prm, RootPolicy(g), RootPosition(g), Temperature(o, ply), o.uniform(meta.id, ply))
  }

  ghost function WithNoise(o: Options, meta: Metadata, g: Game): Option<Game> {
    if Sound(g) then AddRootNoise(o.prm, g, RootNoise(o, meta, RootPosition(g))) else None
  }

  /** A move from the root, and noise on the new root. */
  ghost function Moved(o: Options, meta: Metadata, g: Game): Option<Game>
    requires Sound(g)
  {
    var ply := Ply(RootPosition(g));
    match MakeRandomMove(o.prm, g, Temperature(o, ply), o.uniform(meta.id, ply))
    case None => None
    case Some(h) => WithNoise(o, meta, h)
  }

  ghost function AfterEvaluation(o: Options, meta: Metadata, g: Game): Progress<Owned, GameResult>
    requires Sound(g)
  {
    if RootVisits(g) < o.iterations then Again(Owned(meta, g))
    else match ToResult(o.prm.plyPenalty, g)
      case Some(samples) => Finished(GameResult(meta, samples))
      case None =>
        match Moved(o, meta, g)
        case None => Failed
        case Some(h) => Again(Owned(meta, h))
  }

  /** One pass of a worker over a job. */
  ghost function Tick(o: Options, j: Owned, e: Evaluation): Progress<Owned, GameResult> {
    if !Sound(j.game) then Failed
    else match Receive(o.prm, j.game, e, RootNoise(o, j.meta, RootPosition(j.game)))
      case None => Failed
      case Some(g) => if Sound(g) then AfterEvaluation(o, j.meta, g) else Failed
  }

  /** A game waiting for an evaluation. */
  ghost predicate Waiting(o: Options, evaluate: Evaluator, j: Owned) {
    && Inv(EvalFor(evaluate, j.meta), o.prm.plyPenalty, j.game)
    && Sound(j.game) && RootVisits(j.game) < o.iterations
  }

  /** The evaluations a game can still need. */
  function Measure(o: Options, j: Owned): int
    requires Sound(j.game)
  {
    o.iterations * (CELLS - Ply(RootPosition(j.game))) + (o.iterations - RootVisits(j.game))
  }

  lemma MeasureNonNegative(o: Options, j: Owned)
    requires Sound(j.game) && RootVisits(j.game) < o.iterations
    ensures Measure(o, j) > 0
  {
    FullGrid(RootPosition(j.game));
    NonNegativeProduct(o.iterations, CELLS - Ply(RootPosition(j.game)));
  }

  lemma NonNegativeProduct(a: nat, b: nat)
    ensures a * b >= 0
  {
  }

  lemma OneLess(n: nat, k: nat)
    requires k > 0
    ensures n * (k - 1) == n * k - n
  {
  }

  // ----- an evaluation is always accepted -------------------------------------------------------

  lemma PriorsExist(o: Options, pos: Grid, atRoot: bool, e: Evaluation, noise: Noise)
    requires ValidOptions(o) && Usable(pos, e) && TerminalState(pos).None?
    requires noise.alpha == o.alpha && noise.epsilon == o.epsilon
    ensures LeafPriors(o.prm, pos, atRoot, e.policy, noise).Some?
  {
    var c: nat :| c < COLS && Legal(pos, c) && e.policy[c].Finite?;
    var masked := MaskLogits(e.policy, LegalColumns(pos));
    assert masked[c] == e.policy[c];
    SoftmaxSupport(o.prm.exp, masked);
  }

  lemma UpdateExists(o: Options, pos: Grid, atRoot: bool, e: Evaluation, noise: Noise)
    requires ValidOptions(o) && Usable(pos, e)
    requires noise.alpha == o.alpha && noise.epsilon == o.epsilon
    ensures LeafUpdate(o.prm, pos, atRoot, e, noise).Some?
  {
    if TerminalState(pos).None? {
      PriorsExist(o, pos, atRoot, e, noise);
    }
  }

  /** An update visits the root once; the selection after it changes no existing node. */
  lemma UpdateVisitsRoot(t: Tree, root: Path, leaf: Path, update: Update)
    requires leaf in t && root in t && root <= leaf
    ensures var r := Updated(t, leaf, update);
            root in r && r[root].visits == t[root].visits + 1 && r[root].pos == t[root].pos
  {
  }

  lemma ReceiveVisitsRoot(o: Options, eval: Grid -> Evaluation, g: Game, noise: Noise, update: Update)
    requires Inv(eval, o.prm.plyPenalty, g) && Sound(g)
    requires LeafUpdate(o.prm, LeafPosition(g), g.leaf == g.root, eval(LeafPosition(g)), noise) == Some(update)
    ensures var t := Updated(g.nodes, g.leaf, update);
            && g.root in t && Shallow(t)
            && var h := Reselected(o.prm, g.start, g.root, t, g.moves);
               g.root in h.nodes && h.nodes[g.root] == t[g.root] && t[g.root].pos == g.nodes[g.root].pos
               && t[g.root].visits == g.nodes[g.root].visits + 1
  {
    assert Placed(g.start, g.root, g.nodes, g.leaf);
    UpdateVisitsRoot(g.nodes, g.root, g.leaf, update);
    UpdatedTree(o.prm, eval, g, noise, update);
    ShapeShallow(g.start, g.root, Updated(g.nodes, g.leaf, update));
    ReselectedTree(o.prm, eval, g.start, g.root, Updated(g.nodes, g.leaf, update), g.moves);
  }

  lemma ReceiveAccepts(o: Options, eval: Grid -> Evaluation, g: Game, noise: Noise)
    requires ValidOptions(o) && Inv(eval, o.prm.plyPenalty, g) && Sound(g)
    requires Usable(LeafPosition(g), eval(LeafPosition(g)))
    requires noise.alpha == o.alpha && noise.epsilon == o.epsilon
    ensures var h := Receive(o.prm, g, eval(LeafPosition(g)), noise);
            && h.Some? && Inv(eval, o.prm.plyPenalty, h.value) && Sound(h.value)
            && RootVisits(h.value) == RootVisits(g) + 1
            && RootPosition(h.value) == RootPosition(g)
  {
    var e := eval(LeafPosition(g));
    UpdateExists(o, LeafPosition(g), g.leaf == g.root, e, noise);
    ReceiveInv(o.prm, eval, g, noise);
    InvSound(eval, o.prm.plyPenalty, Receive(o.prm, g, e, noise).value);
    ReceiveVisitsRoot(o, eval, g, noise, LeafUpdate(o.prm, LeafPosition(g), g.leaf == g.root, e, noise).value);
  }

  // ----- a move is always found, and legal ------------------------------------------------------

  /** A visited unfinished root is expanded, and its children hold all visits but one. */
  lemma RootBooks(eval: Grid -> Evaluation, plyPenalty: real, g: Game)
    requires Inv(eval, plyPenalty, g) && Sound(g) && RootVisits(g) > 0 && TerminalState(RootPosition(g)).None?
    ensures g.nodes[g.root].expanded && RootVisits(g) == 1 + VisitSum(g.nodes, g.root)
  {
    assert Balanced(eval, plyPenalty, g.nodes, g.root);
  }

  lemma ChildBelowSum(t: Tree, p: Path, col: nat)
    requires col < COLS
    ensures ChildVisits(t, p, col) <= VisitSum(t, p)
  {
  }

  lemma FractionSign(a: nat, b: nat)
    requires b > 0
    ensures a as real / b as real >= 0.0 && (a as real / b as real > 0.0 <==> a > 0)
  {
  }

  lemma VisitedChildLegal(start: Grid, root: Path, t: Tree, p: Path) returns (col: nat)
    requires Shape(start, root, t) && p in t && VisitSum(t, p) > 0
    ensures col < COLS && ChildVisits(t, p, col) > 0 && Legal(t[p].pos, col)
  {
    col := if ChildVisits(t, p, 0) > 0 then 0 else if ChildVisits(t, p, 1) > 0 then 1
      else if ChildVisits(t, p, 2) > 0 then 2 else if ChildVisits(t, p, 3) > 0 then 3
      else if ChildVisits(t, p, 4) > 0 then 4 else if ChildVisits(t, p, 5) > 0 then 5 else 6;
    ChildMeansExpanded(start, root, t, p, col);
    assert Placed(start, root, t, p);
  }

  /** The visit policy, masked to the legal columns, always leaves some weight. */
  lemma MaskedPolicyPositive(eval: Grid -> Evaluation, plyPenalty: real, g: Game)
    requires Inv(eval, plyPenalty, g) && Sound(g) && g.nodes[g.root].expanded
    ensures var masked := MaskPolicy(RootPolicy(g), LegalColumns(RootPosition(g)));
            NonNegative(masked) && SomePositive(masked)
  {
    var masked := MaskPolicy(RootPolicy(g), LegalColumns(RootPosition(g)));
    assert Placed(g.start, g.root, g.nodes, g.root);
    var sum := VisitSum(g.nodes, g.root);
    var col: nat;
    if sum == 0 {
      col := NonTerminalHasMove(RootPosition(g));
      assert UNIFORM[col] == SEVENTH;
    } else {
      col := VisitedChildLegal(g.start, g.root, g.nodes, g.root);
      forall c: nat | c < COLS {
        FractionSign(ChildVisits(g.nodes, g.root, c), sum);
      }
      FractionSign(ChildVisits(g.nodes, g.root, col), sum);
    }
    assert masked[col] > 0.0;
  }

  /** The drawn column exists and is legal at every temperature. */
  lemma RandomColumnLegal(prm: Params, policy: Policy, pos: Grid, temperature: real, uniform: Rng.Uniform)
    requires IsPow(prm.pow) && temperature >= 0.0
    requires NonNegative(MaskPolicy(policy, LegalColumns(pos))) && SomePositive(MaskPolicy(policy, LegalColumns(pos)))
    ensures RandomColumn(prm, policy, pos, temperature, uniform).Some?
    ensures Legal(pos, RandomColumn(prm, policy, pos, temperature, uniform).value)
  {
    var masked := MaskPolicy(policy, LegalColumns(pos));
    TemperatureSupport(prm.pow, masked, temperature);
    var tempered := ApplyTemperature(prm.pow, masked, temperature).value;
    assert !Rng.Unsampleable(tempered);
    var col := Rng.Sampled(tempered, uniform).value;
    assert masked[col] > 0.0;
  }

  /** From an expanded root the random move succeeds and is a legal move. */
  lemma RandomMoveSucceeds(o: Options, eval: Grid -> Evaluation, g: Game, temperature: real, uniform: Rng.Uniform)
    requires ValidOptions(o) && Inv(eval, o.prm.plyPenalty, g) && Sound(g) && g.nodes[g.root].expanded
    requires temperature >= 0.0
    ensures var column := RandomColumn(o.prm, RootPolicy(g), RootPosition(g), temperature, uniform);
            var h := MakeRandomMove(o.prm, g, temperature, uniform);
            && column.Some? && Legal(RootPosition(g), column.value)
            && h.Some? && Inv(eval, o.prm.plyPenalty, h.value) && Sound(h.value)
            && h.value.root == g.root + [column.value]
            && RootPosition(h.value) == Drop(RootPosition(g), column.value)
            && RootVisits(h.value) == ChildVisits(g.nodes, g.root, column.value)
  {
    MaskedPolicyPositive(eval, o.prm.plyPenalty, g);
    RandomColumnLegal(o.prm, RootPolicy(g), RootPosition(g), temperature, uniform);
    MakeMoveInv(o.prm, eval, g, RandomColumn(o.prm, RootPolicy(g), RootPosition(g), temperature, uniform).value);
  }

  lemma ReprioredRoot(prm: Params, eval: Grid -> Evaluation, g: Game, priors: Policy)
    requires Inv(eval, prm.plyPenalty, g) && Sound(g)
    ensures var t := Repriored(g.nodes, g.root, priors);
            && g.root in t && Shallow(t)
            && var h := Reselected(prm, g.start, g.root, t, g.moves);
               Inv(eval, prm.plyPenalty, h) && h.nodes[g.root] == t[g.root]
  {
    ReprioredShape(g.start, g.root, g.nodes, priors);
    ReprioredBooks(eval, prm.plyPenalty, g.nodes, g.root, priors);
    ReselectedTree(prm, eval, g.start, g.root, Repriored(g.nodes, g.root, priors), g.moves);
  }

  /** Root noise changes neither the board nor a count. */
  lemma NoiseKeepsRoot(o: Options, eval: Grid -> Evaluation, meta: Metadata, g: Game)
    requires ValidOptions(o) && Inv(eval, o.prm.plyPenalty, g) && Sound(g)
    ensures var h := WithNoise(o, meta, g);
            && h.Some? && Inv(eval, o.prm.plyPenalty, h.value) && Sound(h.value)
            && RootPosition(h.value) == RootPosition(g) && RootVisits(h.value) == RootVisits(g)
  {
    var n := g.nodes[g.root];
    var noise := RootNoise(o, meta, RootPosition(g));
    var mixed := MixNoise(n.priors, LegalColumns(n.pos), noise);
    if noise.epsilon > 0.0 {
      ReprioredRoot(o.prm, eval, g, mixed.value);
      InvSound(eval, o.prm.plyPenalty, Reselected(o.prm, g.start, g.root, Repriored(g.nodes, g.root, mixed.value),
                                                  g.moves));
    }
  }

  /** A move is played at exactly the iteration count; the new root has fewer visits than that. */
  lemma MoveProgress(o: Options, eval: Grid -> Evaluation, meta: Metadata, g: Game) returns (h: Game)
    requires ValidOptions(o) && Inv(eval, o.prm.plyPenalty, g) && Sound(g)
    requires RootVisits(g) == o.iterations && TerminalState(RootPosition(g)).None?
    ensures PlayedColumn(o, meta, g).Some? && Legal(RootPosition(g), PlayedColumn(o, meta, g).value)
    ensures var ply := Ply(RootPosition(g));
            MakeRandomMove(o.prm, g, Temperature(o, ply), o.uniform(meta.id, ply)) == Some(h)
    ensures Inv(eval, o.prm.plyPenalty, h) && Sound(h) && RootVisits(h) < o.iterations
    ensures RootPosition(h) == Drop(RootPosition(g), PlayedColumn(o, meta, g).value)
  {
    var ply := Ply(RootPosition(g));
    var temperature, uniform := Temperature(o, ply), o.uniform(meta.id, ply);
    RootBooks(eval, o.prm.plyPenalty, g);
    RandomMoveSucceeds(o, eval, g, temperature, uniform);
    ChildBelowSum(g.nodes, g.root, RandomColumn(o.prm, RootPolicy(g), RootPosition(g), temperature, uniform).value);
    h := MakeRandomMove(o.prm, g, temperature, uniform).value;
  }

  lemma MovedProgress(o: Options, eval: Grid -> Evaluation, meta: Metadata, g: Game)
    requires ValidOptions(o) && Inv(eval, o.prm.plyPenalty, g) && Sound(g)
    requires RootVisits(g) == o.iterations && TerminalState(RootPosition(g)).None?
    ensures PlayedColumn(o, meta, g).Some? && Legal(RootPosition(g), PlayedColumn(o, meta, g).value)
    ensures var h := Moved(o, meta, g);
            && h.Some? && Inv(eval, o.prm.plyPenalty, h.value) && Sound(h.value)
            && RootVisits(h.value) < o.iterations
            && RootPosition(h.value) == Drop(RootPosition(g), PlayedColumn(o, meta, g).value)
  {
    var h := MoveProgress(o, eval, meta, g);
    NoiseKeepsRoot(o, eval, meta, h);
  }

  /** What a pass over a waiting game may come to. */
  ghost predicate Advances(o: Options, evaluate: Evaluator, j: Owned, p: Progress<Owned, GameResult>)
    requires Sound(j.game)
  {
    match p
    case Failed => false
    case Again(k) => Waiting(o, evaluate, k) && k.meta == j.meta && Measure(o, k) < Measure(o, j)
    case Finished(result) => result.meta == j.meta && TerminalState(RootPosition(j.game)).Some?
  }

  lemma MeasureFalls(o: Options, j: Owned, k: Owned)
    requires Sound(j.game) && Sound(k.game) && RootVisits(j.game) < o.iterations
    requires || (RootPosition(k.game) == RootPosition(j.game) && RootVisits(k.game) == RootVisits(j.game) + 1)
             || Ply(RootPosition(k.game)) == Ply(RootPosition(j.game)) + 1
    ensures Measure(o, k) < Measure(o, j)
  {
    if Ply(RootPosition(k.game)) == Ply(RootPosition(j.game)) + 1 {
      FullGrid(RootPosition(k.game));
      OneLess(o.iterations, CELLS - Ply(RootPosition(j.game)));
    }
  }

  lemma AfterProgress(o: Options, evaluate: Evaluator, j: Owned, g: Game)
    requires ValidOptions(o) && Sound(j.game) && RootVisits(j.game) < o.iterations
    requires Inv(EvalFor(evaluate, j.meta), o.prm.plyPenalty, g) && Sound(g)
    requires RootVisits(g) == RootVisits(j.game) + 1 && RootPosition(g) == RootPosition(j.game)
    ensures Advances(o, evaluate, j, AfterEvaluation(o, j.meta, g))
  {
    if RootVisits(g) < o.iterations {
      MeasureFalls(o, j, Owned(j.meta, g));
    } else if TerminalState(RootPosition(g)).None? {
      MovedProgress(o, EvalFor(evaluate, j.meta), j.meta, g);
      MeasureFalls(o, j, Owned(j.meta, Moved(o, j.meta, g).value));
    }
  }

  /** The evaluation a waiting game needs. */
  function OwnEvaluation(evaluate: Evaluator, j: Owned): Evaluation
    requires Sound(j.game)
  {
    evaluate(Model(j.meta, LeafPosition(j.game)), LeafPosition(j.game))
  }

  /**
   Every pass over a waiting game with its own evaluation succeeds: the game goes on waiting with a
   smaller measure, or it is finished at a terminal root. No pass fails and no move is illegal.
   */
  lemma TickProgress(o: Options, evaluate: Evaluator, j: Owned)
    requires ValidOptions(o) && ValidEvaluator(evaluate) && Waiting(o, evaluate, j)
    ensures Measure(o, j) > 0
    ensures Advances(o, evaluate, j, Tick(o, j, OwnEvaluation(evaluate, j)))
  {
    var eval := EvalFor(evaluate, j.meta);
    var noise := RootNoise(o, j.meta, RootPosition(j.game));
    assert eval(LeafPosition(j.game)) == OwnEvaluation(evaluate, j);
    assert Usable(LeafPosition(j.game), evaluate(Model(j.meta, LeafPosition(j.game)), LeafPosition(j.game)));
    MeasureNonNegative(o, j);
    ReceiveAccepts(o, eval, j.game, noise);
    AfterProgress(o, evaluate, j, Receive(o.prm, j.game, eval(LeafPosition(j.game)), noise).value);
  }

  /** A new game waits; a game started at ply `p` needs at most `n * (43 - p)` evaluations. */
  lemma NewGameWaits(o: Options, evaluate: Evaluator, meta: Metadata, start: Grid)
    requires ValidOptions(o)
    ensures Waiting(o, evaluate, Owned(meta, NewGame(start)))
    ensures Measure(o, Owned(meta, NewGame(start))) == o.iterations * (43 - Ply(start))
  {
    NewGameInv(EvalFor(evaluate, meta), o.prm.plyPenalty, start);
    OneLess(o.iterations, 43 - Ply(start)) by {
      FullGrid(start);
    }
  }
}
