/**
 Which model is asked: at a position with the first player to move the model of player 0, otherwise that of
 player 1. A self-play result depends on nothing else that an evaluator says.
 */
module PlayerModels {
  import opened Board
  import opened SearchTree
  import opened Games
  import opened Outcomes
  import opened SelfPlayGames
  import opened Steps
  import Arenas
  import ArenaGames
  import Interactive
  import P = Pipeline
  import SelfPlay

  /** The model of the player to move. */
  function MoverModel(meta: Metadata, pos: Grid): nat {
    match Mover(pos)
    case First => meta.player0
    case Second => meta.player1
  }

  /** The key of a waiting game is its leaf, with the model of the player to move there. */
  lemma KeyIsMovers(o: Options, evaluate: Evaluator, j: Owned)
    requires Waiting(o, evaluate, j)
    ensures SelfPlay.SpecOf(o, evaluate).key(j) == (MoverModel(j.meta, LeafPosition(j.game)), LeafPosition(j.game))
  {
  }

  /** The evaluators say the same where the model of player 0 is to move, and where that of player 1 is. */
  ghost predicate AgreeFor(meta: Metadata, e: Evaluator, f: Evaluator) {
    && (forall pos: Grid :: Mover(pos).First? ==> e(meta.player0, pos) == f(meta.player0, pos))
    && (forall pos: Grid :: Mover(pos).Second? ==> e(meta.player1, pos) == f(meta.player1, pos))
  }

  lemma SameEvaluations(meta: Metadata, e: Evaluator, f: Evaluator, pos: Grid)
    requires AgreeFor(meta, e, f)
    ensures EvalFor(e, meta)(pos) == EvalFor(f, meta)(pos)
  {
    match Mover(pos) {
      case First => assert Model(meta, pos) == meta.player0;
      case Second => assert Model(meta, pos) == meta.player1;
    }
  }

  lemma SameWaiting(o: Options, e: Evaluator, f: Evaluator, j: Owned)
    requires AgreeFor(j.meta, e, f) && Waiting(o, e, j)
    ensures Waiting(o, f, j)
  {
    forall p | p in j.game.nodes ensures Balanced(EvalFor(f, j.meta), o.prm.plyPenalty, j.game.nodes, p) {
      SameEvaluations(j.meta, e, f, j.game.nodes[p].pos);
      assert Balanced(EvalFor(e, j.meta), o.prm.plyPenalty, j.game.nodes, p);
    }
  }

  lemma {:induction false} SameSolo(o: Options, e: Evaluator, f: Evaluator, j: Owned)
    requires ValidOptions(o) && ValidEvaluator(e) && ValidEvaluator(f) && AgreeFor(j.meta, e, f)
    requires Waiting(o, e, j) && Waiting(o, f, j)
    requires P.Sane(SelfPlay.SpecOf(o, e)) && P.Sane(SelfPlay.SpecOf(o, f))
    ensures P.Solo(SelfPlay.SpecOf(o, e), j) == P.Solo(SelfPlay.SpecOf(o, f), j)
    decreases Measure(o, j)
  {
    TickProgress(o, e, j);
    SameEvaluations(j.meta, e, f, LeafPosition(j.game));
    assert OwnEvaluation(e, j) == OwnEvaluation(f, j);
    assert P.Progresses(SelfPlay.SpecOf(o, e), j) && P.Progresses(SelfPlay.SpecOf(o, f), j);
    match Tick(o, j, OwnEvaluation(e, j)) {
      case Again(k) =>
        SameWaiting(o, e, f, k);
        MeasureNonNegative(o, k);
        SameSolo(o, e, f, k);
      case Finished(_) =>
    }
  }

  /** The result of a request depends on what its two models say where they are to move, and on nothing else. */
  lemma SoloAsksMovers(o: Options, e: Evaluator, f: Evaluator, request: SelfPlay.Request)
    requires ValidOptions(o) && ValidEvaluator(e) && ValidEvaluator(f) && AgreeFor(request.meta, e, f)
    ensures SelfPlay.Solo(o, e, request) == SelfPlay.Solo(o, f, request)
  {
    SelfPlay.SpecSane(o, e);
    SelfPlay.SpecSane(o, f);
    NewGameWaits(o, e, request.meta, request.opening);
    NewGameWaits(o, f, request.meta, request.opening);
    SameSolo(o, e, f, Owned(request.meta, NewGame(request.opening)));
  }

  /** In an arena game with player 0 `a` and player 1 `b`, model `a` is asked with the first player to move. */
  lemma ArenaAsksMovers(o: Options, e: Evaluator, f: Evaluator, id: nat, opening: Arenas.Opening, a: nat, b: nat)
    requires ValidOptions(o) && ValidEvaluator(e) && ValidEvaluator(f) && AgreeFor(Metadata(id, a, b), e, f)
    ensures ArenaGames.EnginePlay(o, e)(id, opening, a, b) == ArenaGames.EnginePlay(o, f)(id, opening, a, b)
  {
    match Play(EMPTY, opening) {
      case None =>
      case Some(g) => SoloAsksMovers(o, e, f, SelfPlay.Request(Metadata(id, a, b), g));
    }
  }

  /** Interactive play asks the model of the player to move at the leaf, too. */
  lemma InteractiveAsksMovers(setup: Interactive.Setup, s: Interactive.State)
    requires Interactive.Enabled(s, Interactive.BackgroundStart)
    ensures var t := Interactive.Step(setup, s, Interactive.BackgroundStart).0;
            && t.background.Evaluating? && t.background.leaf == LeafPosition(s.game)
            && t.background.model == MoverModel(setup.meta, LeafPosition(s.game))
  {
  }
}
