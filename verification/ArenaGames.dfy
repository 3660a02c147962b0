/**
 The arena of Arena.dfy played by the engine: each game is a solo game of SelfPlay.dfy, and its id seeds
 the draws. With a single search iteration the players do not matter at all, only the draws do, and
 exchanging candidate and champion need not reflect a pair.
 */
module ArenaGames {
  import opened ArenaStatistics
  import opened Arenas
  import opened Board
  import opened Games
  import opened Outcomes
  import opened Policies
  import opened SearchTree
  import opened SelfPlayGames
  import opened Steps
  import P = Pipeline
  import Rng
  import SelfPlay

  // ----- scores of engine games -------------------------------------------------------------------

  /** `player0_score` from the last position of a game. */
  ghost function FinalScore(g: Grid): Option<real> {
    match TerminalState(g)
    case None => None
    case Some(outcome) => Some(if Ply(g) % 2 == 1 then 1.0 - ScoreOf(outcome) else ScoreOf(outcome))
  }

  function OrZero(score: Option<real>): real {
    match score case None => 0.0 case Some(x) => x
  }

  /** Player 0's score of the game with this id, opening and players; 0 for an opening that cannot be played. */
  ghost function EnginePlay(o: Options, evaluate: Evaluator): PlayGame
    requires ValidOptions(o) && ValidEvaluator(evaluate)
  {
    (id: nat, opening: Opening, a: nat, b: nat) =>
      match Play(EMPTY, opening)
      case None => 0.0
      case Some(g) => OrZero(Player0Score(SelfPlay.Solo(o, evaluate, SelfPlay.Request(Metadata(id, a, b), g)).samples))
  }

  lemma {:induction false} ScoresOfSamples(samples: seq<Sample>)
    ensures Player0Score(samples).Some? ==> IsScore(Player0Score(samples).value)
  {
    if samples != [] && TerminalState(samples[0].pos).None? {
      ScoresOfSamples(samples[1..]);
    }
  }

  /** The engine gives the arena what it needs: every game scores 0, 1/2 or 1. */
  lemma EngineScores(o: Options, evaluate: Evaluator)
    requires ValidOptions(o) && ValidEvaluator(evaluate)
    ensures Arenas.Scores(EnginePlay(o, evaluate))
  {
    var play := EnginePlay(o, evaluate);
    forall id: nat, opening, a: nat, b: nat ensures IsScore(play(id, opening, a, b)) {
      match Play(EMPTY, opening) {
        case None =>
        case Some(g) =>
          ScoresOfSamples(SelfPlay.Solo(o, evaluate, SelfPlay.Request(Metadata(id, a, b), g)).samples);
      }
    }
  }

  lemma OneSample(sample: Sample)
    requires TerminalState(sample.pos).Some?
    ensures Player0Score([sample]) == FinalScore(sample.pos)
  {
  }

  lemma LastScore(samples: seq<Sample>)
    requires samples != [] && TerminalState(samples[|samples| - 1].pos).Some?
    requires forall i :: 0 <= i < |samples| - 1 ==> TerminalState(samples[i].pos).None?
    ensures Player0Score(samples) == FinalScore(samples[|samples| - 1].pos)
  {
    FirstTerminal(samples);
    OneSample(samples[|samples| - 1]);
  }

  lemma ResultScore(eval: Grid -> Evaluation, plyPenalty: real, g: Game)
    requires Inv(eval, plyPenalty, g) && Sound(g) && ToResult(plyPenalty, g).Some?
    ensures Player0Score(ToResult(plyPenalty, g).value) == FinalScore(RootPosition(g))
  {
    var samples := ToResult(plyPenalty, g).value;
    SamplesReplay(eval, plyPenalty, g);
    forall i | 0 <= i < |samples| - 1 ensures TerminalState(samples[i].pos).None? {
      assert StepsTo(samples, g.moves, i);
    }
    LastScore(samples);
  }

  // ----- one search iteration: a game of draws ------------------------------------------------------

  /** The draw of `id` at `g` is column `col`: sampled from the uniform policy, at the ply's temperature. */
  ghost predicate Draws(o: Options, id: nat, g: Grid, col: nat) {
    && TerminalState(g).None? && Legal(g, col)
    && RandomColumn(o.prm, UNIFORM, g, Temperature(o, Ply(g)), o.uniform(id, Ply(g))) == Some(col)
  }

  /** The game that the draws of `id` play, to its last position. */
  ghost function DrawnEnd(o: Options, id: nat, g: Grid): Grid
    decreases CELLS - Ply(g)
  {
    if exists col: nat :: Draws(o, id, g, col) then
      var col: nat :| Draws(o, id, g, col);
      FullGrid(Drop(g, col));
      DrawnEnd(o, id, Drop(g, col))
    else g
  }

  /** Positions of a drawn game from its first to its last. */
  ghost predicate DrawnGame(o: Options, id: nat, boards: seq<Grid>) {
    && boards != [] && TerminalState(boards[|boards| - 1]).Some?
    && forall i: nat :: i + 1 < |boards| ==> DrawnTo(o, id, boards[i], boards[i + 1])
  }

  ghost predicate DrawnTo(o: Options, id: nat, g: Grid, h: Grid) {
    exists col: nat :: Draws(o, id, g, col) && h == Drop(g, col)
  }

  lemma {:induction false} DrawnGameEnds(o: Options, id: nat, boards: seq<Grid>)
    requires DrawnGame(o, id, boards)
    ensures DrawnEnd(o, id, boards[0]) == boards[|boards| - 1]
  {
    if |boards| > 1 {
      assert DrawnTo(o, id, boards[0], boards[0 + 1]);
      DrawnGameEnds(o, id, boards[1..]);
    }
  }

  /** At one iteration a game at position `g` ends, or it moves by the draw alone. */
  ghost predicate DrawnStep(o: Options, evaluate: Evaluator, meta: Metadata, g: Grid, p: Progress<Owned, GameResult>) {
    match p
    case Failed => false
    case Finished(r) => TerminalState(g).Some? && Player0Score(r.samples) == FinalScore(g)
    case Again(k) =>
      Waiting(o, evaluate, k) && k.meta == meta && DrawnTo(o, meta.id, g, RootPosition(k.game))
  }

  lemma DrawnAfter(o: Options, evaluate: Evaluator, meta: Metadata, h: Game)
    requires ValidOptions(o) && o.iterations == 1
    requires Inv(EvalFor(evaluate, meta), o.prm.plyPenalty, h) && Sound(h) && RootVisits(h) == 1
    ensures DrawnStep(o, evaluate, meta, RootPosition(h), AfterEvaluation(o, meta, h))
  {
    var eval := EvalFor(evaluate, meta);
    if TerminalState(RootPosition(h)).Some? {
      ResultScore(eval, o.prm.plyPenalty, h);
    } else {
      RootBooks(eval, o.prm.plyPenalty, h);
      assert RootPolicy(h) == UNIFORM;
      MovedProgress(o, eval, meta, h);
    }
  }

  lemma DrawnTick(o: Options, evaluate: Evaluator, j: Owned)
    requires ValidOptions(o) && ValidEvaluator(evaluate) && o.iterations == 1 && Waiting(o, evaluate, j)
    ensures DrawnStep(o, evaluate, j.meta, RootPosition(j.game), Tick(o, j, OwnEvaluation(evaluate, j)))
  {
    var eval := EvalFor(evaluate, j.meta);
    var noise := RootNoise(o, j.meta, RootPosition(j.game));
    assert eval(LeafPosition(j.game)) == OwnEvaluation(evaluate, j);
    assert Usable(LeafPosition(j.game), evaluate(Model(j.meta, LeafPosition(j.game)), LeafPosition(j.game)));
    ReceiveAccepts(o, eval, j.game, noise);
    DrawnAfter(o, evaluate, j.meta, Receive(o.prm, j.game, eval(LeafPosition(j.game)), noise).value);
  }

  /** With one iteration the result of a game is that of its drawn game. */
  lemma {:induction false} OneIterationDraws(o: Options, evaluate: Evaluator, j: Owned)
    requires ValidOptions(o) && ValidEvaluator(evaluate) && o.iterations == 1 && Waiting(o, evaluate, j)
    requires P.Sane(SelfPlay.SpecOf(o, evaluate))
    ensures Player0Score(P.Solo(SelfPlay.SpecOf(o, evaluate), j).samples)
         == FinalScore(DrawnEnd(o, j.meta.id, RootPosition(j.game)))
    decreases CELLS - Ply(RootPosition(j.game))
  {
    var spec := SelfPlay.SpecOf(o, evaluate);
    DrawnTick(o, evaluate, j);
    assert P.Progresses(spec, j);
    match Tick(o, j, OwnEvaluation(evaluate, j)) {
      case Again(k) =>
        FullGrid(RootPosition(k.game));
        OneIterationDraws(o, evaluate, k);
      case Finished(_) =>
    }
  }

  /** So it depends on the id and the opening only, not on who plays. */
  lemma OneIterationIgnoresPlayers(o: Options, evaluate: Evaluator, id: nat, opening: Opening, g: Grid, a: nat, b: nat)
    requires ValidOptions(o) && ValidEvaluator(evaluate) && o.iterations == 1 && Play(EMPTY, opening) == Some(g)
    ensures EnginePlay(o, evaluate)(id, opening, a, b) == OrZero(FinalScore(DrawnEnd(o, id, g)))
  {
    var j := Owned(Metadata(id, a, b), NewGame(g));
    SelfPlay.SpecSane(o, evaluate);
    NewGameWaits(o, evaluate, Metadata(id, a, b), g);
    OneIterationDraws(o, evaluate, j);
  }

  // ----- roles reversed -----------------------------------------------------------------------------

  /** With one iteration a pair is reflected exactly when its two games score the same. */
  lemma OneIterationRoles(o: Options, evaluate: Evaluator, candidate: nat, champion: nat, opening: Opening, g: Grid,
                          k: nat)
    requires ValidOptions(o) && ValidEvaluator(evaluate) && o.iterations == 1 && Play(EMPTY, opening) == Some(g)
    ensures SameTotals(EnginePlay(o, evaluate), candidate, champion, opening, k)
       <==> OrZero(FinalScore(DrawnEnd(o, 2 * k + 1, g))) == OrZero(FinalScore(DrawnEnd(o, 2 * k + 2, g)))
  {
    OneIterationIgnoresPlayers(o, evaluate, 2 * k + 1, opening, g, candidate, champion);
    OneIterationIgnoresPlayers(o, evaluate, 2 * k + 1, opening, g, champion, candidate);
    OneIterationIgnoresPlayers(o, evaluate, 2 * k + 2, opening, g, candidate, champion);
    OneIterationIgnoresPlayers(o, evaluate, 2 * k + 2, opening, g, champion, candidate);
  }

  // ----- two drawn games that end differently -------------------------------------------------------

  /** Game 1 draws column 0 for the first player, game 2 column 2; both draw column 1 for the second player. */
  function DrawnColumn(id: nat, ply: nat): nat {
    if ply % 2 == 1 then 1 else if id == 1 then 0 else 2
  }

  /** The middle of a column's seventh. */
  function Middle(col: nat): Rng.Uniform
    requires col <= 2
  {
    (2 * col + 1) as real / 14.0
  }

  lemma UniformSums()
    ensures Rng.Sum(UNIFORM[..0]) == 0.0 && Rng.Sum(UNIFORM[..1]) == 1.0 / 7.0 && Rng.Sum(UNIFORM[..2]) == 2.0 / 7.0
    ensures Rng.Sum(UNIFORM[..3]) == 3.0 / 7.0 && Rng.Sum(UNIFORM) == 1.0
  {
    assert UNIFORM[..7] == UNIFORM && UNIFORM[..0] == [];
    Rng.SumSnoc(UNIFORM, 0);
    Rng.SumSnoc(UNIFORM, 1);
    Rng.SumSnoc(UNIFORM, 2);
    Rng.SumSnoc(UNIFORM, 3);
    Rng.SumSnoc(UNIFORM, 4);
    Rng.SumSnoc(UNIFORM, 5);
    Rng.SumSnoc(UNIFORM, 6);
  }

  /** The middle of a seventh samples its column, at every temperature, while no column is full. */
  lemma MiddleSamples(prm: Params, g: Grid, temperature: real, col: nat)
    requires temperature >= 0.0 && col <= 2 && forall c: nat :: c < COLS ==> Legal(g, c)
    ensures RandomColumn(prm, UNIFORM, g, temperature, Middle(col)) == Some(col)
  {
    assert MaskPolicy(UNIFORM, LegalColumns(g)) == UNIFORM;
    UniformSums();
    assert UNIFORM[0] > 0.0;
    assert !Rng.Unsampleable(UNIFORM);
    assert Rng.Target(UNIFORM, Middle(col)) == Middle(col);
    Rng.SampledIs(UNIFORM, Middle(col), col);
  }

  /** Only the first three columns hold discs, and none of them four of player `d`. */
  predicate Narrow(g: Grid, d: Disc) {
    && g[3] == [] && g[4] == [] && g[5] == [] && g[6] == []
    && forall c :: 0 <= c < 3 ==> |g[c]| <= 3 || forall k :: 0 <= k < |g[c]| ==> g[c][k] != d
  }

  lemma NarrowNoFour(g: Grid, d: Disc)
    requires Narrow(g, d)
    ensures !HasFour(g, d)
  {
    forall row: int, col: int, dir: Direction ensures !FourFrom(g, d, row, col, dir) {
    }
  }

  /** A valid configuration with one iteration and these draws. */
  ghost predicate DrawsSo(o: Options) {
    ValidOptions(o) && o.iterations == 1 && forall id, ply :: o.uniform(id, ply) == Middle(DrawnColumn(id, ply))
  }

  predicate Low(g: Grid) {
    |g[0]| <= 3 && |g[1]| <= 3 && |g[2]| <= 3 && g[3] == [] && g[4] == [] && g[5] == [] && g[6] == []
  }

  function DrawnDrop(id: nat, g: Grid): Grid
    requires Low(g)
  {
    Drop(g, DrawnColumn(id, Ply(g)))
  }

  lemma DrawOnce(o: Options, id: nat, g: Grid)
    requires DrawsSo(o) && Low(g)
    ensures DrawnTo(o, id, g, DrawnDrop(id, g))
  {
    NarrowNoFour(g, First);
    NarrowNoFour(g, Second);
    MiddleSamples(o.prm, g, Temperature(o, Ply(g)), DrawnColumn(id, Ply(g)));
    assert Draws(o, id, g, DrawnColumn(id, Ply(g)));
  }

  function Tower(d: Disc, n: nat): (t: seq<Disc>)
    ensures |t| == n && forall k :: 0 <= k < n ==> t[k] == d
  {
    seq(n, _ => d)
  }

  lemma TowerNext(d: Disc, n: nat)
    ensures Tower(d, n) + [d] == Tower(d, n + 1)
  {
  }

  /** A board with discs in the first three columns only, each column of one colour. */
  function Columns(firsts: nat, seconds: nat, more: nat): Grid
    requires firsts <= 6 && seconds <= 6 && more <= 6
  {
    [Tower(First, firsts), Tower(Second, seconds), Tower(First, more), [], [], [], []]
  }

  lemma DropOnColumns(a: nat, b: nat, c: nat)
    requires a <= 5 && b <= 5 && c <= 5
    ensures (a + b + c) % 2 == 0 ==> Drop(Columns(a, b, c), 0) == Columns(a + 1, b, c)
    ensures (a + b + c) % 2 == 0 ==> Drop(Columns(a, b, c), 2) == Columns(a, b, c + 1)
    ensures (a + b + c) % 2 == 1 ==> Drop(Columns(a, b, c), 1) == Columns(a, b + 1, c)
  {
    TowerNext(First, a);
    TowerNext(Second, b);
    TowerNext(First, c);
  }

  lemma FirstEnd()
    ensures TerminalState(FirstBoard(6)) == Some(OpponentWin) && FinalScore(FirstBoard(6)) == Some(1.0)
  {
    var g := Columns(4, 3, 0);
    assert FourFrom(g, First, 0, 0, North);
    NarrowNoFour(g, Second);
  }

  lemma SecondEnd()
    ensures TerminalState(SecondBoard(7)) == Some(OpponentWin) && FinalScore(SecondBoard(7)) == Some(0.0)
  {
    var g := Columns(1, 4, 3);
    assert FourFrom(g, Second, 0, 1, North);
    NarrowNoFour(g, First);
  }

  /** The boards of games 1 and 2, from the opening in column 0. */
  function FirstBoard(i: nat): Grid
    requires i <= 6
  {
    Columns(1 + i / 2, (i + 1) / 2, 0)
  }

  function SecondBoard(i: nat): Grid
    requires i <= 7
  {
    Columns(1, (i + 1) / 2, i / 2)
  }

  lemma FirstStep(i: nat)
    requires i < 6
    ensures Low(FirstBoard(i)) && DrawnDrop(1, FirstBoard(i)) == FirstBoard(i + 1)
  {
    DropOnColumns(1 + i / 2, (i + 1) / 2, 0);
  }

  lemma SecondStep(i: nat)
    requires i < 7
    ensures Low(SecondBoard(i)) && DrawnDrop(2, SecondBoard(i)) == SecondBoard(i + 1)
  {
    DropOnColumns(1, (i + 1) / 2, i / 2);
  }

  lemma BoardsEnd(o: Options, id: nat, boards: seq<Grid>)
    requires DrawsSo(o) && boards != [] && TerminalState(boards[|boards| - 1]).Some?
    requires forall i: nat :: i + 1 < |boards| ==> Low(boards[i]) && DrawnDrop(id, boards[i]) == boards[i + 1]
    ensures DrawnEnd(o, id, boards[0]) == boards[|boards| - 1]
  {
    forall i: nat | i + 1 < |boards| ensures DrawnTo(o, id, boards[i], boards[i + 1]) {
      DrawOnce(o, id, boards[i]);
    }
    DrawnGameEnds(o, id, boards);
  }

  /** Game 1 ends with four of the first player's discs in column 0. */
  lemma FirstWins(o: Options)
    requires DrawsSo(o)
    ensures DrawnEnd(o, 1, FirstBoard(0)) == FirstBoard(6)
  {
    var boards := seq(7, i requires 0 <= i < 7 => FirstBoard(i));
    FirstEnd();
    forall i: nat | i + 1 < 7 ensures Low(boards[i]) && DrawnDrop(1, boards[i]) == boards[i + 1] {
      FirstStep(i);
    }
    BoardsEnd(o, 1, boards);
  }

  /** Game 2 ends with four of the second player's discs in column 1. */
  lemma SecondWins(o: Options)
    requires DrawsSo(o)
    ensures DrawnEnd(o, 2, SecondBoard(0)) == SecondBoard(7)
  {
    var boards := seq(8, i requires 0 <= i < 8 => SecondBoard(i));
    SecondEnd();
    forall i: nat | i + 1 < 8 ensures Low(boards[i]) && DrawnDrop(2, boards[i]) == boards[i + 1] {
      SecondStep(i);
    }
    BoardsEnd(o, 2, boards);
  }

  /** On the opening in column 0 game 1 is won by whoever is player 0, and game 2 lost. */
  lemma DrawsDecide(o: Options, evaluate: Evaluator, a: nat, b: nat)
    requires DrawsSo(o) && ValidEvaluator(evaluate)
    ensures EnginePlay(o, evaluate)(1, [0], a, b) == 1.0 && EnginePlay(o, evaluate)(2, [0], a, b) == 0.0
  {
    var g := Columns(1, 0, 0);
    DropOnColumns(0, 0, 0);
    assert EMPTY == Columns(0, 0, 0);
    assert [0][1..] == [];
    assert Play(EMPTY, [0]) == Some(g);
    OneIterationIgnoresPlayers(o, evaluate, 1, [0], g, a, b);
    OneIterationIgnoresPlayers(o, evaluate, 2, [0], g, a, b);
    FirstWins(o);
    FirstEnd();
    SecondWins(o);
    SecondEnd();
  }

  /**
   The first pair on the opening in column 0, with one iteration and these draws: whoever the candidate is
   wins both its games, and exchanging the roles leaves the pair in the top bin instead of reflecting it.
   */
  lemma RolesNotReversed(o: Options, evaluate: Evaluator, candidate: nat, champion: nat, scores: seq<real>,
                         reversed: seq<real>)
    requires DrawsSo(o) && ValidEvaluator(evaluate)
    requires PairScores(EnginePlay(o, evaluate), candidate, champion, [[0]], 1, scores)
    requires PairScores(EnginePlay(o, evaluate), champion, candidate, [[0]], 1, reversed)
    ensures scores == reversed == [1.0, 1.0] && PairBins(scores) == [4]
  {
    DrawsDecide(o, evaluate, candidate, champion);
    DrawsDecide(o, evaluate, champion, candidate);
    BothWon(EnginePlay(o, evaluate), candidate, champion, scores);
    BothWon(EnginePlay(o, evaluate), champion, candidate, reversed);
  }

  lemma BothWon(play: PlayGame, a: nat, b: nat, scores: seq<real>)
    requires play(1, [0], a, b) == 1.0 && play(2, [0], b, a) == 0.0 && PairScores(play, a, b, [[0]], 1, scores)
    ensures scores == [1.0, 1.0] && PairBins(scores) == [4]
  {
    assert PairAt(play, a, b, [[0]], scores, 0);
  }

  /** Such a configuration exists. */
  lemma DrawsExist() returns (o: Options)
    ensures DrawsSo(o)
  {
    var prm := Params(1.0, 0.0, x => 0.0, x => 0.0, x => 1.0, (x, y) => x);
    o := Options(prm, 1, 0.0, 0.0, 0, 0, 0.0, 0.0, 0.0, (id, root) => UNIFORM,
                 (id, ply) => Middle(DrawnColumn(id, ply)));
  }
}
