/**
 What the calls of interactive play do, said on the board and the visits: when a call succeeds, waits or
 throws, and which move it plays.
 */
module InteractiveCalls {
  import opened Board
  import opened SearchTree
  import opened Games
  import opened SelfPlayGames
  import opened Policies
  import opened Interactive
  import opened PolicyShape
  import Rng

  /** The game goes on and its root has been evaluated. */
  ghost predicate RootSearched(s: State)
    requires Sound(s.game)
  {
    TerminalState(RootPosition(s.game)).None? && RootVisits(s.game) > 0
  }

  lemma SearchedRootExpanded(setup: Setup, s: State)
    requires Valid(setup, s) && RootSearched(s)
    ensures s.game.nodes[s.game.root].expanded
  {
    RootBooks(EvalFor(setup.evaluate, setup.meta), setup.prm.plyPenalty, s.game);
  }

  /** The root moves down column `col`. */
  predicate MovedDown(s: State, t: State, col: nat) {
    t.game.root == s.game.root + [col] && t.game.start == s.game.start && t.revision == s.revision + 1
  }

  /**
   A move call succeeds at once exactly when nothing failed before, the game goes on, the move is legal and the root
   has been visited, and plays that move; it waits exactly when only the visit is missing; it throws on an error.
   */
  lemma MoveCallPlays(setup: Setup, s: State, move: nat)
    requires Valid(setup, s) && Enabled(s, StartCall(MoveCall(move)))
    ensures var (t, reply) := Interactive.Step(setup, s, StartCall(MoveCall(move)));
            var open := TerminalState(RootPosition(s.game)).None? && Legal(RootPosition(s.game), move);
            && (reply == Returned(true) <==> !s.error && open && RootVisits(s.game) > 0)
            && (reply == Waits <==> !s.error && open && RootVisits(s.game) == 0)
            && (reply == Threw <==> s.error)
            && (reply == Returned(true) ==> MovedDown(s, t, move)) && (reply != Returned(true) ==> t.game == s.game)
  {
    MakeMoveInv(setup.prm, EvalFor(setup.evaluate, setup.meta), s.game, move);
    if RootSearched(s) {
      SearchedRootExpanded(setup, s);
    }
  }

  /** A move at temperature zero from a searched root. */
  lemma ColdMove(setup: Setup, g: Game, uniform: Rng.Uniform) returns (col: nat)
    requires Inv(EvalFor(setup.evaluate, setup.meta), setup.prm.plyPenalty, g) && Sound(g)
    requires IsPow(setup.prm.pow) && g.nodes[g.root].expanded
    ensures MostVisited(g, col) && MakeRandomMove(setup.prm, g, 0.0, uniform) == MakeMove(setup.prm, g, col)
    ensures MakeMove(setup.prm, g, col).Some?
    ensures var h := MakeMove(setup.prm, g, col).value; h.root == g.root + [col] && h.start == g.start
  {
    var eval := EvalFor(setup.evaluate, setup.meta);
    ColdMoveIsMostVisited(setup.prm, eval, g, uniform);
    col := RandomColumn(setup.prm, RootPolicy(g), RootPosition(g), 0.0, uniform).value;
    MakeMoveInv(setup.prm, eval, g, col);
  }

  lemma ColdPlay(setup: Setup, s: State, uniform: Rng.Uniform) returns (col: nat)
    requires Valid(setup, s) && IsPow(setup.prm.pow) && RootSearched(s)
    ensures MostVisited(s.game, col)
    ensures var (t, reply) := AfterPlay(setup, s, RandomCall(0.0, uniform));
            reply == Returned(true) && MovedDown(s, t, col)
  {
    SearchedRootExpanded(setup, s);
    col := ColdMove(setup, s.game, uniform);
    assert Played(setup, s.game, RandomCall(0.0, uniform)) == MakeMove(setup.prm, s.game, col);
  }

  /**
   The best move is played only once the search has reached its limit, and it is a most visited legal column; with
   a visited root at the limit and no error it is always played.
   */
  lemma BestMovePlaysMostVisited(setup: Setup, s: State, uniform: Rng.Uniform) returns (col: nat)
    requires Valid(setup, s) && Enabled(s, BestMove(uniform)) && IsPow(setup.prm.pow) && RootSearched(s)
    ensures MostVisited(s.game, col)
    ensures var (t, reply) := Interactive.Step(setup, s, BestMove(uniform));
            && (reply == Returned(true) <==> !s.error && RootVisits(s.game) >= s.limit)
            && (reply == Returned(true) ==> MovedDown(s, t, col)) && (reply != Returned(true) ==> t == s)
  {
    col := ColdPlay(setup, s, uniform);
  }

  /** A raised limit lets the search go on exactly while the root has fewer visits; an error refuses it. */
  lemma IncreaseRaisesLimit(setup: Setup, s: State, count: nat)
    requires Valid(setup, s) && Enabled(s, Increase(count))
    ensures var (t, reply) := Interactive.Step(setup, s, Increase(count));
            && t.game == s.game && (reply == Threw <==> s.error) && (s.error ==> t == s)
            && (!s.error ==> t.limit == s.limit + count)
            && (!s.error ==> (t.running <==> TerminalState(RootPosition(s.game)).None?
                                             && RootVisits(s.game) < s.limit + count))
  {
  }

  lemma {:induction false} UndoneGame(eval: Grid -> Evaluation, plyPenalty: real, g: Game)
    requires Inv(eval, plyPenalty, g) && g.moves != []
    ensures var h := Undo(g);
            && Sound(h) && h.root == Parent(g.root) && h.start == g.start && RootVisits(h) == 0
            && RootPosition(h) == g.moves[|g.moves| - 1].pos
  {
    UndoInv(eval, plyPenalty, g);
    InvSound(eval, plyPenalty, Undo(g));
  }

  lemma UndoStep(setup: Setup, s: State)
    requires Enabled(s, Action.UndoMove)
    ensures var (t, reply) := Interactive.Step(setup, s, Action.UndoMove);
            t.game == Undo(s.game) && !t.error && (reply == Returned(true) <==> s.game.moves != [])
  {
  }

  /** Undo goes back to the position of the last move, with a fresh root, and clears an error. */
  lemma {:induction false} UndoGoesBack(setup: Setup, s: State)
    requires Valid(setup, s) && Enabled(s, Action.UndoMove)
    ensures var (t, reply) := Interactive.Step(setup, s, Action.UndoMove);
            && !t.error && (reply == Returned(true) <==> s.game.moves != [])
            && (s.game.moves == [] ==> t.game == s.game)
            && (s.game.moves != [] ==> Sound(t.game) && t.game.root == Parent(s.game.root)
                                       && RootPosition(t.game) == s.game.moves[|s.game.moves| - 1].pos
                                       && RootVisits(t.game) == 0)
  {
    UndoStep(setup, s);
    if s.game.moves != [] {
      UndoneGame(EvalFor(setup.evaluate, setup.meta), setup.prm.plyPenalty, s.game);
    }
  }

  lemma {:induction false} ResetToStart(eval: Grid -> Evaluation, plyPenalty: real, g: Game)
    requires Inv(eval, plyPenalty, g)
    ensures Reset(g).root == [] && Reset(g).start == g.start
  {
    ResetInv(eval, plyPenalty, g);
  }

  /** Reset goes back to the start, and clears an error. */
  lemma {:induction false} ResetGoesHome(setup: Setup, s: State)
    requires Valid(setup, s) && Enabled(s, ResetGame)
    ensures var (t, reply) := Interactive.Step(setup, s, ResetGame);
            !t.error && reply == Returned(true) && t.game.root == [] && t.game.start == s.game.start
  {
    ResetToStart(EvalFor(setup.evaluate, setup.meta), setup.prm.plyPenalty, s.game);
  }

  /** A retry only clears the error. */
  lemma {:induction false} RetryClearsError(setup: Setup, s: State)
    requires Valid(setup, s) && Enabled(s, Retry)
    ensures var (t, reply) := Interactive.Step(setup, s, Retry);
            !t.error && reply == Returned(true) && t.game == s.game && t.limit == s.limit
  {
  }

  // ----- the end of an evaluation ---------------------------------------------------------------------

  /** Options with the coefficients of the setup, and no noise. */
  function QuietOptions(prm: Params): Options {
    Options(prm, 1, 0.0, 0.0, 0, 0, 0.0, 0.0, 0.0, (id, root) => ZEROS, (id, ply) => 0.0)
  }

  lemma UsableAccepted(setup: Setup, g: Game)
    requires Inv(EvalFor(setup.evaluate, setup.meta), setup.prm.plyPenalty, g) && Sound(g)
    requires IsExp(setup.prm.exp) && IsPow(setup.prm.pow)
    requires Usable(LeafPosition(g), EvalFor(setup.evaluate, setup.meta)(LeafPosition(g)))
    ensures var h := Receive(setup.prm, g, EvalFor(setup.evaluate, setup.meta)(LeafPosition(g)), SILENT);
            && h.Some? && Sound(h.value) && RootVisits(h.value) == RootVisits(g) + 1
            && RootPosition(h.value) == RootPosition(g)
  {
    ReceiveAccepts(QuietOptions(setup.prm), EvalFor(setup.evaluate, setup.meta), g, SILENT);
  }

  /**
   A finished evaluation of the current revision: a failure or an unusable result sets the error and stops the search
   without touching the game; a usable one adds one visit to the root. A stale one changes nothing.
   */
  lemma EvaluationEnds(setup: Setup, s: State, failed: bool)
    requires Valid(setup, s) && Enabled(s, BackgroundFinish(failed)) && IsExp(setup.prm.exp) && IsPow(setup.prm.pow)
    ensures var t := Interactive.Step(setup, s, BackgroundFinish(failed)).0;
            var usable := Usable(LeafPosition(s.game), EvalFor(setup.evaluate, setup.meta)(LeafPosition(s.game)));
            && t.background.AtLoop?
            && (s.background.revision != s.revision ==> t == s.(background := AtLoop))
            && (s.background.revision == s.revision && (failed || !usable) ==>
                  t.error && !t.running && t.game == s.game)
            && (s.background.revision == s.revision && !failed && usable ==>
                  t.error == s.error && Sound(t.game) && RootVisits(t.game) == RootVisits(s.game) + 1
                  && RootPosition(t.game) == RootPosition(s.game))
  {
    var g := s.game;
    if s.background.revision == s.revision {
      AppliedIsOwn(setup, s);
      if Usable(LeafPosition(g), EvalFor(setup.evaluate, setup.meta)(LeafPosition(g))) {
        UsableAccepted(setup, g);
      }
    }
  }

  /** Interactive search adds no noise: the leaf, root or not, has exactly the softmax priors of its evaluation. */
  lemma NoNoise(setup: Setup, g: Game, h: Game, policy: Policy, c: nat)
    requires Inv(EvalFor(setup.evaluate, setup.meta), setup.prm.plyPenalty, g) && Sound(g) && Legal(LeafPosition(g), c)
    requires TerminalState(LeafPosition(g)).None?
    requires var logits := EvalFor(setup.evaluate, setup.meta)(LeafPosition(g)).policy;
             Softmax(setup.prm.exp, MaskLogits(logits, LegalColumns(LeafPosition(g)))) == Some(policy)
    requires Receive(setup.prm, g, EvalFor(setup.evaluate, setup.meta)(LeafPosition(g)), SILENT) == Some(h)
    ensures g.leaf in h.nodes && h.nodes[g.leaf].expanded && h.nodes[g.leaf].priors[c] == policy[c]
  {
    var prm, eval := setup.prm, EvalFor(setup.evaluate, setup.meta);
    var update := LeafUpdate(prm, LeafPosition(g), g.leaf == g.root, eval(LeafPosition(g)), SILENT).value;
    UpdatedTree(prm, eval, g, SILENT, update);
    var t := Updated(g.nodes, g.leaf, update);
    ShapeShallow(g.start, g.root, t);
    ReselectedTree(prm, eval, g.start, g.root, t, g.moves);
    assert t[g.leaf].priors == ExpandNode(g.nodes[g.leaf], update.policy).priors;
  }
}
