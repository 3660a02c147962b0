/**
 Interactive play (`cpp/src/interactive.cpp`): user calls and one background evaluator share a game
 under a lock. Each action here is one critical section; the background thread is outside the lock
 only while it evaluates, and user calls only while they wait for the root to be expanded.
 */
module Interactive {
  import opened Board
  import opened Policies
  import opened SearchTree
  import opened Games
  import opened SelfPlayGames
  import Rng

  /** Between critical sections the background thread is at its loop head or evaluating a leaf. */
  datatype Background = AtLoop | Evaluating(revision: nat, leaf: Grid, model: nat)

  /** A user call that waits for the root's first evaluation. */
  datatype Call = MoveCall(move: nat) | RandomCall(temperature: real, uniform: Rng.Uniform)

  datatype State = State(game: Game, limit: nat, error: bool, running: bool, revision: nat,
                         background: Background, waiting: seq<Call>)

  /** What never changes: the metadata, the coefficients and the evaluator. */
  datatype Setup = Setup(meta: Metadata, prm: Params, evaluate: Evaluator)

  const SILENT := Noise(0.0, 0.0, ZEROS)

  ghost predicate ShouldSearch(s: State) {
    Sound(s.game) && !s.error && RootVisits(s.game) < s.limit && TerminalState(RootPosition(s.game)).None?
  }

  /** `signal_search_locked`. */
  ghost function Signalled(s: State): State {
    s.(running := ShouldSearch(s))
  }

  /** The end of every change by a user call: a new revision, and the search is signalled. */
  ghost function Bumped(s: State): State {
    Signalled(s.(revision := s.revision + 1))
  }

  datatype Action =
    | BackgroundStart
    | BackgroundIdle
    | BackgroundFinish(failed: bool)
    | Increase(count: nat)
    | StartCall(call: Call)
    | ResumeCall(index: nat)
    | BestMove(uniform: Rng.Uniform)
    | ResetGame
    | UndoMove
    | Retry

  /** What the caller sees; `Waits` means the call has joined `waiting`. */
  datatype Reply = Threw | Returned(done: bool) | Waits | NoReply

  ghost function Played(setup: Setup, g: Game, call: Call): Option<Game>
    requires Sound(g)
  {
    match call
    case MoveCall(move) => MakeMove(setup.prm, g, move)
    case RandomCall(temperature, uniform) => MakeRandomMove(setup.prm, g, temperature, uniform)
  }

  /** The checks before a call may wait: `make_move` refuses a move that is illegal now. */
  ghost predicate Refused(s: State, call: Call)
    requires Sound(s.game)
  {
    || TerminalState(RootPosition(s.game)).Some?
    || (call.MoveCall? && !Legal(RootPosition(s.game), call.move))
  }

  ghost predicate RootReady(s: State)
    requires Sound(s.game)
  {
    RootVisits(s.game) != 0 || TerminalState(RootPosition(s.game)).Some?
  }

  ghost predicate Enabled(s: State, a: Action) {
    Sound(s.game) &&
    match a
    case BackgroundStart => s.background.AtLoop? && ShouldSearch(s)
    case BackgroundIdle => s.background.AtLoop? && !ShouldSearch(s)
    case BackgroundFinish(_) => s.background.Evaluating?
    case ResumeCall(index) => index < |s.waiting| && (s.error || RootReady(s))
    case _ => true
  }

  /** Playing bumps the revision; a throwing call leaves everything as it was. */
  ghost function AfterPlay(setup: Setup, s: State, call: Call): (State, Reply)
    requires Sound(s.game)
  {
    match Played(setup, s.game, call)
    case None => (s, Threw)
    case Some(g) => (Bumped(s.(game := g)), Returned(true))
  }

  /** The end of an evaluation: dropped when the revision has moved on, an error, or applied. */
  ghost function AfterEvaluating(setup: Setup, s: State, failed: bool): State
    requires Sound(s.game) && s.background.Evaluating?
  {
    var done := s.(background := AtLoop);
    if s.background.revision != s.revision then done
    else
      var e := setup.evaluate(s.background.model, s.background.leaf);
      var received := if failed || !Usable(s.background.leaf, e) then None else Receive(setup.prm, s.game, e, SILENT);
      match received
      case None => done.(error := true, running := false)
      case Some(g) =>
        var next := done.(game := g);
        if ShouldSearch(next) then next else next.(running := false)
  }

  ghost function Step(setup: Setup, s: State, a: Action): (State, Reply)
    requires Enabled(s, a)
  {
    match a
    case BackgroundStart =>
      var leaf := LeafPosition(s.game);
      (s.(background := Evaluating(s.revision, leaf, Model(setup.meta, leaf)), running := true), NoReply)
    case BackgroundIdle => (s.(running := false), NoReply)
    case BackgroundFinish(failed) => (AfterEvaluating(setup, s, failed), NoReply)
    case Increase(count) => if s.error then (s, Threw) else (Signalled(s.(limit := s.limit + count)), Returned(true))
    case StartCall(call) =>
      if call.RandomCall? && call.temperature < 0.0 then (s, Threw)
      else if s.error then (s, Threw)
      else if Refused(s, call) then (s, Returned(false))
      else if RootReady(s) then AfterPlay(setup, s, call)
      else (s.(waiting := s.waiting + [call]), Waits)
    case ResumeCall(index) =>
      var woken := s.(waiting := s.waiting[..index] + s.waiting[index + 1..]);
      if s.error then (woken, Threw) else AfterPlay(setup, woken, s.waiting[index])
    case BestMove(uniform) =>
      if s.error then (s, Threw)
      else if TerminalState(RootPosition(s.game)).Some? || RootVisits(s.game) < s.limit then (s, Returned(false))
      else AfterPlay(setup, s, RandomCall(0.0, uniform))
    case ResetGame => (Bumped(s.(error := false, game := Reset(s.game))), Returned(true))
    case UndoMove =>
      var undone := s.(error := false, game := Undo(s.game));
      if s.game.moves == [] then (undone.(revision := s.revision + 1), Returned(false))
      else (Bumped(undone), Returned(true))
    case Retry => (Bumped(s.(error := false)), Returned(true))
  }

  /** A running evaluation whose revision is current is for the current leaf and its model. */
  ghost predicate Fresh(setup: Setup, s: State)
    requires Sound(s.game)
  {
    s.background.Evaluating? ==>
      && s.background.revision <= s.revision
      && (s.background.revision == s.revision ==>
            s.background.leaf == LeafPosition(s.game) && s.background.model == Model(setup.meta, LeafPosition(s.game)))
  }

  ghost predicate Valid(setup: Setup, s: State) {
    && Inv(EvalFor(setup.evaluate, setup.meta), setup.prm.plyPenalty, s.game)
    && Sound(s.game) && Fresh(setup, s)
  }

  function Start(opening: Grid, limit: nat): State {
    State(NewGame(opening), limit, false, true, 0, AtLoop, [])
  }

  lemma StartValid(setup: Setup, opening: Grid, limit: nat)
    ensures Valid(setup, Start(opening, limit))
  {
    NewGameInv(EvalFor(setup.evaluate, setup.meta), setup.prm.plyPenalty, opening);
  }

  /** An applied result is the evaluator's own for the current leaf and its model. */
  lemma AppliedIsOwn(setup: Setup, s: State)
    requires Valid(setup, s) && s.background.Evaluating? && s.background.revision == s.revision
    ensures setup.evaluate(s.background.model, s.background.leaf)
         == setup.evaluate(Model(setup.meta, LeafPosition(s.game)), LeafPosition(s.game))
    ensures setup.evaluate(s.background.model, s.background.leaf)
         == EvalFor(setup.evaluate, setup.meta)(LeafPosition(s.game))
  {
  }

  lemma EvaluatingKeepsValid(setup: Setup, s: State, failed: bool)
    requires Valid(setup, s) && s.background.Evaluating?
    ensures Valid(setup, AfterEvaluating(setup, s, failed))
  {
    var eval := EvalFor(setup.evaluate, setup.meta);
    if s.background.revision == s.revision {
      AppliedIsOwn(setup, s);
      var e := setup.evaluate(s.background.model, s.background.leaf);
      if !failed && Usable(s.background.leaf, e) && Receive(setup.prm, s.game, e, SILENT).Some? {
        ReceiveInv(setup.prm, eval, s.game, SILENT);
        InvSound(eval, setup.prm.plyPenalty, Receive(setup.prm, s.game, e, SILENT).value);
      }
    }
  }

  lemma PlayKeepsValid(setup: Setup, s: State, call: Call)
    requires Valid(setup, s)
    ensures Valid(setup, AfterPlay(setup, s, call).0)
  {
    var eval := EvalFor(setup.evaluate, setup.meta);
    match call {
      case MoveCall(move) => MakeMoveInv(setup.prm, eval, s.game, move);
      case RandomCall(temperature, uniform) =>
        match RandomColumn(setup.prm, RootPolicy(s.game), RootPosition(s.game), temperature, uniform) {
          case None =>
          case Some(move) => MakeMoveInv(setup.prm, eval, s.game, move);
        }
    }
  }

  lemma UndoKeepsValid(setup: Setup, s: State)
    requires Valid(setup, s)
    ensures Inv(EvalFor(setup.evaluate, setup.meta), setup.prm.plyPenalty, Undo(s.game)) && Sound(Undo(s.game))
    ensures Inv(EvalFor(setup.evaluate, setup.meta), setup.prm.plyPenalty, Reset(s.game)) && Sound(Reset(s.game))
  {
    var eval := EvalFor(setup.evaluate, setup.meta);
    UndoInv(eval, setup.prm.plyPenalty, s.game);
    ResetInv(eval, setup.prm.plyPenalty, s.game);
    InvSound(eval, setup.prm.plyPenalty, Undo(s.game));
    InvSound(eval, setup.prm.plyPenalty, Reset(s.game));
  }

  /** Every critical section keeps the invariant: every change of the game bumps the revision or ends the evaluation. */
  lemma StepKeepsValid(setup: Setup, s: State, a: Action)
    requires Valid(setup, s) && Enabled(s, a)
    ensures Valid(setup, Step(setup, s, a).0)
  {
    match a {
      case BackgroundFinish(failed) => EvaluatingKeepsValid(setup, s, failed);
      case StartCall(call) => PlayKeepsValid(setup, s, call);
      case ResumeCall(index) =>
        PlayKeepsValid(setup, s.(waiting := s.waiting[..index] + s.waiting[index + 1..]), s.waiting[index]);
      case BestMove(uniform) => PlayKeepsValid(setup, s, RandomCall(0.0, uniform));
      case ResetGame => UndoKeepsValid(setup, s);
      case UndoMove => UndoKeepsValid(setup, s);
      case _ =>
    }
  }

  /**
   A call that throws or returns false changes neither the game nor the iteration limit. It leaves revision
   and error alone too, unless it is an undo: that fails exactly on an empty history, and then it clears
   the error and bumps the revision all the same.
   */
  lemma FailedCallKeepsGame(setup: Setup, s: State, a: Action)
    requires Enabled(s, a)
    requires Step(setup, s, a).1 == Threw || Step(setup, s, a).1 == Returned(false)
    ensures var t := Step(setup, s, a).0;
            && t.game == s.game && t.limit == s.limit
            && (if a.UndoMove? then s.game.moves == [] && !t.error && t.revision == s.revision + 1
                else t.error == s.error && t.revision == s.revision)
  {
  }

  /** Any change of the game by a user call is visible in the revision. */
  lemma GameChangesBumpRevision(setup: Setup, s: State, a: Action)
    requires Enabled(s, a) && !a.BackgroundFinish? && Step(setup, s, a).0.game != s.game
    ensures Step(setup, s, a).0.revision == s.revision + 1
  {
  }

  // ----- whole runs -----------------------------------------------------------------------------

  ghost function Run(setup: Setup, s: State, actions: seq<Action>): Option<State>
    decreases |actions|
  {
    if actions == [] then Some(s)
    else if Enabled(s, actions[0]) then Run(setup, Step(setup, s, actions[0]).0, actions[1..])
    else None
  }

  lemma {:induction false} RunKeepsValid(setup: Setup, s: State, actions: seq<Action>)
    requires Valid(setup, s) && Run(setup, s, actions).Some?
    ensures Valid(setup, Run(setup, s, actions).value)
    decreases |actions|
  {
    if actions != [] {
      StepKeepsValid(setup, s, actions[0]);
      RunKeepsValid(setup, Step(setup, s, actions[0]).0, actions[1..]);
    }
  }

  /**
   No stale evaluation. After any interleaving of user calls with the background thread: if the next
   step applies a result, that result was computed for exactly the current leaf by its model; and the
   board is the replay of the move history from the opening.
   */
  lemma NoStaleEvaluation(setup: Setup, opening: Grid, limit: nat, actions: seq<Action>, failed: bool)
    requires Run(setup, Start(opening, limit), actions).Some?
    ensures var s := Run(setup, Start(opening, limit), actions).value;
            && Sound(s.game)
            && Play(s.game.start, s.game.root) == Some(RootPosition(s.game))
            && s.game.root == seq(|s.game.moves|, i requires 0 <= i < |s.game.moves| => s.game.moves[i].move)
            && (s.background.Evaluating? && AfterEvaluating(setup, s, failed).game != s.game ==>
                  s.background.leaf == LeafPosition(s.game)
                  && s.background.model == Model(setup.meta, LeafPosition(s.game)))
  {
    StartValid(setup, opening, limit);
    RunKeepsValid(setup, Start(opening, limit), actions);
    var s := Run(setup, Start(opening, limit), actions).value;
    BoardIsReplay(EvalFor(setup.evaluate, setup.meta), setup.prm.plyPenalty, s.game);
  }
}
