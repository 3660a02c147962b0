/**
 The interactive session object of `cpp/src/interactive.cpp`: the fields under its lock and one method
 for each critical section, each proved to be the corresponding step of Interactive.dfy.
 */
module InteractiveSessions {
  import opened Board
  import opened Policies
  import opened SearchTree
  import opened Games
  import opened SelfPlayGames
  import opened MctsGames
  import opened Interactive
  import Positions
  import WinTests
  import Rng

  class InteractivePlay {
    const setup: Setup
    const game: MctsGame
    var limit: nat
    var error: bool
    var running: bool
    var revision: nat
    var background: Background
    /** The calls blocked on the condition variable: threads' own state, not a field of the source. */
    ghost var waiting: seq<Call>

    ghost function State(): Interactive.State
      reads this, game
    {
      Interactive.State(game.State(), limit, error, running, revision, background, waiting)
    }

    /** What the critical sections need of the game object. */
    ghost predicate LockedValid()
      reads game
    {
      game.Valid() && Sound(game.State())
    }

    ghost predicate Valid()
      reads this, game
    {
      Interactive.Valid(setup, State())
    }

    constructor (setup: Setup, opening: Grid, limit: nat)
      requires limit > 0 && TerminalState(opening).None?
      ensures Valid() && fresh(game)
      ensures State() == Start(opening, limit)
    {
      this.setup := setup;
      game := new MctsGame(opening);
      this.limit, error, running, revision, background := limit, false, true, 0, AtLoop;
      waiting := [];
      new;
      StartValid(setup, opening, limit);
    }

    method RootTerminal() returns (terminal: bool)
      requires Valid()
      ensures terminal <==> TerminalState(RootPosition(game.State())).Some?
    {
      var pos := game.nodes[game.root].pos;
      var outcome := WinTests.ComputeTerminalState(Positions.Encode(pos));
      WinTests.TerminalRefines(pos);
      terminal := outcome.Some?;
    }

    /** `should_search_locked`. */
    method ShouldSearchLocked() returns (search: bool)
      requires LockedValid()
      ensures search <==> ShouldSearch(State())
    {
      var pos := game.nodes[game.root].pos;
      var outcome := WinTests.ComputeTerminalState(Positions.Encode(pos));
      WinTests.TerminalRefines(pos);
      search := !error && game.nodes[game.root].visits < limit && outcome.None?;
    }

    /** `signal_search_locked`. */
    method SignalSearchLocked()
      requires LockedValid()
      modifies this`running
      ensures State() == Signalled(old(State()))
    {
      running := ShouldSearchLocked();
    }

    /** The end of every change: a new revision, and the search is signalled. */
    method BumpAndSignal()
      requires LockedValid()
      modifies this`revision, this`running
      ensures State() == Bumped(old(State()))
    {
      revision := revision + 1;
      SignalSearchLocked();
    }

    /** The background thread takes a leaf to evaluate and leaves the lock. */
    method StartEvaluation()
      requires Valid() && Enabled(State(), BackgroundStart)
      modifies this`background, this`running
      ensures Valid() && State() == Interactive.Step(setup, old(State()), BackgroundStart).0
    {
      StepKeepsValid(setup, State(), BackgroundStart);
      var leaf := game.nodes[game.leaf].pos;
      running := true;
      background := Evaluating(revision, leaf, Model(setup.meta, leaf));
    }

    /**
     The background thread is back under the lock, with a result or a failure. The evaluator is a pure
     function, so calling it here rather than outside the lock makes no difference.
     */
    method FinishEvaluation(failed: bool)
      requires Valid() && background.Evaluating?
      modifies this`background, this`running, this`error, game
      ensures Valid() && State() == Interactive.Step(setup, old(State()), BackgroundFinish(failed)).0
    {
      ghost var before := State();
      StepKeepsValid(setup, before, BackgroundFinish(failed));
      var job := background;
      background := AtLoop;
      if job.revision != revision {
        return;
      }
      var e := setup.evaluate(job.model, job.leaf);
      var outcome := WinTests.ComputeTerminalState(Positions.Encode(job.leaf));
      WinTests.TerminalRefines(job.leaf);
      var ok := !failed && (outcome.Some? || HasFiniteLegalLogit(job.leaf, e.policy));
      if ok {
        ok := game.ReceiveEvaluation(setup.prm, e, SILENT);
      }
      if !ok {
        error, running := true, false;
        return;
      }
      ghost var next := State();
      assert next == before.(background := AtLoop, game := Receive(setup.prm, before.game, e, SILENT).value);
      var search := ShouldSearchLocked();
      if !search {
        running := false;
      }
      assert State() == if ShouldSearch(next) then next else next.(running := false);
    }

    method IncreaseIterations(count: nat) returns (reply: Reply)
      requires Valid()
      modifies this`limit, this`running
      ensures Valid() && (State(), reply) == Interactive.Step(setup, old(State()), Increase(count))
    {
      StepKeepsValid(setup, State(), Increase(count));
      if error {
        return Threw;
      }
      limit := limit + count;
      SignalSearchLocked();
      reply := Returned(true);
    }

    method MakePlay(call: Call) returns (ok: bool)
      requires LockedValid()
      modifies game
      ensures LockedValid()
      ensures ok <==> Played(setup, old(game.State()), call).Some?
      ensures game.State() == if ok then Played(setup, old(game.State()), call).value else old(game.State())
    {
      match call {
        case MoveCall(move) => ok := game.MakeMove(setup.prm, move);
        case RandomCall(temperature, uniform) => ok := game.MakeRandomMove(setup.prm, temperature, uniform);
      }
    }

    /** The move itself, once the root may be left. */
    method Play(call: Call) returns (reply: Reply)
      requires LockedValid()
      modifies this`revision, this`running, game
      ensures LockedValid() && (State(), reply) == AfterPlay(setup, old(State()), call)
    {
      ghost var before := State();
      var ok := MakePlay(call);
      if !ok {
        return Threw;
      }
      assert State() == before.(game := game.State());
      BumpAndSignal();
      reply := Returned(true);
    }

    /** `make_move` and `make_random_move` up to the point where they may have to wait. */
    method Begin(call: Call) returns (reply: Reply)
      requires Valid()
      modifies this`revision, this`running, this`waiting, game
      ensures Valid() && (State(), reply) == Interactive.Step(setup, old(State()), StartCall(call))
    {
      StepKeepsValid(setup, State(), StartCall(call));
      if call.RandomCall? && call.temperature < 0.0 {
        return Threw;
      }
      if error {
        return Threw;
      }
      var pos := game.nodes[game.root].pos;
      var terminal := RootTerminal();
      if terminal || (call.MoveCall? && !Legal(pos, call.move)) {
        return Returned(false);
      }
      if game.nodes[game.root].visits != 0 {
        reply := Play(call);
      } else {
        waiting := waiting + [call];
        reply := Waits;
      }
    }

    /** A waiting call that has been woken: the error is rethrown before the game is touched. */
    method Resume(call: Call, ghost index: nat) returns (reply: Reply)
      requires Valid() && Enabled(State(), ResumeCall(index)) && waiting[index] == call
      modifies this`revision, this`running, this`waiting, game
      ensures Valid() && (State(), reply) == Interactive.Step(setup, old(State()), ResumeCall(index))
    {
      StepKeepsValid(setup, State(), ResumeCall(index));
      waiting := waiting[..index] + waiting[index + 1..];
      if error {
        return Threw;
      }
      reply := Play(call);
    }

    method MakeBestMoveIfReady(uniform: Rng.Uniform) returns (reply: Reply)
      requires Valid()
      modifies this`revision, this`running, game
      ensures Valid() && (State(), reply) == Interactive.Step(setup, old(State()), BestMove(uniform))
    {
      StepKeepsValid(setup, State(), BestMove(uniform));
      if error {
        return Threw;
      }
      var terminal := RootTerminal();
      if terminal || game.nodes[game.root].visits < limit {
        return Returned(false);
      }
      reply := Play(RandomCall(0.0, uniform));
    }

    method ClearGame()
      requires LockedValid()
      modifies this`error, game
      ensures LockedValid() && State() == old(State()).(error := false, game := Games.Reset(old(game.State())))
    {
      error := false;
      game.Reset();
      WellFormedSound(game.State());
    }

    method Reset() returns (reply: Reply)
      requires Valid()
      modifies this`error, this`revision, this`running, game
      ensures Valid() && (State(), reply) == Interactive.Step(setup, old(State()), ResetGame)
    {
      ghost var before := State();
      StepKeepsValid(setup, before, ResetGame);
      ClearGame();
      BumpAndSignal();
      reply := Returned(true);
    }

    /** Without a history the error is cleared and the revision bumped, but nothing is signalled. */
    method Undo() returns (reply: Reply)
      requires Valid()
      modifies this`error, this`revision, this`running, game
      ensures Valid() && (State(), reply) == Interactive.Step(setup, old(State()), Action.UndoMove)
    {
      StepKeepsValid(setup, State(), Action.UndoMove);
      error := false;
      var undone := game.UndoMove();
      WellFormedSound(game.State());
      if undone {
        BumpAndSignal();
      } else {
        revision := revision + 1;
      }
      reply := Returned(undone);
    }

    method RetryEvaluation() returns (reply: Reply)
      requires Valid()
      modifies this`error, this`revision, this`running
      ensures Valid() && (State(), reply) == Interactive.Step(setup, old(State()), Retry)
    {
      StepKeepsValid(setup, State(), Retry);
      error := false;
      BumpAndSignal();
      reply := Returned(true);
    }
  }
}
