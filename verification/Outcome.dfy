/**
 The result of a finished game: `MctsGame::to_result` of `cpp/src/mcts.cpp` and
 `GameResult::player0_score` of `cpp/src/position.cpp`.
 */
module Outcomes {
  import opened Board
  import opened Policies
  import opened SearchTree
  import opened Games

  datatype Sample = Sample(pos: Grid, policy: Policy, q: Values)

  /** One sample per recorded move, with alternating sign back from the end. */
  function MoveSamples(moves: seq<Recorded>, v: Values): (samples: seq<Sample>)
    ensures |samples| == |moves|
  {
    seq(|moves|, i requires 0 <= i < |moves| => Sample(moves[i].pos, moves[i].policy, Signed(v, |moves| - i)))
  }

  /** The samples of the moves and one for the final position. */
  function Samples(moves: seq<Recorded>, last: Grid, v: Values): (samples: seq<Sample>)
    ensures |samples| == |moves| + 1
  {
    MoveSamples(moves, v) + [Sample(last, UNIFORM, v)]
  }

  /** `to_result`; `None` is the exception for an unfinished game. */
  ghost function ToResult(plyPenalty: real, g: Game): Option<seq<Sample>>
    requires Sound(g)
  {
    match TerminalValues(RootPosition(g), plyPenalty)
    case None => None
    case Some(v) => Some(Samples(g.moves, RootPosition(g), v))
  }

  function ScoreOf(outcome: Terminal): real {
    match outcome case PlayerWin => 1.0 case OpponentWin => 0.0 case Draw => 0.5
  }

  /** `player0_score`: from the first terminal sample. */
  ghost function Player0Score(samples: seq<Sample>): Option<real> {
    if samples == [] then None
    else match TerminalState(samples[0].pos)
      case None => Player0Score(samples[1..])
      case Some(outcome) =>
        Some(if Ply(samples[0].pos) % 2 == 1 then 1.0 - ScoreOf(outcome) else ScoreOf(outcome))
  }

  /** The value seen by the first player. */
  function Alternating(x: real, ply: nat): real {
    if ply % 2 == 0 then x else -x
  }

  lemma {:induction false} FirstTerminal(samples: seq<Sample>)
    requires samples != [] && TerminalState(samples[|samples| - 1].pos).Some?
    requires forall i :: 0 <= i < |samples| - 1 ==> TerminalState(samples[i].pos).None?
    ensures Player0Score(samples) == Player0Score([samples[|samples| - 1]])
  {
    if |samples| > 1 {
      FirstTerminal(samples[1..]);
      assert samples[1..][|samples| - 2] == samples[|samples| - 1];
      assert TerminalState(samples[0].pos).None?;
    } else {
      assert samples == [samples[0]];
    }
  }

  lemma SamplePlayed(eval: Grid -> Evaluation, plyPenalty: real, g: Game, v: Values, i: nat)
    requires Inv(eval, plyPenalty, g) && Sound(g) && i <= |g.moves|
    ensures Play(g.start, g.root[..i]) == Some(Samples(g.moves, RootPosition(g), v)[i].pos)
  {
    if i == |g.moves| {
      BoardIsReplay(eval, plyPenalty, g);
      assert g.root[..i] == g.root;
    } else {
      assert Samples(g.moves, RootPosition(g), v)[i] == MoveSamples(g.moves, v)[i];
      assert Play(g.start, g.root[..i]) == Some(g.moves[i].pos);
    }
  }

  lemma SamplePosition(eval: Grid -> Evaluation, plyPenalty: real, g: Game, v: Values, i: nat)
    requires Inv(eval, plyPenalty, g) && Sound(g) && i <= |g.moves|
    ensures var samples := Samples(g.moves, RootPosition(g), v);
            && Play(g.start, g.root[..i]) == Some(samples[i].pos)
            && Ply(samples[i].pos) + (|g.moves| - i) == Ply(RootPosition(g))
  {
    SamplePlayed(eval, plyPenalty, g, v, i);
    SamplePlayed(eval, plyPenalty, g, v, |g.moves|);
    assert |g.root[..i]| == i && |g.root[..|g.moves|]| == |g.moves|;
  }

  lemma PlayStep(start: Grid, p: Path, i: nat, before: Grid, after: Grid)
    requires i < |p| && Play(start, p[..i]) == Some(before) && Play(start, p[..i + 1]) == Some(after)
    ensures Legal(before, p[i]) && after == Drop(before, p[i])
  {
    assert p[..i + 1] == p[..i] + [p[i]];
    PlaySnoc(start, p[..i], p[i]);
  }

  lemma SampleStep(eval: Grid -> Evaluation, plyPenalty: real, g: Game, v: Values, i: nat)
    requires Inv(eval, plyPenalty, g) && Sound(g) && i < |g.moves|
    ensures StepsTo(Samples(g.moves, RootPosition(g), v), g.moves, i)
  {
    var samples := Samples(g.moves, RootPosition(g), v);
    SamplePosition(eval, plyPenalty, g, v, i);
    SamplePosition(eval, plyPenalty, g, v, i + 1);
    PlayStep(g.start, g.root, i, samples[i].pos, samples[i + 1].pos);
  }

  /** Move `i` was played in sample `i` and leads to sample `i + 1`. */
  ghost predicate StepsTo(samples: seq<Sample>, moves: seq<Recorded>, i: nat)
    requires |samples| == |moves| + 1 && i < |moves|
  {
    && TerminalState(samples[i].pos).None?
    && Legal(samples[i].pos, moves[i].move)
    && samples[i + 1].pos == Drop(samples[i].pos, moves[i].move)
  }

  /** The samples replay legally from the start; the last one, and only it, is terminal. */
  lemma SamplesReplay(eval: Grid -> Evaluation, plyPenalty: real, g: Game)
    requires Inv(eval, plyPenalty, g) && Sound(g) && ToResult(plyPenalty, g).Some?
    ensures var samples := ToResult(plyPenalty, g).value;
            && |samples| == |g.moves| + 1
            && samples[0].pos == g.start
            && samples[|g.moves|].pos == RootPosition(g) && TerminalState(RootPosition(g)).Some?
            && forall i :: 0 <= i < |g.moves| ==> StepsTo(samples, g.moves, i)
  {
    var v := TerminalValues(RootPosition(g), plyPenalty).value;
    SamplePosition(eval, plyPenalty, g, v, 0);
    assert g.root[..0] == [];
    forall i: nat | i < |g.moves| ensures StepsTo(ToResult(plyPenalty, g).value, g.moves, i) {
      SampleStep(eval, plyPenalty, g, v, i);
    }
  }

  lemma SignedAlternates(v: Values, distance: nat, ply: nat)
    ensures Alternating(Signed(v, distance).pen, ply) == Alternating(v.pen, ply + distance)
    ensures Alternating(Signed(v, distance).noPen, ply) == Alternating(v.noPen, ply + distance)
  {
  }

  lemma FinalScore(pos: Grid, plyPenalty: real, policy: Policy)
    requires TerminalValues(pos, plyPenalty).Some?
    ensures var v := TerminalValues(pos, plyPenalty).value;
            && Player0Score([Sample(pos, policy, v)]).Some?
            && Alternating(v.noPen, Ply(pos)) == 2.0 * Player0Score([Sample(pos, policy, v)]).value - 1.0
  {
  }

  lemma ScoreOfGame(eval: Grid -> Evaluation, plyPenalty: real, g: Game, v: Values)
    requires Inv(eval, plyPenalty, g) && Sound(g) && TerminalValues(RootPosition(g), plyPenalty) == Some(v)
    ensures var samples := Samples(g.moves, RootPosition(g), v);
            && Player0Score(samples).Some?
            && Alternating(v.noPen, Ply(RootPosition(g))) == 2.0 * Player0Score(samples).value - 1.0
  {
    var samples := Samples(g.moves, RootPosition(g), v);
    forall i | 0 <= i < |samples| - 1 ensures TerminalState(samples[i].pos).None? {
      SampleStep(eval, plyPenalty, g, v, i);
    }
    FirstTerminal(samples);
    FinalScore(RootPosition(g), plyPenalty, UNIFORM);
  }

  /**
   Outcome consistency: every sample carries the same outcome, seen from the player to move. Without
   the penalty it is twice player 0's score minus one; with it, it alternates the same way.
   */
  lemma OutcomeConsistent(eval: Grid -> Evaluation, plyPenalty: real, g: Game, i: nat)
    requires Inv(eval, plyPenalty, g) && Sound(g) && ToResult(plyPenalty, g).Some? && i <= |g.moves|
    ensures var samples := ToResult(plyPenalty, g).value;
            var last := samples[|g.moves|];
            && Player0Score(samples).Some?
            && Alternating(samples[i].q.noPen, Ply(samples[i].pos)) == 2.0 * Player0Score(samples).value - 1.0
            && Alternating(samples[i].q.pen, Ply(samples[i].pos)) == Alternating(last.q.pen, Ply(last.pos))
  {
    var v := TerminalValues(RootPosition(g), plyPenalty).value;
    ScoreOfGame(eval, plyPenalty, g, v);
    SampleAlternates(eval, plyPenalty, g, v, i);
  }

  lemma SampleAlternates(eval: Grid -> Evaluation, plyPenalty: real, g: Game, v: Values, i: nat)
    requires Inv(eval, plyPenalty, g) && Sound(g) && i <= |g.moves|
    ensures AlternatesFrom(Samples(g.moves, RootPosition(g), v)[i], v, Ply(RootPosition(g)))
  {
    SamplePosition(eval, plyPenalty, g, v, i);
    SampleValue(g.moves, RootPosition(g), v, i);
    AlternatesAt(Samples(g.moves, RootPosition(g), v)[i], v, |g.moves| - i, Ply(RootPosition(g)));
  }

  lemma SampleValue(moves: seq<Recorded>, last: Grid, v: Values, i: nat)
    requires i <= |moves|
    ensures Samples(moves, last, v)[i].q == Signed(v, |moves| - i)
  {
  }

  /** The sample's values, seen by the first player, are those of the final position. */
  predicate AlternatesFrom(sample: Sample, v: Values, ply: nat) {
    && Alternating(sample.q.noPen, Ply(sample.pos)) == Alternating(v.noPen, ply)
    && Alternating(sample.q.pen, Ply(sample.pos)) == Alternating(v.pen, ply)
  }

  lemma AlternatesAt(sample: Sample, v: Values, distance: nat, ply: nat)
    requires sample.q == Signed(v, distance) && Ply(sample.pos) + distance == ply
    ensures AlternatesFrom(sample, v, ply)
  {
    SignedAlternates(v, distance, Ply(sample.pos));
  }
}
