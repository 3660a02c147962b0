/**
 What scores and terminal values say about the board: who has four in a row, and how soon.
 */
module OutcomeMeaning {
  import opened Board
  import opened SearchTree
  import opened Games
  import opened Outcomes

  /** A disc completes no line of the other player. */
  lemma DropMakesNoFour(g: Grid, col: int, d: Disc)
    requires Legal(g, col) && d != Mover(g) && !HasFour(g, d)
    ensures !HasFour(Drop(g, col), d)
  {
    var h := Drop(g, col);
    forall row: int, c: int, dir: Direction ensures !FourFrom(h, d, row, c, dir) {
      if FourFrom(h, d, row, c, dir) {
        CellsStay(g, col, d, row, c, dir);
      }
    }
  }

  lemma CellStays(g: Grid, col: int, d: Disc, row: int, c: int)
    requires Legal(g, col) && d != Mover(g) && Cell(Drop(g, col), row, c) == Some(d)
    ensures Cell(g, row, c) == Some(d)
  {
  }

  lemma CellsStay(g: Grid, col: int, d: Disc, row: int, c: int, dir: Direction)
    requires Legal(g, col) && d != Mover(g) && FourFrom(Drop(g, col), d, row, c, dir)
    ensures FourFrom(g, d, row, c, dir)
  {
    CellStays(g, col, d, row, c);
    CellStays(g, col, d, row + dir.Dr(), c + dir.Dc());
    CellStays(g, col, d, row + 2 * dir.Dr(), c + 2 * dir.Dc());
    CellStays(g, col, d, row + 3 * dir.Dr(), c + 3 * dir.Dc());
  }

  /** Who has won on a board reached by a move from an unfinished one. */
  ghost predicate OneWinner(g: Grid) {
    !(HasFour(g, First) && HasFour(g, Second))
  }

  lemma MoveHasOneWinner(g: Grid, col: int)
    requires TerminalState(g).None? && Legal(g, col)
    ensures OneWinner(Drop(g, col)) && !HasFour(Drop(g, col), Mover(g).Other())
  {
    DropMakesNoFour(g, col, Mover(g).Other());
  }

  lemma ScoreOfLast(samples: seq<Sample>)
    requires samples != [] && TerminalState(samples[|samples| - 1].pos).Some? && OneWinner(samples[|samples| - 1].pos)
    requires forall i :: 0 <= i < |samples| - 1 ==> TerminalState(samples[i].pos).None?
    ensures Player0Score(samples).Some?
    ensures var last, score := samples[|samples| - 1].pos, Player0Score(samples).value;
            && (score == 1.0 <==> HasFour(last, First)) && (score == 0.0 <==> HasFour(last, Second))
            && (score == 0.5 <==> Ply(last) == CELLS && !HasFour(last, First) && !HasFour(last, Second))
  {
    FirstTerminal(samples);
    ScoreOfOne(samples[|samples| - 1]);
  }

  lemma ScoreOfOne(sample: Sample)
    requires TerminalState(sample.pos).Some? && OneWinner(sample.pos)
    ensures Player0Score([sample]).Some?
    ensures var score := Player0Score([sample]).value;
            && (score == 1.0 <==> HasFour(sample.pos, First)) && (score == 0.0 <==> HasFour(sample.pos, Second))
            && (score == 0.5
                <==> Ply(sample.pos) == CELLS && !HasFour(sample.pos, First) && !HasFour(sample.pos, Second))
  {
  }

  /**
   A game that was played to its end: player 0 scores 1 exactly when the first player has four in a row on the
   final board, 0 exactly when the second has, and 1/2 exactly on a full board without.
   */
  lemma ScoreMeaning(eval: Grid -> Evaluation, plyPenalty: real, g: Game)
    requires Inv(eval, plyPenalty, g) && Sound(g) && g.moves != [] && ToResult(plyPenalty, g).Some?
    ensures var score, last := Player0Score(ToResult(plyPenalty, g).value), RootPosition(g);
            && score.Some? && (score.value == 1.0 <==> HasFour(last, First))
            && (score.value == 0.0 <==> HasFour(last, Second))
            && (score.value == 0.5 <==> Ply(last) == CELLS && !HasFour(last, First) && !HasFour(last, Second))
  {
    var samples := ToResult(plyPenalty, g).value;
    SamplesReplay(eval, plyPenalty, g);
    var n := |g.moves|;
    assert StepsTo(samples, g.moves, n - 1);
    MoveHasOneWinner(samples[n - 1].pos, g.moves[n - 1].move);
    forall i | 0 <= i < |samples| - 1 ensures TerminalState(samples[i].pos).None? {
      assert StepsTo(samples, g.moves, i);
    }
    ScoreOfLast(samples);
  }

  // ----- terminal values ----------------------------------------------------------------------------

  /** From the view of the player to move: 1 with four of one's own, otherwise -1 with four of the other's, else 0. */
  lemma TerminalMeaning(g: Grid, plyPenalty: real)
    requires OneWinner(g) && TerminalValues(g, plyPenalty).Some?
    ensures var v := TerminalValues(g, plyPenalty).value;
            && (v.noPen == 1.0 <==> HasFour(g, Mover(g))) && (v.noPen == -1.0 <==> HasFour(g, Mover(g).Other()))
            && (v.noPen == 0.0 <==> !HasFour(g, First) && !HasFour(g, Second))
  {
  }

  lemma MoreDiscs(plyPenalty: real, a: nat, b: nat)
    requires plyPenalty > 0.0 && a < b
    ensures plyPenalty * (a as real) < plyPenalty * (b as real)
  {
    assert plyPenalty * ((b - a) as real) > 0.0;
    assert (b - a) as real == b as real - a as real;
  }

  lemma OutcomeIs(g: Grid)
    ensures HasFour(g, Mover(g)) ==> TerminalState(g) == Some(PlayerWin)
    ensures !HasFour(g, Mover(g)) && HasFour(g, Mover(g).Other()) ==> TerminalState(g) == Some(OpponentWin)
    ensures !HasFour(g, First) && !HasFour(g, Second) && TerminalState(g).Some? ==> TerminalState(g) == Some(Draw)
  {
  }

  lemma PenaltyRises(g: Grid, h: Grid, plyPenalty: real)
    requires plyPenalty > 0.0 && Ply(g) < Ply(h)
    ensures Penalty(g, plyPenalty) < Penalty(h, plyPenalty)
  {
    MoreDiscs(plyPenalty, Ply(g), Ply(h));
  }

  /** The values `v` of a board with fewer discs than the one valued `w`, after the same outcome. */
  predicate Sooner(outcome: Terminal, v: real, w: real) {
    match outcome
    case PlayerWin => v > w
    case OpponentWin => v < w
    case Draw => v == w == 0.0
  }

  lemma SoonerValues(outcome: Terminal, p: real, q: real)
    requires p < q
    ensures Sooner(outcome, OutcomeValues(outcome, p).pen, OutcomeValues(outcome, q).pen)
  {
  }

  lemma ValuesAre(g: Grid, plyPenalty: real)
    requires TerminalState(g).Some?
    ensures TerminalValues(g, plyPenalty) == Some(OutcomeValues(TerminalState(g).value, Penalty(g, plyPenalty)))
  {
  }

  /** The penalty prefers the sooner of two wins and the later of two losses, and leaves draws alone. */
  lemma SoonerWinsLaterLosses(g: Grid, h: Grid, plyPenalty: real)
    requires plyPenalty > 0.0 && TerminalState(g).Some? && TerminalState(h) == TerminalState(g) && Ply(g) < Ply(h)
    ensures Sooner(TerminalState(g).value, TerminalValues(g, plyPenalty).value.pen,
                   TerminalValues(h, plyPenalty).value.pen)
  {
    PenaltyRises(g, h, plyPenalty);
    ValuesAre(g, plyPenalty);
    ValuesAre(h, plyPenalty);
    SoonerValues(TerminalState(g).value, Penalty(g, plyPenalty), Penalty(h, plyPenalty));
  }
}
