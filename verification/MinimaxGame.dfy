/**
 What the value of the depth-limited search says about Connect Four itself: on gravity boards it decides
 which player can force four in a row by legal drops.
 */
module MinimaxGame {
  import opened Board
  import opened Minimax
  import opened Positions
  import opened WinTests

  /** On the grid: the player to move can complete four in a row within `depth` plies, whatever the other does. */
  ghost predicate GridWin(g: Grid, depth: nat)
    decreases depth
  {
    exists col: nat :: WinningDrop(g, depth, col)
  }

  ghost predicate WinningDrop(g: Grid, depth: nat, col: nat)
    decreases depth, 0
  {
    depth > 0 && Legal(g, col) && (HasFour(Drop(g, col), Mover(g)) || (depth > 1 && GridLoss(Drop(g, col), depth - 1)))
  }

  /** On the grid: there is a move, and after every move, none of them winning, the other player can win. */
  ghost predicate GridLoss(g: Grid, depth: nat)
    decreases depth
  {
    (exists col: nat :: Legal(g, col)) && forall col: nat :: Legal(g, col) ==> LosingDrop(g, depth, col)
  }

  ghost predicate LosingDrop(g: Grid, depth: nat, col: nat)
    requires Legal(g, col)
    decreases depth, 0
  {
    depth > 1 && !HasFour(Drop(g, col), Mover(g)) && GridWin(Drop(g, col), depth - 1)
  }

  function Own(g: Grid): Word {
    DiscsOf(g, Mover(g))
  }

  function Their(g: Grid): Word {
    DiscsOf(g, Mover(g).Other())
  }

  lemma LegalOnGrid(g: Grid, col: nat)
    ensures col in LegalMoves(Own(g) + Their(g)) <==> Legal(g, col)
  {
    BothPlayersDiscs(g);
    LegalMovesMeaning(MaskOf(g), col);
    MovesAreDrops(g, col);
  }

  /** The value of a legal column says whether the drop wins or loses. */
  lemma {:induction false} ChildOnGrid(g: Grid, depth: nat, col: nat)
    requires depth > 0 && Legal(g, col)
    ensures Child(Own(g), Their(g), depth, col) == 1 <==> WinningDrop(g, depth, col)
    ensures Child(Own(g), Their(g), depth, col) == -1 <==> LosingDrop(g, depth, col)
    decreases depth, 0
  {
    var h := Drop(g, col);
    MovesAreDrops(g, col);
    HasLineIsHasFour(h, Mover(g));
    assert Own(h) == Their(g) && Their(h) == After(Own(g), Their(g), col);
    if depth > 1 {
      ValueOnGrid(h, depth - 1);
    }
  }

  /**
   On gravity boards the value is about the game itself: 1 exactly when the player to move can force four
   in a row by legal drops within the depth, and -1 exactly when the other player can.
   */
  lemma {:induction false} ValueOnGrid(g: Grid, depth: nat)
    requires depth > 0
    ensures NegaMax(Own(g), Their(g), depth) == 1 <==> GridWin(g, depth)
    ensures NegaMax(Own(g), Their(g), depth) == -1 <==> GridLoss(g, depth)
    decreases depth, 1
  {
    var legal := LegalMoves(Own(g) + Their(g));
    BestIsMaximum(Own(g), Their(g), depth, legal);
    NegaMaxRange(Own(g), Their(g), depth);
    forall col: nat ensures col in legal <==> Legal(g, col) {
      LegalOnGrid(g, col);
    }
    forall col: nat | Legal(g, col)
      ensures Child(Own(g), Their(g), depth, col) == 1 <==> WinningDrop(g, depth, col)
      ensures Child(Own(g), Their(g), depth, col) == -1 <==> LosingDrop(g, depth, col)
      ensures -1 <= Child(Own(g), Their(g), depth, col) <= 1
    {
      ChildOnGrid(g, depth, col);
      ChildRange(Own(g), Their(g), depth, col);
    }
    if legal != [] {
      assert Legal(g, legal[0]);
    }
  }
}
