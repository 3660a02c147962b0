/**
 The gravity grid: seven stacks of at most six discs. This is the simple form that the bitboard of
 `cpp/src/position.cpp` refines (see Position.dfy); the search, self-play and opening models work on
 it.
 */
module Board {

  const ROWS := 6
  const COLS := 7
  const CELLS := 42

  datatype Option<+T> = None | Some(value: T)

  /** The player who owns a disc: `First` moves at even plies. */
  datatype Disc = First | Second {
    function Other(): Disc {
      if this.First? then Second else First
    }
  }

  type Grid = g: seq<seq<Disc>> | |g| == COLS && forall c :: 0 <= c < COLS ==> |g[c]| <= ROWS
    witness [[], [], [], [], [], [], []]

  const EMPTY: Grid := [[], [], [], [], [], [], []]

  function Cell(g: Grid, row: int, col: int): Option<Disc> {
    if 0 <= col < COLS && 0 <= row < |g[col]| then Some(g[col][row]) else None
  }

  function Ply(g: Grid): nat {
    |g[0]| + |g[1]| + |g[2]| + |g[3]| + |g[4]| + |g[5]| + |g[6]|
  }

  /** The player to move. */
  function Mover(g: Grid): Disc {
    if Ply(g) % 2 == 0 then First else Second
  }

  predicate Legal(g: Grid, col: int) {
    0 <= col < COLS && |g[col]| < ROWS
  }

  function Drop(g: Grid, col: int): (h: Grid)
    requires Legal(g, col)
    ensures Ply(h) == Ply(g) + 1
    ensures Mover(h) == Mover(g).Other()
  {
    g[col := g[col] + [Mover(g)]]
  }

  lemma SomeLegalColumn(g: Grid) returns (col: int)
    requires Ply(g) < CELLS
    ensures Legal(g, col)
  {
    if c :| 0 <= c < COLS && |g[c]| < ROWS {
      col := c;
    }
  }

  /** The grid after playing `moves`, or `None` when some move does not fit. */
  function Play(g: Grid, moves: seq<nat>): (r: Option<Grid>)
    ensures r.Some? ==> Ply(r.value) == Ply(g) + |moves|
    decreases moves
  {
    if moves == [] then Some(g)
    else if Legal(g, moves[0]) then Play(Drop(g, moves[0]), moves[1..])
    else None
  }

  /** Playing is compositional. */
  lemma {:induction false} PlayAppend(g: Grid, left: seq<nat>, right: seq<nat>)
    ensures Play(g, left + right)
         == (match Play(g, left) case None => None case Some(h) => Play(h, right))
    decreases left
  {
    if left == [] {
      assert left + right == right;
    } else {
      assert (left + right)[1..] == left[1..] + right;
      if Legal(g, left[0]) {
        PlayAppend(Drop(g, left[0]), left[1..], right);
      }
    }
  }

  // ----- four in a row ------------------------------------------------------------------------

  /** The four line directions, as row and column steps. */
  datatype Direction = East | North | NorthEast | SouthEast {
    function Dr(): int {
      match this case East => 0 case North => 1 case NorthEast => 1 case SouthEast => -1
    }
    function Dc(): int {
      match this case East => 1 case North => 0 case NorthEast => 1 case SouthEast => 1
    }
  }

  /** A line of four cells starting at (row, col) lies on the board. */
  predicate OnBoard(row: int, col: int, dir: Direction) {
    0 <= row < ROWS && 0 <= col < COLS && 0 <= row + 3 * dir.Dr() < ROWS && 0 <= col + 3 * dir.Dc() < COLS
  }

  predicate FourFrom(g: Grid, d: Disc, row: int, col: int, dir: Direction) {
    && Cell(g, row, col) == Some(d)
    && Cell(g, row + dir.Dr(), col + dir.Dc()) == Some(d)
    && Cell(g, row + 2 * dir.Dr(), col + 2 * dir.Dc()) == Some(d)
    && Cell(g, row + 3 * dir.Dr(), col + 3 * dir.Dc()) == Some(d)
  }

  /** `d` has four discs in a row, somewhere, in some direction. */
  ghost predicate HasFour(g: Grid, d: Disc) {
    exists row: int, col: int, dir: Direction :: FourFrom(g, d, row, col, dir)
  }

  lemma FourIsOnBoard(g: Grid, d: Disc, row: int, col: int, dir: Direction)
    requires FourFrom(g, d, row, col, dir)
    ensures OnBoard(row, col, dir)
  {
  }

  datatype Terminal = PlayerWin | OpponentWin | Draw

  /** The outcome relative to the player to move, or `None` while the game goes on. */
  ghost function TerminalState(g: Grid): Option<Terminal> {
    if HasFour(g, Mover(g)) then Some(PlayerWin)
    else if HasFour(g, Mover(g).Other()) then Some(OpponentWin)
    else if Ply(g) == CELLS then Some(Draw)
    else None
  }

  lemma NonTerminalHasMove(g: Grid) returns (col: int)
    requires TerminalState(g).None?
    ensures Legal(g, col)
  {
    FullGrid(g);
    col := SomeLegalColumn(g);
  }

  lemma FullGrid(g: Grid)
    ensures Ply(g) <= CELLS
  {
  }

  // ----- mirror image -------------------------------------------------------------------------

  function Mirror(g: Grid): Grid {
    [g[6], g[5], g[4], g[3], g[2], g[1], g[0]]
  }

  lemma MirrorCell(g: Grid, row: int, col: int)
    ensures Cell(Mirror(g), row, 6 - col) == Cell(g, row, col)
  {
  }

  lemma MirrorInvolution(g: Grid)
    ensures Mirror(Mirror(g)) == g
  {
  }

  lemma MirrorDrop(g: Grid, col: int)
    requires Legal(g, col)
    ensures Legal(Mirror(g), 6 - col)
    ensures Drop(Mirror(g), 6 - col) == Mirror(Drop(g, col))
  {
  }

  function Reflect(moves: seq<nat>): (r: seq<nat>)
    requires forall k :: 0 <= k < |moves| ==> moves[k] <= 6
    ensures |r| == |moves| && forall k :: 0 <= k < |moves| ==> r[k] == 6 - moves[k]
  {
    seq(|moves|, k requires 0 <= k < |moves| => (6 - moves[k]) as nat)
  }

  /** Mirrored move sequences reach mirrored grids. */
  lemma {:induction false} MirrorPlay(g: Grid, moves: seq<nat>)
    requires forall k :: 0 <= k < |moves| ==> moves[k] <= 6
    ensures Play(Mirror(g), Reflect(moves))
         == (match Play(g, moves) case None => None case Some(h) => Some(Mirror(h)))
    decreases moves
  {
    if moves != [] {
      assert Reflect(moves)[1..] == Reflect(moves[1..]);
      if Legal(g, moves[0]) {
        MirrorDrop(g, moves[0]);
        MirrorPlay(Drop(g, moves[0]), moves[1..]);
      }
    }
  }

  lemma MirrorCells(g: Grid, d: Disc, r0: int, c0: int, r1: int, c1: int, r2: int, c2: int, r3: int, c3: int)
    requires Cell(g, r0, c0) == Some(d) && Cell(g, r1, c1) == Some(d) && Cell(g, r2, c2) == Some(d)
    requires Cell(g, r3, c3) == Some(d)
    ensures Cell(Mirror(g), r0, 6 - c0) == Some(d) && Cell(Mirror(g), r1, 6 - c1) == Some(d)
    ensures Cell(Mirror(g), r2, 6 - c2) == Some(d) && Cell(Mirror(g), r3, 6 - c3) == Some(d)
  {
    MirrorCell(g, r0, c0);
    MirrorCell(g, r1, c1);
    MirrorCell(g, r2, c2);
    MirrorCell(g, r3, c3);
  }

  /** Four discs on the reflected cells of a line are four in a row. */
  lemma ReflectedFour(m: Grid, d: Disc, row: int, col: int, dir: Direction)
    requires Cell(m, row, 6 - col) == Some(d)
    requires Cell(m, row + dir.Dr(), 6 - (col + dir.Dc())) == Some(d)
    requires Cell(m, row + 2 * dir.Dr(), 6 - (col + 2 * dir.Dc())) == Some(d)
    requires Cell(m, row + 3 * dir.Dr(), 6 - (col + 3 * dir.Dc())) == Some(d)
    ensures HasFour(m, d)
  {
    match dir
    case East => assert FourFrom(m, d, row, 6 - col - 3, East);
    case North => assert FourFrom(m, d, row, 6 - col, North);
    case NorthEast => assert FourFrom(m, d, row + 3, 6 - col - 3, SouthEast);
    case SouthEast => assert FourFrom(m, d, row - 3, 6 - col - 3, NorthEast);
  }

  lemma MirrorFour(g: Grid, d: Disc, row: int, col: int, dir: Direction)
    requires FourFrom(g, d, row, col, dir)
    ensures HasFour(Mirror(g), d)
  {
    MirrorCells(g, d, row, col, row + dir.Dr(), col + dir.Dc(), row + 2 * dir.Dr(), col + 2 * dir.Dc(),
                row + 3 * dir.Dr(), col + 3 * dir.Dc());
    ReflectedFour(Mirror(g), d, row, col, dir);
  }

  /** Four in a row is invariant under mirroring. */
  lemma MirrorHasFour(g: Grid, d: Disc)
    ensures HasFour(Mirror(g), d) <==> HasFour(g, d)
  {
    if HasFour(g, d) {
      var row: int, col: int, dir: Direction :| FourFrom(g, d, row, col, dir);
      MirrorFour(g, d, row, col, dir);
    }
    if HasFour(Mirror(g), d) {
      var row: int, col: int, dir: Direction :| FourFrom(Mirror(g), d, row, col, dir);
      MirrorFour(Mirror(g), d, row, col, dir);
      MirrorInvolution(g);
    }
  }

  lemma MirrorTerminal(g: Grid)
    ensures TerminalState(Mirror(g)) == TerminalState(g)
  {
    MirrorHasFour(g, Mover(g));
    MirrorHasFour(g, Mover(g).Other());
  }
}
