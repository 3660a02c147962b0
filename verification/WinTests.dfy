/**
 The two mask tables: the 69 masks of `cpp/src/position.cpp` and the masks of
 `src/c4a0/minimax_harness.py`. Both say "four in a row" in the geometric sense of Board.dfy, so
 the bitboard's terminal state is the grid's.
 */
module WinTests {
  import opened Board
  import opened Positions

  /** The word of a line of four cells that lies on the board. */
  function LineMask(row: int, col: int, dir: Direction): Word
    requires OnBoard(row, col, dir)
  {
    {Bit(row, col), Bit(row + dir.Dr(), col + dir.Dc()),
     Bit(row + 2 * dir.Dr(), col + 2 * dir.Dc()), Bit(row + 3 * dir.Dr(), col + 3 * dir.Dc())}
  }

  ghost predicate IsLine(mask: Word) {
    exists row: int, col: int, dir: Direction :: OnBoard(row, col, dir) && mask == LineMask(row, col, dir)
  }

  /** `masks` lists lines only, and every line. */
  ghost predicate ListsLines(masks: seq<Word>) {
    && (forall i :: 0 <= i < |masks| ==> IsLine(masks[i]))
    && (forall row: int, col: int, dir: Direction :: OnBoard(row, col, dir) ==> LineMask(row, col, dir) in masks)
  }

  /**
   `make_win_masks`: horizontal, vertical, rising, then falling lines. The source throws at compile
   time unless exactly 69 masks were written.
   */
  method MakeWinMasks() returns (masks: seq<Word>)
    ensures |masks| == 69
    ensures ListsLines(masks)
  {
    var horizontal := Horizontals();
    var vertical := Verticals();
    var rising := Diagonals(0, 3, NorthEast);
    var falling := Diagonals(3, 6, SouthEast);
    masks := horizontal + vertical + rising + falling;
    forall row: int, col: int, dir: Direction | OnBoard(row, col, dir)
      ensures LineMask(row, col, dir) in masks
    {
      match dir
      case East => assert LineMask(row, col, dir) in horizontal;
      case North => assert LineMask(row, col, dir) in vertical;
      case NorthEast => assert LineMask(row, col, dir) in rising;
      case SouthEast => assert LineMask(row, col, dir) in falling;
    }
  }

  /** The first double loop. */
  method Horizontals() returns (masks: seq<Word>)
    ensures |masks| == 24
    ensures forall i :: 0 <= i < |masks| ==> IsLine(masks[i])
    ensures forall r: int, c: int :: OnBoard(r, c, East) ==> LineMask(r, c, East) in masks
  {
    masks := [];
    for row := 0 to ROWS
      invariant |masks| == 4 * row
      invariant forall i :: 0 <= i < |masks| ==> IsLine(masks[i])
      invariant forall r: int, c: int :: OnBoard(r, c, East) && r < row ==> LineMask(r, c, East) in masks
    {
      for col := 0 to 4
        invariant |masks| == 4 * row + col
        invariant forall i :: 0 <= i < |masks| ==> IsLine(masks[i])
        invariant forall r: int, c: int ::
          OnBoard(r, c, East) && (r < row || (r == row && c < col)) ==> LineMask(r, c, East) in masks
      {
        masks := masks + [LineMask(row, col, East)];
      }
    }
  }

  /** The second double loop. */
  method Verticals() returns (masks: seq<Word>)
    ensures |masks| == 21
    ensures forall i :: 0 <= i < |masks| ==> IsLine(masks[i])
    ensures forall r: int, c: int :: OnBoard(r, c, North) ==> LineMask(r, c, North) in masks
  {
    masks := [];
    for col := 0 to COLS
      invariant |masks| == 3 * col
      invariant forall i :: 0 <= i < |masks| ==> IsLine(masks[i])
      invariant forall r: int, c: int :: OnBoard(r, c, North) && c < col ==> LineMask(r, c, North) in masks
    {
      for row := 0 to 3
        invariant |masks| == 3 * col + row
        invariant forall i :: 0 <= i < |masks| ==> IsLine(masks[i])
        invariant forall r: int, c: int ::
          OnBoard(r, c, North) && (c < col || (c == col && r < row)) ==> LineMask(r, c, North) in masks
      {
        masks := masks + [LineMask(row, col, North)];
      }
    }
  }

  /** The two diagonal double loops. */
  method Diagonals(first: nat, last: nat, dir: Direction) returns (masks: seq<Word>)
    requires (dir == NorthEast && first == 0 && last == 3) || (dir == SouthEast && first == 3 && last == 6)
    ensures |masks| == 12
    ensures forall i :: 0 <= i < |masks| ==> IsLine(masks[i])
    ensures forall r: int, c: int :: OnBoard(r, c, dir) ==> LineMask(r, c, dir) in masks
  {
    masks := [];
    for row := first to last
      invariant |masks| == 4 * (row - first)
      invariant forall i :: 0 <= i < |masks| ==> IsLine(masks[i])
      invariant forall r: int, c: int :: OnBoard(r, c, dir) && r < row ==> LineMask(r, c, dir) in masks
    {
      for col := 0 to 4
        invariant |masks| == 4 * (row - first) + col
        invariant forall i :: 0 <= i < |masks| ==> IsLine(masks[i])
        invariant forall r: int, c: int ::
          OnBoard(r, c, dir) && (r < row || (r == row && c < col)) ==> LineMask(r, c, dir) in masks
      {
        masks := masks + [LineMask(row, col, dir)];
      }
    }
  }

  const PYTHON_DIRECTIONS: seq<(int, int)> := [(0, 1), (1, 0), (1, 1), (1, -1)]

  /** `_WINNING_MASKS`: a line is kept when its far end is on the board; steps run along (dr, dc). */
  method PythonWinningMasks() returns (masks: seq<Word>)
    ensures ListsLines(masks)
  {
    masks := [];
    for row := 0 to ROWS
      invariant forall i :: 0 <= i < |masks| ==> IsLine(masks[i])
      invariant forall r, c, d :: 0 <= r < row && PythonLine(r, c, d) ==> PythonMask(r, c, d) in masks
    {
      for col := 0 to COLS
        invariant forall i :: 0 <= i < |masks| ==> IsLine(masks[i])
        invariant forall r, c, d ::
          PythonLine(r, c, d) && (r < row || (r == row && c < col)) ==> PythonMask(r, c, d) in masks
      {
        var kept := KeptLines(row, col);
        masks := masks + kept;
      }
    }
    PythonTableIsComplete(masks);
  }

  /** The innermost comprehension clause: the lines starting at one cell. */
  method KeptLines(row: nat, col: nat) returns (masks: seq<Word>)
    requires row < ROWS && col < COLS
    ensures forall i :: 0 <= i < |masks| ==> IsLine(masks[i])
    ensures forall d :: PythonLine(row, col, d) ==> PythonMask(row, col, d) in masks
  {
    masks := [];
    for d := 0 to 4
      invariant forall i :: 0 <= i < |masks| ==> IsLine(masks[i])
      invariant forall e :: PythonLine(row, col, e) && e < d ==> PythonMask(row, col, e) in masks
    {
      if PythonLine(row, col, d) {
        PythonMaskIsLine(row, col, d);
        masks := masks + [PythonMask(row, col, d)];
      }
    }
  }

  lemma PythonTableIsComplete(masks: seq<Word>)
    requires forall r, c, d :: PythonLine(r, c, d) ==> PythonMask(r, c, d) in masks
    ensures forall row: int, col: int, dir: Direction :: OnBoard(row, col, dir) ==> LineMask(row, col, dir) in masks
  {
    forall row: int, col: int, dir: Direction | OnBoard(row, col, dir)
      ensures LineMask(row, col, dir) in masks
    {
      match dir
      case East => assert PythonMask(row, col, 0) in masks;
      case North => assert PythonMask(row, col, 1) in masks;
      case NorthEast => assert PythonMask(row, col, 2) in masks;
      case SouthEast =>
        assert LineMask(row, col, dir) == PythonMask(row - 3, col + 3, 3);
        assert PythonLine(row - 3, col + 3, 3);
    }
  }

  predicate PythonLine(row: int, col: int, d: int) {
    && 0 <= row < ROWS && 0 <= col < COLS && 0 <= d < 4
    && 0 <= row + 3 * PYTHON_DIRECTIONS[d].0 < ROWS && 0 <= col + 3 * PYTHON_DIRECTIONS[d].1 < COLS
  }

  function PythonMask(row: int, col: int, d: int): Word
    requires PythonLine(row, col, d)
  {
    var (dr, dc) := PYTHON_DIRECTIONS[d];
    {Bit(row, col), Bit(row + dr, col + dc), Bit(row + 2 * dr, col + 2 * dc), Bit(row + 3 * dr, col + 3 * dc)}
  }

  lemma PythonMaskIsLine(row: int, col: int, d: int)
    requires PythonLine(row, col, d)
    ensures IsLine(PythonMask(row, col, d))
  {
    match d
    case 0 => assert PythonMask(row, col, d) == LineMask(row, col, East);
    case 1 => assert PythonMask(row, col, d) == LineMask(row, col, North);
    case 2 => assert PythonMask(row, col, d) == LineMask(row, col, NorthEast);
    case 3 => FallingReversed(row, col);
  }

  /** The falling direction runs along the same cells the other way. */
  lemma FallingReversed(row: int, col: int)
    requires PythonLine(row, col, 3)
    ensures OnBoard(row + 3, col - 3, SouthEast)
    ensures PythonMask(row, col, 3) == LineMask(row + 3, col - 3, SouthEast)
  {
  }

  // ----- the test -----------------------------------------------------------------------------

  /** `any_of(masks, (pieces & win) == win)`. */
  predicate AnyMask(masks: seq<Word>, pieces: Word) {
    exists i :: 0 <= i < |masks| && pieces * masks[i] == masks[i]
  }

  /** Some line lies inside `pieces`. */
  ghost predicate HasLine(pieces: Word) {
    exists row: int, col: int, dir: Direction :: OnBoard(row, col, dir) && LineMask(row, col, dir) <= pieces
  }

  /** Any table that lists the lines gives the same test: the C++ and Python tests agree. */
  lemma AnyMaskIsHasLine(masks: seq<Word>, pieces: Word)
    requires ListsLines(masks)
    ensures AnyMask(masks, pieces) <==> HasLine(pieces)
  {
    if AnyMask(masks, pieces) {
      var i :| 0 <= i < |masks| && pieces * masks[i] == masks[i];
      var row: int, col: int, dir: Direction :| OnBoard(row, col, dir) && masks[i] == LineMask(row, col, dir);
      assert LineMask(row, col, dir) <= pieces;
    }
    if HasLine(pieces) {
      var row: int, col: int, dir: Direction :| OnBoard(row, col, dir) && LineMask(row, col, dir) <= pieces;
      var i :| 0 <= i < |masks| && masks[i] == LineMask(row, col, dir);
      assert pieces * masks[i] == masks[i];
    }
  }

  /** The mask test on a player's word is four in a row on the grid. */
  lemma HasLineIsHasFour(g: Grid, d: Disc)
    ensures HasLine(DiscsOf(g, d)) <==> HasFour(g, d)
  {
    forall row: int, col: int, dir: Direction | OnBoard(row, col, dir)
      ensures LineMask(row, col, dir) <= DiscsOf(g, d) <==> FourFrom(g, d, row, col, dir)
    {
      LineIsFour(g, d, row, col, dir);
    }
    if HasFour(g, d) {
      var row: int, col: int, dir: Direction :| FourFrom(g, d, row, col, dir);
      FourIsOnBoard(g, d, row, col, dir);
    }
  }

  lemma LineIsFour(g: Grid, d: Disc, row: int, col: int, dir: Direction)
    requires OnBoard(row, col, dir)
    ensures LineMask(row, col, dir) <= DiscsOf(g, d) <==> FourFrom(g, d, row, col, dir)
  {
    CellsInDiscs(g, d, row, col, row + dir.Dr(), col + dir.Dc(), row + 2 * dir.Dr(), col + 2 * dir.Dc(),
                 row + 3 * dir.Dr(), col + 3 * dir.Dc());
  }

  lemma CellsInDiscs(g: Grid, d: Disc, r0: nat, c0: nat, r1: nat, c1: nat, r2: nat, c2: nat, r3: nat, c3: nat)
    requires r0 < ROWS && r1 < ROWS && r2 < ROWS && r3 < ROWS
    requires c0 < COLS && c1 < COLS && c2 < COLS && c3 < COLS
    ensures {Bit(r0, c0), Bit(r1, c1), Bit(r2, c2), Bit(r3, c3)} <= DiscsOf(g, d)
       <==> Cell(g, r0, c0) == Some(d) && Cell(g, r1, c1) == Some(d) && Cell(g, r2, c2) == Some(d)
            && Cell(g, r3, c3) == Some(d)
  {
    BitInDiscs(g, d, r0, c0);
    BitInDiscs(g, d, r1, c1);
    BitInDiscs(g, d, r2, c2);
    BitInDiscs(g, d, r3, c3);
    FourWithin(Bit(r0, c0), Bit(r1, c1), Bit(r2, c2), Bit(r3, c3), DiscsOf(g, d));
  }

  lemma FourWithin(i: nat, j: nat, k: nat, l: nat, s: Word)
    ensures {i, j, k, l} <= s <==> i in s && j in s && k in s && l in s
  {
  }

  lemma BitInDiscs(g: Grid, d: Disc, row: nat, col: nat)
    requires row < ROWS && col < COLS
    ensures Bit(row, col) in DiscsOf(g, d) <==> Cell(g, row, col) == Some(d)
  {
    assert Bit(row, col) / 7 == row && Bit(row, col) % 7 == col;
  }

  /** `player_has_won`. */
  ghost predicate PlayerHasWon(p: Position) {
    HasLine(p.mask * p.value)
  }

  ghost function TerminalStateOf(p: Position): Option<Terminal> {
    if PlayerHasWon(p) then Some(PlayerWin)
    else if PlayerHasWon(Inverted(p)) then Some(OpponentWin)
    else if PlyOf(p) == ROWS * COLS then Some(Draw)
    else None
  }

  /** The bitboard and the grid agree on the outcome of every reachable position. */
  lemma TerminalRefines(g: Grid)
    ensures TerminalStateOf(Encode(g)) == TerminalState(g)
  {
    var p := Encode(g);
    assert p.mask * p.value == DiscsOf(g, Mover(g));
    OtherDiscs(g, Mover(g));
    assert Inverted(p).mask * Inverted(p).value == DiscsOf(g, Mover(g).Other());
    HasLineIsHasFour(g, Mover(g));
    HasLineIsHasFour(g, Mover(g).Other());
    PlyRefinesPly(g);
  }

  /** The executable form of `terminal_state`, over the mask table built by `MakeWinMasks`. */
  method ComputeTerminalState(p: Position) returns (state: Option<Terminal>)
    ensures state == TerminalStateOf(p)
  {
    var masks := MakeWinMasks();
    AnyMaskIsHasLine(masks, p.mask * p.value);
    AnyMaskIsHasLine(masks, Inverted(p).mask * Inverted(p).value);
    if AnyMask(masks, p.mask * p.value) {
      state := Some(PlayerWin);
    } else if AnyMask(masks, Inverted(p).mask * Inverted(p).value) {
      state := Some(OpponentWin);
    } else if |p.mask| == ROWS * COLS {
      state := Some(Draw);
    } else {
      state := None;
    }
  }
}
