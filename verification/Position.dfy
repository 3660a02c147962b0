/**
 The relative bitboard of `cpp/src/position.cpp`: `mask` holds the occupied cells, `value` the cells
 of the player to move; cell (row, col) is bit `7 * row + col`. A word is the set of its one bits
 (Words.dfy). The theorems say that on every position reachable by moves the bitboard is exactly
 the gravity grid of Board.dfy, seen from the player to move.
 */
module Positions {
  import opened Board

  type Word = set<nat>

  datatype CellValue = Opponent | Player

  datatype Position = Position(mask: Word, value: Word)

  const START := Position({}, {})

  function Bit(row: nat, col: nat): nat {
    row * 7 + col
  }

  /** `Position::from_bits`: it checks the words, not gravity. */
  function FromBits(mask: Word, value: Word): Option<Position> {
    if exists k :: k in mask && k >= CELLS then None
    else if !(value <= mask) then None
    else Some(Position(mask, value))
  }

  function Get(p: Position, row: nat, col: nat): Option<CellValue> {
    if row >= ROWS || col >= COLS then None
    else if Bit(row, col) !in p.mask then None
    else Some(if Bit(row, col) in p.value then Player else Opponent)
  }

  function SetPiece(p: Position, row: nat, col: nat, piece: Option<CellValue>): Position {
    match piece
    case None => Position(p.mask - {Bit(row, col)}, p.value - {Bit(row, col)})
    case Some(Opponent) => Position(p.mask + {Bit(row, col)}, p.value - {Bit(row, col)})
    case Some(Player) => Position(p.mask + {Bit(row, col)}, p.value + {Bit(row, col)})
  }

  function Inverted(p: Position): Position {
    Position(p.mask, p.mask - p.value)
  }

  function PlyOf(p: Position): nat {
    |p.mask|
  }

  /** The row scan of `make_move`: the lowest empty row of `col`, from `row` up. */
  function LowestEmpty(p: Position, col: nat, row: nat): Option<nat>
    requires row <= ROWS
    decreases ROWS - row
  {
    if row == ROWS then None
    else if Bit(row, col) !in p.mask then Some(row)
    else LowestEmpty(p, col, row + 1)
  }

  function MakeMove(p: Position, col: nat): Option<Position> {
    if col >= COLS then None
    else match LowestEmpty(p, col, 0)
      case None => None
      case Some(row) => Some(Inverted(SetPiece(p, row, col, Some(Player))))
  }

  function FromMovesAt(p: Position, moves: seq<nat>): Option<Position>
    decreases moves
  {
    if moves == [] then Some(p)
    else match MakeMove(p, moves[0])
      case None => None
      case Some(q) => FromMovesAt(q, moves[1..])
  }

  /** `Position::from_moves`; `None` is the exception for an invalid sequence. */
  function FromMoves(moves: seq<nat>): Option<Position> {
    FromMovesAt(START, moves)
  }

  predicate LegalMove(p: Position, col: nat) {
    col < COLS && Bit(ROWS - 1, col) !in p.mask
  }

  function FlipHorizontal(p: Position): Position {
    Position(
      set k: nat | 0 <= k < CELLS && Bit(k / 7, 6 - k % 7) in p.mask,
      set k: nat | 0 <= k < CELLS && Bit(k / 7, 6 - k % 7) in p.mask * p.value)
  }

  // ----- the grid as a bitboard ---------------------------------------------------------------

  function MaskOf(g: Grid): Word {
    set k: nat | 0 <= k < CELLS && k / 7 < |g[k % 7]|
  }

  function DiscsOf(g: Grid, d: Disc): Word {
    set k: nat | 0 <= k < CELLS && Cell(g, k / 7, k % 7) == Some(d)
  }

  /** The grid seen by `viewer`. */
  function Seen(g: Grid, viewer: Disc): Position {
    Position(MaskOf(g), DiscsOf(g, viewer))
  }

  function Encode(g: Grid): Position {
    Seen(g, Mover(g))
  }

  lemma GetSeen(g: Grid, viewer: Disc, row: nat, col: nat)
    ensures Get(Seen(g, viewer), row, col)
         == (match Cell(g, row, col)
             case None => None
             case Some(d) => Some(if d == viewer then Player else Opponent))
  {
    if row < ROWS && col < COLS {
      assert Bit(row, col) / 7 == row && Bit(row, col) % 7 == col;
    }
  }

  lemma {:induction false} LowestEmptySeen(g: Grid, viewer: Disc, col: nat, row: nat)
    requires col < COLS && row <= |g[col]|
    ensures LowestEmpty(Seen(g, viewer), col, row) == if Legal(g, col) then Some(|g[col]|) else None
    decreases ROWS - row
  {
    if row < ROWS {
      assert Bit(row, col) / 7 == row && Bit(row, col) % 7 == col;
      if row < |g[col]| {
        LowestEmptySeen(g, viewer, col, row + 1);
      }
    }
  }

  /** A drop changes one cell. */
  lemma DropCell(g: Grid, col: nat, k: nat)
    requires Legal(g, col) && k < CELLS
    ensures Cell(Drop(g, col), k / 7, k % 7)
         == if k == Bit(|g[col]|, col) then Some(Mover(g)) else Cell(g, k / 7, k % 7)
  {
    assert k == Bit(k / 7, k % 7);
    assert Bit(|g[col]|, col) / 7 == |g[col]| && Bit(|g[col]|, col) % 7 == col;
  }

  lemma MaskOfDrop(g: Grid, col: nat)
    requires Legal(g, col)
    ensures MaskOf(Drop(g, col)) == MaskOf(g) + {Bit(|g[col]|, col)}
  {
    forall k: nat | k < CELLS
      ensures k in MaskOf(Drop(g, col)) <==> k in MaskOf(g) || k == Bit(|g[col]|, col)
    {
      DropCell(g, col, k);
    }
  }

  lemma DiscsOfDrop(g: Grid, col: nat, d: Disc)
    requires Legal(g, col)
    ensures DiscsOf(Drop(g, col), d)
         == DiscsOf(g, d) + if d == Mover(g) then {Bit(|g[col]|, col)} else {}
  {
    forall k: nat | k < CELLS
      ensures k in DiscsOf(Drop(g, col), d)
         <==> k in DiscsOf(g, d) || (k == Bit(|g[col]|, col) && d == Mover(g))
    {
      DropCell(g, col, k);
      assert k / 7 == |g[col]| && k % 7 == col ==> Cell(g, k / 7, k % 7).None?;
    }
  }

  lemma OtherDiscs(g: Grid, d: Disc)
    ensures MaskOf(g) - DiscsOf(g, d) == DiscsOf(g, d.Other())
  {
    forall k: nat | k < CELLS
      ensures k in MaskOf(g) && k !in DiscsOf(g, d) <==> k in DiscsOf(g, d.Other())
    {
      var e := Cell(g, k / 7, k % 7);
      assert k in MaskOf(g) <==> e.Some?;
      assert e.Some? ==> e.value == d || e.value == d.Other();
    }
  }

  /** One bitboard move is one disc dropped on the grid; it fails exactly when the column is full. */
  lemma MakeMoveRefinesDrop(g: Grid, col: nat)
    ensures MakeMove(Encode(g), col) == if Legal(g, col) then Some(Encode(Drop(g, col))) else None
  {
    if col < COLS {
      LowestEmptySeen(g, Mover(g), col, 0);
      if Legal(g, col) {
        MaskOfDrop(g, col);
        DiscsOfDrop(g, col, Mover(g));
        OtherDiscs(Drop(g, col), Mover(g));
      }
    }
  }

  lemma EncodeStart()
    ensures Encode(EMPTY) == START
  {
  }

  /** Replaying moves on the bitboard is playing them on the grid. */
  lemma {:induction false} FromMovesAtRefinesPlay(g: Grid, moves: seq<nat>)
    ensures FromMovesAt(Encode(g), moves)
         == (match Play(g, moves) case None => None case Some(h) => Some(Encode(h)))
    decreases moves
  {
    if moves != [] {
      MakeMoveRefinesDrop(g, moves[0]);
      if Legal(g, moves[0]) {
        FromMovesAtRefinesPlay(Drop(g, moves[0]), moves[1..]);
      }
    }
  }

  lemma FromMovesRefinesPlay(moves: seq<nat>)
    ensures FromMoves(moves) == (match Play(EMPTY, moves) case None => None case Some(h) => Some(Encode(h)))
  {
    EncodeStart();
    FromMovesAtRefinesPlay(EMPTY, moves);
  }

  /** Every reachable word pair passes the `from_bits` validation unchanged. */
  lemma EncodePassesFromBits(g: Grid)
    ensures FromBits(Encode(g).mask, Encode(g).value) == Some(Encode(g))
  {
    assert DiscsOf(g, Mover(g)) <= MaskOf(g);
  }

  lemma LegalMoveRefinesLegal(g: Grid, col: nat)
    ensures LegalMove(Encode(g), col) <==> Legal(g, col)
  {
    if col < COLS {
      assert Bit(ROWS - 1, col) / 7 == ROWS - 1 && Bit(ROWS - 1, col) % 7 == col;
    }
  }

  function Pop(g: Grid, col: nat): Grid
    requires col < COLS && g[col] != []
  {
    g[col := g[col][..|g[col]| - 1]]
  }

  lemma MaskOfPop(g: Grid, col: nat)
    requires col < COLS && g[col] != []
    ensures MaskOf(g) == MaskOf(Pop(g, col)) + {Bit(|g[col]| - 1, col)}
    ensures Bit(|g[col]| - 1, col) !in MaskOf(Pop(g, col))
  {
    var h := Pop(g, col);
    var top := Bit(|g[col]| - 1, col);
    assert top / 7 == |g[col]| - 1 && top % 7 == col;
    forall k: nat | k < CELLS ensures k in MaskOf(g) <==> k in MaskOf(h) || k == top {
      if k % 7 == col {
        assert k == Bit(k / 7, col);
      }
    }
  }

  /** `ply` (a population count) is the number of discs. */
  lemma {:induction false} PlyRefinesPly(g: Grid)
    ensures |MaskOf(g)| == Ply(g)
    decreases Ply(g)
  {
    if c :| 0 <= c < COLS && g[c] != [] {
      MaskOfPop(g, c);
      PlyRefinesPly(Pop(g, c));
    } else {
      assert MaskOf(g) == {};
    }
  }

  /** Distinct grids have distinct bitboards: no information is lost. */
  lemma EncodeInjective(g: Grid, h: Grid)
    requires Encode(g) == Encode(h)
    ensures g == h
  {
    PlyRefinesPly(g);
    PlyRefinesPly(h);
    SeenInjective(g, h, Mover(g));
  }

  lemma SeenInjective(g: Grid, h: Grid, viewer: Disc)
    requires Seen(g, viewer) == Seen(h, viewer)
    ensures g == h
  {
    forall col: nat, row: nat | col < COLS && row < ROWS ensures Cell(g, row, col) == Cell(h, row, col) {
      GetSeen(g, viewer, row, col);
      GetSeen(h, viewer, row, col);
    }
    forall col: nat | col < COLS ensures g[col] == h[col] {
      SameColumn(g, h, col);
    }
  }

  lemma SameColumn(g: Grid, h: Grid, col: nat)
    requires col < COLS
    requires forall row: nat :: row < ROWS ==> Cell(g, row, col) == Cell(h, row, col)
    ensures g[col] == h[col]
  {
    var shorter := if |g[col]| < |h[col]| then |g[col]| else |h[col]|;
    if shorter < ROWS {
      assert Cell(g, shorter, col) == Cell(h, shorter, col);
    }
    forall row: nat | row < |g[col]| ensures g[col][row] == h[col][row] {
      assert Cell(g, row, col) == Cell(h, row, col);
    }
  }

  /** The horizontal flip refines the mirror image. */
  lemma FlipRefinesMirror(g: Grid)
    ensures FlipHorizontal(Encode(g)) == Encode(Mirror(g))
  {
    var p := FlipHorizontal(Encode(g));
    var q := Encode(Mirror(g));
    forall k: nat | k < CELLS
      ensures k in p.mask <==> k in q.mask
      ensures k in p.value <==> k in q.value
    {
      var j := Bit(k / 7, 6 - k % 7);
      assert j / 7 == k / 7 && j % 7 == 6 - k % 7;
      MirrorCell(g, j / 7, j % 7);
    }
    assert p.mask == q.mask;
    assert p.value == q.value;
  }
}
