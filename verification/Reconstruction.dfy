/**
 `Position::to_moves`: rebuild a move sequence by removing discs from the top of columns, last mover
 first, with backtracking. The search finds a sequence exactly when one exists, and for every
 reachable position it exists, has length `ply` and replays to the very same bitboard.
 */
module Reconstruction {
  import opened Board
  import opened Positions

  /** The piece the next removal must take, relative to the player to move in `p`. */
  function Expected(p: Position, temporary: Position): CellValue {
    if (PlyOf(p) % 2 == 0) != (PlyOf(temporary) % 2 == 0) then Player else Opponent
  }

  /** The row of `col`, below `row`, from which the downward scan removes a piece. */
  function Candidate(p: Position, temporary: Position, col: nat, row: nat): (r: Option<nat>)
    ensures r.Some? ==> r.value < ROWS && Get(temporary, r.value, col).Some?
  {
    if row == 0 then None
    else
      var original_piece := Get(p, row - 1, col);
      var temporary_piece := Get(temporary, row - 1, col);
      var expected := Some(Expected(p, temporary));
      if original_piece == expected && temporary_piece == expected then Some(row - 1)
      else if temporary_piece.None? then Candidate(p, temporary, col, row - 1)
      else None
  }

  function Remove(p: Position, temporary: Position, col: nat): (next: Position)
    requires Candidate(p, temporary, col, ROWS).Some?
    ensures PlyOf(next) < PlyOf(temporary)
  {
    var row := Candidate(p, temporary, col, ROWS).value;
    assert Bit(row, col) in temporary.mask;
    SetPiece(temporary, row, col, None)
  }

  /** `path` empties `temporary` one allowed removal at a time. */
  predicate Empties(p: Position, temporary: Position, path: seq<nat>)
    decreases path
  {
    if path == [] then PlyOf(temporary) == 0
    else
      && path[0] < COLS
      && Candidate(p, temporary, path[0], ROWS).Some?
      && Empties(p, Remove(p, temporary, path[0]), path[1..])
  }

  /** No removal order empties `temporary`. */
  ghost predicate Stuck(p: Position, temporary: Position) {
    forall path :: !Empties(p, temporary, path)
  }

  /** Every removal order of `temporary` that starts with `col` fails. */
  ghost predicate DeadColumn(p: Position, temporary: Position, col: nat) {
    forall path :: path != [] && path[0] == col ==> !Empties(p, temporary, path)
  }

  /**
   `to_moves_recursive`: pushes columns on `removals` and pops them when a choice fails. It succeeds
   exactly when some removal order empties the board, and then has pushed such an order.
   */
  method ToMovesRecursive(p: Position, temporary: Position, removals: seq<nat>)
    returns (ok: bool, out: seq<nat>)
    ensures ok ==> removals <= out && Empties(p, temporary, out[|removals|..])
    ensures !ok ==> out == removals && Stuck(p, temporary)
    decreases PlyOf(temporary), 1
  {
    out := removals;
    if PlyOf(temporary) == 0 {
      return true, out;
    }
    for col := 0 to COLS
      invariant out == removals
      invariant forall c :: 0 <= c < col ==> DeadColumn(p, temporary, c)
    {
      ok, out := TryColumn(p, temporary, out, col);
      if ok {
        return;
      }
    }
    forall path ensures !Empties(p, temporary, path) {
      assert path != [] && path[0] < COLS ==> DeadColumn(p, temporary, path[0]);
    }
    ok := false;
  }

  /** One pass of the column loop: scan down from the top row, remove, recurse, undo on failure. */
  method TryColumn(p: Position, temporary: Position, removals: seq<nat>, col: nat)
    returns (ok: bool, out: seq<nat>)
    requires PlyOf(temporary) > 0 && col < COLS
    ensures ok ==> removals <= out && Empties(p, temporary, out[|removals|..])
    ensures !ok ==> out == removals && DeadColumn(p, temporary, col)
    decreases PlyOf(temporary), 0
  {
    out := removals;
    var row := ROWS;
    while row > 0
      invariant out == removals && 0 <= row <= ROWS
      invariant Candidate(p, temporary, col, ROWS) == Candidate(p, temporary, col, row)
    {
      row := row - 1;
      var expected := Some(Expected(p, temporary));
      if Get(p, row, col) == expected && Get(temporary, row, col) == expected {
        var next := SetPiece(temporary, row, col, None);
        assert next == Remove(p, temporary, col);
        out := out + [col];
        ok, out := ToMovesRecursive(p, next, out);
        if ok {
          assert out[|removals|..] == [col] + out[|removals| + 1..];
          return;
        }
        out := out[..|out| - 1];
        return false, out;
      }
      if Get(temporary, row, col).Some? {
        break;
      }
    }
    ok := false;
  }

  /** `to_moves`; `None` is the exception for an unreachable position. */
  method ToMoves(p: Position) returns (moves: Option<seq<nat>>)
    ensures moves.None? <==> Stuck(p, p)
    ensures moves.Some? ==> Empties(p, p, Reverse(moves.value))
  {
    var ok, removals := ToMovesRecursive(p, p, []);
    if !ok {
      return None;
    }
    assert removals[0..] == removals;
    moves := Some(Reverse(removals));
    ReverseReverse(removals);
    assert Empties(p, p, removals);
  }

  function Reverse(s: seq<nat>): (r: seq<nat>)
    ensures |r| == |s|
  {
    if s == [] then [] else Reverse(s[1..]) + [s[0]]
  }

  lemma {:induction false} ReverseAppend(s: seq<nat>, x: nat)
    ensures Reverse(s + [x]) == [x] + Reverse(s)
  {
    if s != [] {
      ReverseAppend(s[1..], x);
      assert (s + [x])[1..] == s[1..] + [x];
    }
  }

  lemma {:induction false} ReverseReverse(s: seq<nat>)
    ensures Reverse(Reverse(s)) == s
  {
    if s != [] {
      ReverseAppend(Reverse(s[1..]), s[0]);
      ReverseReverse(s[1..]);
    }
  }

  // ----- removal on the grid ------------------------------------------------------------------

  /** The disc on top of `col` was dropped last or may have been: it belongs to the last mover. */
  predicate Removable(h: Grid, col: nat) {
    col < COLS && h[col] != [] && h[col][|h[col]| - 1] == Mover(h).Other()
  }

  predicate GridEmpties(h: Grid, path: seq<nat>)
    decreases path
  {
    if path == [] then Ply(h) == 0
    else Removable(h, path[0]) && GridEmpties(Pop(h, path[0]), path[1..])
  }

  predicate ColumnsPrefix(h: Grid, g: Grid) {
    forall c :: 0 <= c < COLS ==> h[c] <= g[c]
  }

  /** The scan of one column finds exactly the removable top disc. */
  lemma CandidateIsTop(g: Grid, h: Grid, col: nat)
    requires ColumnsPrefix(h, g) && col < COLS
    ensures Candidate(Encode(g), Seen(h, Mover(g)), col, ROWS)
         == if Removable(h, col) then Some(|h[col]| - 1) else None
  {
    PlyRefinesPly(g);
    PlyRefinesPly(h);
    CandidateBelow(g, h, col, ROWS);
  }

  lemma {:induction false} CandidateBelow(g: Grid, h: Grid, col: nat, row: nat)
    requires ColumnsPrefix(h, g) && col < COLS && |h[col]| <= row <= ROWS
    requires |MaskOf(g)| == Ply(g) && |MaskOf(h)| == Ply(h)
    ensures Candidate(Encode(g), Seen(h, Mover(g)), col, row)
         == if Removable(h, col) then Some(|h[col]| - 1) else None
  {
    if row > 0 {
      GetSeen(g, Mover(g), row - 1, col);
      GetSeen(h, Mover(g), row - 1, col);
      assert h[col] <= g[col];
      if row > |h[col]| {
        CandidateBelow(g, h, col, row - 1);
      }
    }
  }

  lemma RemoveIsPop(g: Grid, h: Grid, col: nat)
    requires ColumnsPrefix(h, g) && Removable(h, col)
    requires Candidate(Encode(g), Seen(h, Mover(g)), col, ROWS).Some?
    ensures Remove(Encode(g), Seen(h, Mover(g)), col) == Seen(Pop(h, col), Mover(g))
    ensures ColumnsPrefix(Pop(h, col), g)
  {
    CandidateIsTop(g, h, col);
    MaskOfPop(h, col);
    var top := Bit(|h[col]| - 1, col);
    assert top / 7 == |h[col]| - 1 && top % 7 == col;
    forall k: nat | k < CELLS
      ensures k in DiscsOf(Pop(h, col), Mover(g)) <==> k in DiscsOf(h, Mover(g)) && k != top
    {
      if k % 7 == col {
        assert k == Bit(k / 7, col);
      }
    }
    assert MaskOf(h) - {top} == MaskOf(Pop(h, col));
    assert DiscsOf(h, Mover(g)) - {top} == DiscsOf(Pop(h, col), Mover(g));
  }

  /** The bitboard search space is the grid search space. */
  lemma {:induction false} EmptiesRefines(g: Grid, h: Grid, path: seq<nat>)
    requires ColumnsPrefix(h, g)
    ensures Empties(Encode(g), Seen(h, Mover(g)), path) <==> GridEmpties(h, path)
    decreases path
  {
    if path == [] {
      PlyRefinesPly(h);
    } else if path[0] < COLS {
      CandidateIsTop(g, h, path[0]);
      if Removable(h, path[0]) {
        RemoveIsPop(g, h, path[0]);
        EmptiesRefines(g, Pop(h, path[0]), path[1..]);
      }
    }
  }

  lemma DropPop(h: Grid, col: nat)
    requires Removable(h, col)
    ensures Legal(Pop(h, col), col) && Drop(Pop(h, col), col) == h
  {
    assert h[col] == h[col][..|h[col]| - 1] + [h[col][|h[col]| - 1]];
  }

  lemma PopDrop(g: Grid, col: nat)
    requires Legal(g, col)
    ensures Removable(Drop(g, col), col) && Pop(Drop(g, col), col) == g
  {
    var h := Drop(g, col);
    assert h[col][..|h[col]| - 1] == g[col];
  }

  /** Soundness: a removal order, reversed, replays to the grid it emptied. */
  lemma {:induction false} RemovalReplays(h: Grid, path: seq<nat>)
    requires GridEmpties(h, path)
    ensures Play(EMPTY, Reverse(path)) == Some(h)
    decreases path
  {
    if path == [] {
      assert h == EMPTY;
    } else {
      RemovalReplays(Pop(h, path[0]), path[1..]);
      PlayAppend(EMPTY, Reverse(path[1..]), [path[0]]);
      DropPop(h, path[0]);
      assert Play(Pop(h, path[0]), [path[0]]) == Play(Drop(Pop(h, path[0]), path[0]), []);
    }
  }

  /** Completeness: the moves that led to a grid, reversed, are a removal order. */
  lemma {:induction false} ReplayRemoves(moves: seq<nat>, h: Grid)
    requires Play(EMPTY, moves) == Some(h)
    ensures GridEmpties(h, Reverse(moves))
    decreases moves
  {
    if moves != [] {
      var n := |moves| - 1;
      assert moves == moves[..n] + [moves[n]];
      PlayAppend(EMPTY, moves[..n], [moves[n]]);
      var g := Play(EMPTY, moves[..n]).value;
      assert Legal(g, moves[n]) && h == Drop(g, moves[n]) by {
        assert Play(g, [moves[n]]) == if Legal(g, moves[n]) then Play(Drop(g, moves[n]), []) else None;
      }
      ReplayRemoves(moves[..n], g);
      PopDrop(g, moves[n]);
      ReverseAppend(moves[..n], moves[n]);
    }
  }

  /** On a reachable position some removal order exists, and every one replays to that position. */
  lemma ReachableEmpties(played: seq<nat>, p: Position)
    requires FromMoves(played) == Some(p)
    ensures Empties(p, p, Reverse(played))
    ensures forall path :: Empties(p, p, path) ==>
      |path| == PlyOf(p) == |played| && FromMoves(Reverse(path)) == Some(p)
  {
    FromMovesRefinesPlay(played);
    var g := Play(EMPTY, played).value;
    ReplayRemoves(played, g);
    EmptiesRefines(g, g, Reverse(played));
    PlyRefinesPly(g);
    forall path | Empties(p, p, path)
      ensures |path| == PlyOf(p) && FromMoves(Reverse(path)) == Some(p)
    {
      EmptiesRefines(g, g, path);
      RemovalReplays(g, path);
      FromMovesRefinesPlay(Reverse(path));
    }
  }

  /**
   For every position reachable by moves, reconstruction succeeds; its result has length `ply` and
   replays to the same position, bit for bit. Boards played past a win are included.
   */
  method ToMovesOfReachable(ghost played: seq<nat>, p: Position) returns (moves: seq<nat>)
    requires FromMoves(played) == Some(p)
    ensures |moves| == PlyOf(p)
    ensures FromMoves(moves) == Some(p)
  {
    ReachableEmpties(played, p);
    var result := ToMoves(p);
    moves := result.value;
    ReverseReverse(moves);
  }

  lemma SameGrid(g: Grid, h: Grid)
    requires g[0] == h[0] && g[1] == h[1] && g[2] == h[2] && g[3] == h[3]
    requires g[4] == h[4] && g[5] == h[5] && g[6] == h[6]
    ensures g == h
  {
  }

  const AFTER_0: Grid := [[First], [], [], [], [], [], []]
  const AFTER_01: Grid := [[First], [Second], [], [], [], [], []]
  const AFTER_011: Grid := [[First], [Second, First], [], [], [], [], []]
  const DEAD_END: Grid := [[], [Second, First], [], [], [], [], []]

  lemma ForkMoves()
    ensures Drop(EMPTY, 0) == AFTER_0 && Drop(AFTER_0, 1) == AFTER_01 && Drop(AFTER_01, 1) == AFTER_011
    ensures Pop(AFTER_011, 0) == DEAD_END
  {
    SameGrid(Drop(EMPTY, 0), AFTER_0);
    SameGrid(Drop(AFTER_0, 1), AFTER_01);
    SameGrid(Drop(AFTER_01, 1), AFTER_011);
    SameGrid(Pop(AFTER_011, 0), DEAD_END);
  }

  lemma ForkPlay()
    ensures Play(EMPTY, [0, 1, 1]) == Some(AFTER_011)
  {
    ForkMoves();
    assert [0, 1, 1][1..] == [1, 1] && [1, 1][1..] == [1];
    assert Play(AFTER_01, [1]) == Play(AFTER_011, []);
    assert Play(AFTER_0, [1, 1]) == Play(AFTER_01, [1]);
  }

  lemma ForkRight()
    ensures GridEmpties(AFTER_011, [1, 1, 0])
  {
    ForkPlay();
    ReplayRemoves([0, 1, 1], AFTER_011);
    assert [0, 1, 1][1..] == [1, 1] && [1, 1][1..] == [1];
    assert Reverse([1]) == [1];
    assert Reverse([1, 1]) == [1, 1];
    assert Reverse([0, 1, 1]) == [1, 1, 0];
  }

  /**
   The backtracking is needed: after 0, 1, 1 the first column offers a removal, and taking it
   leaves a board that no removal order empties, while starting with column 1 succeeds.
   */
  lemma GreedyChoiceFails()
    ensures Play(EMPTY, [0, 1, 1]) == Some(AFTER_011)
    ensures Removable(AFTER_011, 0)
    ensures forall path :: !GridEmpties(Pop(AFTER_011, 0), path)
    ensures GridEmpties(AFTER_011, [1, 1, 0])
  {
    ForkMoves();
    ForkPlay();
    ForkRight();
    forall path ensures !GridEmpties(DEAD_END, path) {
      assert Mover(DEAD_END) == First;
      assert path != [] ==> !Removable(DEAD_END, path[0]);
    }
  }
}
