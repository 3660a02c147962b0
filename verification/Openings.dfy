/**
 Arena openings of `src/c4a0/training_v2.py`: the coordinator plays random moves on its own
 list-of-lists board, scans it for four in a row, and keeps mirrored pairs with new boards. Only one
 opening of each pair is tested; the theorem is that all of them are non-terminal, with pairwise
 distinct boards.
 */
module Openings {
  import opened Board

  /** A six by seven board of 0 (empty), 1 and 2. */
  type PyBoard = b: seq<seq<int>> | |b| == ROWS && forall r :: 0 <= r < ROWS ==> |b[r]| == COLS
    witness seq(6, r => seq(7, c => 0))

  function Code(d: Disc): int {
    if d.First? then 1 else 2
  }

  function CellCode(g: Grid, row: int, col: int): int {
    match Cell(g, row, col) case None => 0 case Some(d) => Code(d)
  }

  predicate Shows(b: PyBoard, heights: seq<nat>, g: Grid) {
    && |heights| == COLS
    && (forall c :: 0 <= c < COLS ==> heights[c] == |g[c]|)
    && (forall r, c :: 0 <= r < ROWS && 0 <= c < COLS ==> b[r][c] == CellCode(g, r, c))
  }

  const SCAN: seq<(int, int)> := [(1, 0), (0, 1), (1, 1), (1, -1)]

  predicate OwnedBy(b: PyBoard, player: int, row: int, col: int) {
    0 <= row < ROWS && 0 <= col < COLS && b[row][col] == player
  }

  predicate Run(b: PyBoard, player: int, row: int, col: int, d: int)
    requires 0 <= d < 4
  {
    var (dr, dc) := SCAN[d];
    && OwnedBy(b, player, row, col)
    && OwnedBy(b, player, row + dr, col + dc)
    && OwnedBy(b, player, row + 2 * dr, col + 2 * dc)
    && OwnedBy(b, player, row + 3 * dr, col + 3 * dc)
  }

  /** `_winning`: the triple scan. */
  method Winning(b: PyBoard, player: int) returns (won: bool)
    ensures won <==> exists row, col, d :: 0 <= d < 4 && Run(b, player, row, col, d)
  {
    for row := 0 to ROWS
      invariant forall r, c, d :: 0 <= d < 4 && 0 <= r < row ==> !Run(b, player, r, c, d)
    {
      for col := 0 to COLS
        invariant forall c, d :: 0 <= d < 4 && 0 <= c < col ==> !Run(b, player, row, c, d)
      {
        for d := 0 to 4
          invariant forall e :: 0 <= e < d ==> !Run(b, player, row, col, e)
        {
          if Run(b, player, row, col, d) {
            return true;
          }
        }
      }
    }
    won := false;
  }

  /** The list scan is four in a row on the grid it shows. */
  lemma RunIsHasFour(b: PyBoard, heights: seq<nat>, g: Grid, p: Disc)
    requires Shows(b, heights, g)
    ensures (exists row, col, d :: 0 <= d < 4 && Run(b, Code(p), row, col, d)) <==> HasFour(g, p)
  {
    forall row, col, d | 0 <= d < 4 && Run(b, Code(p), row, col, d) ensures HasFour(g, p) {
      RunIsFour(b, heights, g, p, row, col, d);
    }
    if HasFour(g, p) {
      var row: int, col: int, dir: Direction :| FourFrom(g, p, row, col, dir);
      FourIsRun(b, heights, g, p, row, col, dir);
    }
  }

  lemma RunIsFour(b: PyBoard, heights: seq<nat>, g: Grid, p: Disc, row: int, col: int, d: int)
    requires Shows(b, heights, g) && 0 <= d < 4 && Run(b, Code(p), row, col, d)
    ensures HasFour(g, p)
  {
    match d
    case 0 => assert FourFrom(g, p, row, col, North);
    case 1 => assert FourFrom(g, p, row, col, East);
    case 2 => assert FourFrom(g, p, row, col, NorthEast);
    case 3 => assert FourFrom(g, p, row + 3, col - 3, SouthEast);
  }

  lemma FourIsRun(b: PyBoard, heights: seq<nat>, g: Grid, p: Disc, row: int, col: int, dir: Direction)
    requires Shows(b, heights, g) && FourFrom(g, p, row, col, dir)
    ensures exists r, c, d :: 0 <= d < 4 && Run(b, Code(p), r, c, d)
  {
    FourIsOnBoard(g, p, row, col, dir);
    match dir
    case North => assert Run(b, Code(p), row, col, 0);
    case East => assert Run(b, Code(p), row, col, 1);
    case NorthEast => assert Run(b, Code(p), row, col, 2);
    case SouthEast => assert Run(b, Code(p), row - 3, col + 3, 3);
  }

  /** A drop cannot create four in a row for the other player. */
  lemma DropKeepsOther(g: Grid, col: int)
    requires Legal(g, col)
    ensures HasFour(g, Mover(g).Other()) <==> HasFour(Drop(g, col), Mover(g).Other())
  {
    var d := Mover(g).Other();
    forall row: int, c: int, dir: Direction
      ensures FourFrom(g, d, row, c, dir) <==> FourFrom(Drop(g, col), d, row, c, dir)
    {
      OtherCell(g, col, row, c);
      OtherCell(g, col, row + dir.Dr(), c + dir.Dc());
      OtherCell(g, col, row + 2 * dir.Dr(), c + 2 * dir.Dc());
      OtherCell(g, col, row + 3 * dir.Dr(), c + 3 * dir.Dc());
    }
  }

  lemma OtherCell(g: Grid, col: int, row: int, c: int)
    requires Legal(g, col)
    ensures Cell(Drop(g, col), row, c) == Some(Mover(g).Other()) <==> Cell(g, row, c) == Some(Mover(g).Other())
  {
  }

  lemma DropKeepsOwn(g: Grid, col: int)
    requires Legal(g, col) && HasFour(g, Mover(g))
    ensures HasFour(Drop(g, col), Mover(g))
  {
    var row: int, c: int, dir: Direction :| FourFrom(g, Mover(g), row, c, dir);
    assert FourFrom(Drop(g, col), Mover(g), row, c, dir);
  }

  ghost predicate Undecided(g: Grid) {
    !HasFour(g, First) && !HasFour(g, Second)
  }

  lemma EmptyUndecided()
    ensures Undecided(EMPTY)
  {
  }

  lemma UndecidedAfterDrop(g: Grid, col: int)
    requires Legal(g, col) && Undecided(g)
    ensures Undecided(Drop(g, col)) <==> !HasFour(Drop(g, col), Mover(g))
  {
    DropKeepsOther(g, col);
  }

  /** Four in a row persists, so a decided prefix decides the whole sequence. */
  lemma {:induction false} DecidedPersists(g: Grid, moves: seq<nat>)
    requires !Undecided(g)
    ensures Play(g, moves).Some? ==> !Undecided(Play(g, moves).value)
    decreases moves
  {
    if moves != [] && Legal(g, moves[0]) {
      DropKeepsOther(g, moves[0]);
      if HasFour(g, Mover(g)) {
        DropKeepsOwn(g, moves[0]);
      }
      DecidedPersists(Drop(g, moves[0]), moves[1..]);
    }
  }

  /** The moves play out and nobody has four in a row at the end (equivalently, ever). */
  ghost predicate NonTerminal(moves: seq<nat>) {
    Play(EMPTY, moves).Some? && Undecided(Play(EMPTY, moves).value)
  }

  method PutDisc(b: PyBoard, heights: seq<nat>, ghost g: Grid, col: nat)
    returns (b': PyBoard, heights': seq<nat>)
    requires Shows(b, heights, g) && Legal(g, col)
    ensures Shows(b', heights', Drop(g, col))
  {
    var player := if Total(heights) % 2 == 0 then 1 else 2;
    assert Total(heights) == Ply(g);
    var row := heights[col];
    b' := b[row := b[row][col := player]];
    heights' := heights[col := row + 1];
  }

  function Total(heights: seq<nat>): nat
    requires |heights| == COLS
  {
    heights[0] + heights[1] + heights[2] + heights[3] + heights[4] + heights[5] + heights[6]
  }

  /** `_opening_is_nonterminal`: only the player who just moved is tested. */
  method OpeningIsNonterminal(moves: seq<nat>) returns (result: bool)
    ensures result <==> NonTerminal(moves)
  {
    var b: PyBoard := seq(6, r => seq(7, c => 0));
    var heights: seq<nat> := seq(7, c => 0);
    var player := 1;
    ghost var g := EMPTY;
    EmptyUndecided();
    assert moves[0..] == moves;
    for i := 0 to |moves|
      invariant Shows(b, heights, g) && Undecided(g)
      invariant player == Code(Mover(g))
      invariant Play(EMPTY, moves) == Play(g, moves[i..])
    {
      var move := moves[i];
      assert moves[i..][1..] == moves[i + 1..];
      if move >= 7 || heights[move] >= 6 {
        return false;
      }
      b, heights := PutDisc(b, heights, g, move);
      UndecidedAfterDrop(g, move);
      RunIsHasFour(b, heights, Drop(g, move), Mover(g));
      var won := Winning(b, player);
      if won {
        DecidedPersists(Drop(g, move), moves[i + 1..]);
        return false;
      }
      g := Drop(g, move);
      player := 3 - player;
    }
    result := true;
  }

  function KeyOf(g: Grid): seq<int> {
    seq(CELLS, k requires 0 <= k < CELLS => CellCode(g, k / 7, k % 7))
  }

  /** Equal keys mean equal boards. */
  lemma KeyInjective(g: Grid, h: Grid)
    requires KeyOf(g) == KeyOf(h)
    ensures g == h
  {
    forall c: nat, r: nat | c < COLS && r < ROWS ensures Cell(g, r, c) == Cell(h, r, c) {
      var k := r * 7 + c;
      assert k / 7 == r && k % 7 == c;
      assert KeyOf(g)[k] == KeyOf(h)[k];
    }
    forall c: nat | c < COLS ensures g[c] == h[c] {
      var shorter := if |g[c]| < |h[c]| then |g[c]| else |h[c]|;
      if shorter < ROWS {
        assert Cell(g, shorter, c) == Cell(h, shorter, c);
      }
      forall r: nat | r < |g[c]| ensures g[c][r] == h[c][r] {
        assert Cell(g, r, c) == Cell(h, r, c);
      }
    }
  }

  predicate Opening(moves: seq<nat>) {
    1 <= |moves| <= 6 && forall k :: 0 <= k < |moves| ==> moves[k] <= 6
  }

  /** Six moves always fit, so the key never indexes past a full column. */
  lemma {:induction false} OpeningFits(g: Grid, moves: seq<nat>)
    requires forall k :: 0 <= k < |moves| ==> moves[k] <= 6
    requires Ply(g) + |moves| <= 6
    ensures Play(g, moves).Some?
    decreases moves
  {
    if moves != [] {
      OpeningFits(Drop(g, moves[0]), moves[1..]);
    }
  }

  function Reached(moves: seq<nat>): Grid
    requires Opening(moves)
  {
    OpeningFits(EMPTY, moves);
    Play(EMPTY, moves).value
  }

  lemma ReachedReflect(moves: seq<nat>)
    requires Opening(moves)
    ensures Opening(Reflect(moves)) && Reached(Reflect(moves)) == Mirror(Reached(moves))
  {
    OpeningFits(EMPTY, moves);
    MirrorPlay(EMPTY, moves);
    assert Mirror(EMPTY) == EMPTY;
  }

  /** `_opening_key`. */
  method OpeningKey(moves: seq<nat>) returns (key: seq<int>)
    requires Opening(moves)
    ensures key == KeyOf(Reached(moves))
  {
    var b: PyBoard := seq(6, r => seq(7, c => 0));
    var heights: seq<nat> := seq(7, c => 0);
    ghost var g := EMPTY;
    assert moves[0..] == moves;
    for i := 0 to |moves|
      invariant Shows(b, heights, g) && Ply(g) == i
      invariant Play(EMPTY, moves) == Play(g, moves[i..])
    {
      assert moves[i..][1..] == moves[i + 1..];
      assert Legal(g, moves[i]);
      b, heights := PutDisc(b, heights, g, moves[i]);
      g := Drop(g, moves[i]);
    }
    key := seq(CELLS, k requires 0 <= k < CELLS => b[k / 7][k % 7]);
    assert key == KeyOf(g);
  }

  // ----- the generator ------------------------------------------------------------------------

  /** What the loop keeps: tested openings whose boards, mirrored boards included, all differ. */
  ghost predicate Base(base: set<seq<nat>>, positions: set<seq<int>>) {
    && (forall m :: m in base ==> Opening(m) && NonTerminal(m))
    && (forall m :: m in base ==> KeyOf(Reached(m)) in positions && KeyOf(Mirror(Reached(m))) in positions)
    && (forall m :: m in base ==> Reached(m) != Mirror(Reached(m)))
    && (forall m, n :: m in base && n in base && m != n ==>
          Reached(m) != Reached(n) && Reached(m) != Mirror(Reached(n)))
  }

  /** One pass of the `while` loop, for one drawn move sequence. */
  method Consider(base: set<seq<nat>>, positions: set<seq<int>>, moves: seq<nat>)
    returns (base': set<seq<nat>>, positions': set<seq<int>>)
    requires Opening(moves) && Base(base, positions)
    ensures Base(base', positions')
    ensures base' == base || (base' == base + {moves} && moves !in base)
  {
    base', positions' := base, positions;
    var mirrored := Reflect(moves);
    ReachedReflect(moves);
    var position_key := OpeningKey(moves);
    var mirrored_key := OpeningKey(mirrored);
    if moves == mirrored {
      return;
    }
    var fine := OpeningIsNonterminal(moves);
    if fine && mirrored !in base && position_key != mirrored_key
       && position_key !in positions && mirrored_key !in positions
    {
      base' := base + {moves};
      positions' := positions + {position_key} + {mirrored_key};
      NewOpening(base, positions, moves);
    }
  }

  lemma NewOpening(base: set<seq<nat>>, positions: set<seq<int>>, moves: seq<nat>)
    requires Base(base, positions) && Opening(moves) && NonTerminal(moves)
    requires KeyOf(Reached(moves)) !in positions && KeyOf(Mirror(Reached(moves))) !in positions
    requires KeyOf(Reached(moves)) != KeyOf(Mirror(Reached(moves)))
    ensures moves !in base
    ensures Base(base + {moves}, positions + {KeyOf(Reached(moves))} + {KeyOf(Mirror(Reached(moves)))})
  {
    MirrorInvolution(Reached(moves));
    forall n | n in base
      ensures Reached(moves) != Reached(n) && Reached(moves) != Mirror(Reached(n))
      ensures Reached(n) != Mirror(Reached(moves))
    {
      assert KeyOf(Reached(n)) in positions && KeyOf(Mirror(Reached(n))) in positions;
    }
  }

  /** Pairs of mirrored openings, one pair per kept opening. */
  ghost predicate Paired(openings: seq<seq<nat>>) {
    |openings| % 2 == 0 && forall i :: 0 <= i < |openings| && i % 2 == 0 ==> PairAt(openings, i)
  }

  predicate PairAt(openings: seq<seq<nat>>, i: nat) {
    i + 1 < |openings| && Opening(openings[i]) && openings[i + 1] == Reflect(openings[i])
  }

  ghost predicate GoodOpenings(openings: seq<seq<nat>>) {
    && (forall i :: 0 <= i < |openings| ==>
          Opening(openings[i]) && TerminalState(Reached(openings[i])).None?)
    && (forall i, j :: 0 <= i < j < |openings| ==> Reached(openings[i]) != Reached(openings[j]))
  }

  /**
   `_arena_openings` without a persisted file. `draws` are the random move sequences, in order; the
   result is `None` when they run out first. Of each mirrored pair only one member is tested, yet
   every opening is non-terminal and all boards differ; before the final truncation the list is
   closed under mirroring.
   */
  method ArenaOpenings(draws: seq<seq<nat>>, total_games: nat)
    returns (openings: Option<seq<seq<nat>>>, ghost full: seq<seq<nat>>)
    requires forall i :: 0 <= i < |draws| ==> Opening(draws[i])
    ensures openings.Some? ==>
      && |openings.value| == (total_games + 1) / 2
      && Paired(full) && openings.value <= full && |full| <= |openings.value| + 1
      && GoodOpenings(full)
  {
    var opening_count := (total_games + 1) / 2;
    var target := (opening_count + 1) / 2;
    var base: set<seq<nat>> := {};
    var positions: set<seq<int>> := {};
    var next := 0;
    while |base| < target
      invariant 0 <= next <= |draws| && |base| <= target
      invariant Base(base, positions)
      decreases |draws| - next
    {
      if next == |draws| {
        return None, [];
      }
      base, positions := Consider(base, positions, draws[next]);
      next := next + 1;
    }
    var all := Expand(base, positions);
    full := all;
    openings := Some(all[..opening_count]);
  }

  /** The board `g` belongs to the pair of some opening in `done`. */
  ghost predicate OfPair(g: Grid, done: set<seq<nat>>) {
    exists m :: m in done && Opening(m) && (g == Reached(m) || g == Mirror(Reached(m)))
  }

  ghost predicate AllOfPairs(openings: seq<seq<nat>>, done: set<seq<nat>>) {
    forall i :: 0 <= i < |openings| ==> Opening(openings[i]) && OfPair(Reached(openings[i]), done)
  }

  /** The final loop over the kept openings, each followed by its mirror image. */
  method Expand(base: set<seq<nat>>, ghost positions: set<seq<int>>) returns (openings: seq<seq<nat>>)
    requires Base(base, positions)
    ensures |openings| == 2 * |base|
    ensures Paired(openings) && GoodOpenings(openings)
  {
    openings := [];
    var rest := base;
    while rest != {}
      invariant rest <= base && |openings| + 2 * |rest| == 2 * |base|
      invariant Expanded(openings, base - rest)
    {
      var moves :| moves in rest;
      openings := AppendPair(base, positions, rest, openings, moves);
      rest := rest - {moves};
    }
  }

  method AppendPair(ghost base: set<seq<nat>>, ghost positions: set<seq<int>>, ghost rest: set<seq<nat>>,
                    openings: seq<seq<nat>>, moves: seq<nat>)
    returns (longer: seq<seq<nat>>)
    requires Base(base, positions) && rest <= base && moves in rest
    requires Expanded(openings, base - rest)
    ensures |longer| == |openings| + 2 && Expanded(longer, base - (rest - {moves}))
  {
    ExpandStep(base, positions, base - rest, openings, moves);
    assert base - (rest - {moves}) == base - rest + {moves};
    longer := openings + [moves, Reflect(moves)];
  }

  ghost predicate Expanded(openings: seq<seq<nat>>, done: set<seq<nat>>) {
    Paired(openings) && GoodOpenings(openings) && AllOfPairs(openings, done)
  }

  lemma ExpandStep(base: set<seq<nat>>, positions: set<seq<int>>, done: set<seq<nat>>, openings: seq<seq<nat>>,
                   moves: seq<nat>)
    requires Base(base, positions) && done <= base && moves in base && moves !in done
    requires Expanded(openings, done)
    ensures Opening(moves) && Expanded(openings + [moves, Reflect(moves)], done + {moves})
  {
    ReachedReflect(moves);
    AppendPaired(openings, moves);
    AppendGood(base, positions, done, openings, moves);
    AppendOfPairs(openings, done, moves);
  }

  lemma AppendPaired(openings: seq<seq<nat>>, moves: seq<nat>)
    requires Paired(openings) && Opening(moves)
    ensures Paired(openings + [moves, Reflect(moves)])
  {
    var longer := openings + [moves, Reflect(moves)];
    forall i | 0 <= i < |longer| && i % 2 == 0 ensures PairAt(longer, i) {
      if i < |openings| {
        assert PairAt(openings, i);
      }
    }
  }

  lemma AppendOfPairs(openings: seq<seq<nat>>, done: set<seq<nat>>, moves: seq<nat>)
    requires AllOfPairs(openings, done) && Opening(moves) && Opening(Reflect(moves))
    requires Reached(Reflect(moves)) == Mirror(Reached(moves))
    ensures AllOfPairs(openings + [moves, Reflect(moves)], done + {moves})
  {
    var longer := openings + [moves, Reflect(moves)];
    forall i | 0 <= i < |longer| ensures Opening(longer[i]) && OfPair(Reached(longer[i]), done + {moves}) {
      if i < |openings| {
        var g := Reached(openings[i]);
        var m :| m in done && Opening(m) && (g == Reached(m) || g == Mirror(Reached(m)));
        assert m in done + {moves};
      } else {
        assert moves in done + {moves};
      }
    }
  }

  /** The boards of another pair differ from both boards of this one. */
  lemma NewBoards(base: set<seq<nat>>, positions: set<seq<int>>, done: set<seq<nat>>, g: Grid, moves: seq<nat>)
    requires Base(base, positions) && done <= base && moves in base && moves !in done
    requires OfPair(g, done)
    ensures g != Reached(moves) && g != Mirror(Reached(moves))
  {
    var m :| m in done && Opening(m) && (g == Reached(m) || g == Mirror(Reached(m)));
    MirrorInvolution(Reached(m));
    MirrorInvolution(Reached(moves));
  }

  lemma AppendGood(base: set<seq<nat>>, positions: set<seq<int>>, done: set<seq<nat>>, openings: seq<seq<nat>>,
                   moves: seq<nat>)
    requires Base(base, positions) && done <= base && moves in base && moves !in done
    requires GoodOpenings(openings) && AllOfPairs(openings, done)
    ensures GoodOpenings(openings + [moves, Reflect(moves)])
  {
    var longer := openings + [moves, Reflect(moves)];
    ReachedReflect(moves);
    UndecidedIsNonterminal(moves);
    MirrorTerminal(Reached(moves));
    forall i | 0 <= i < |openings|
      ensures Reached(openings[i]) != Reached(moves) && Reached(openings[i]) != Mirror(Reached(moves))
    {
      NewBoards(base, positions, done, Reached(openings[i]), moves);
    }
  }

  lemma UndecidedIsNonterminal(moves: seq<nat>)
    requires Opening(moves) && NonTerminal(moves)
    ensures TerminalState(Reached(moves)).None?
  {
  }
}
