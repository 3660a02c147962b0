/**
 The memoised depth-limited negamax of `src/c4a0/minimax_harness.py`. The cached early-exit search
 is proved against plain negamax for every correct cache, every cache eviction and every
 interruption; and plain negamax is proved to decide forced wins and losses.
 */
module Minimax {
  import opened Board
  import opened Positions
  import opened WinTests

  const CENTER_FIRST: seq<nat> := [3, 2, 4, 1, 5, 0, 6]
  const CACHE_LIMIT := 250_000

  function ColumnMask(col: nat): Word {
    {col, 7 + col, 14 + col, 21 + col, 28 + col, 35 + col}
  }

  predicate CanPlay(occupied: Word, col: nat) {
    col < COLS && 35 + col !in occupied
  }

  /** `_legal_moves`. */
  function LegalMoves(occupied: Word): seq<nat> {
    Filter(occupied, CENTER_FIRST)
  }

  function Filter(occupied: Word, cols: seq<nat>): (r: seq<nat>)
    ensures forall c :: c in r <==> c in cols && 35 + c !in occupied
  {
    if cols == [] then []
    else (if 35 + cols[0] !in occupied then [cols[0]] else []) + Filter(occupied, cols[1..])
  }

  lemma LegalMovesMeaning(occupied: Word, col: nat)
    ensures col in LegalMoves(occupied) <==> CanPlay(occupied, col)
  {
  }

  /** `_move_bit`: the column's population count picks the row. */
  function MoveBit(occupied: Word, col: nat): nat {
    |occupied * ColumnMask(col)| * 7 + col
  }

  function After(current: Word, opponent: Word, col: nat): Word {
    current + {MoveBit(current + opponent, col)}
  }

  // ----- plain depth-limited negamax ------------------------------------------------------------

  function Max(a: int, b: int): int {
    if a < b then b else a
  }

  /** The value of playing `col`: 1 for four in a row, else the negated reply, else 0 at the horizon. */
  ghost function Child(current: Word, opponent: Word, depth: nat, col: nat): int
    requires depth > 0
    decreases depth, 0, 0
  {
    var after := After(current, opponent, col);
    if HasLine(after) then 1 else if depth > 1 then -NegaMax(opponent, after, depth - 1) else 0
  }

  ghost function Best(current: Word, opponent: Word, depth: nat, cols: seq<nat>): int
    requires depth > 0
    decreases depth, 1, |cols|
  {
    if cols == [] then -1
    else Max(Best(current, opponent, depth, cols[..|cols| - 1]), Child(current, opponent, depth, cols[|cols| - 1]))
  }

  ghost function NegaMax(current: Word, opponent: Word, depth: nat): int
    requires depth > 0
    decreases depth, 2, 0
  {
    var legal := LegalMoves(current + opponent);
    if legal == [] then 0 else Best(current, opponent, depth, legal)
  }

  lemma {:induction false} NegaMaxRange(current: Word, opponent: Word, depth: nat)
    requires depth > 0
    ensures -1 <= NegaMax(current, opponent, depth) <= 1
    decreases depth, 1, 0
  {
    BestRange(current, opponent, depth, LegalMoves(current + opponent));
  }

  lemma {:induction false} BestRange(current: Word, opponent: Word, depth: nat, cols: seq<nat>)
    requires depth > 0
    ensures -1 <= Best(current, opponent, depth, cols) <= 1
    decreases depth, 0, |cols|
  {
    if cols != [] {
      BestRange(current, opponent, depth, cols[..|cols| - 1]);
      ChildRange(current, opponent, depth, cols[|cols| - 1]);
    }
  }

  lemma {:induction false} ChildRange(current: Word, opponent: Word, depth: nat, col: nat)
    requires depth > 0
    ensures -1 <= Child(current, opponent, depth, col) <= 1
    decreases depth, 0, 0
  {
    if depth > 1 {
      NegaMaxRange(opponent, After(current, opponent, col), depth - 1);
    }
  }

  /** `Best` is the maximum of the children, with floor -1. */
  lemma {:induction false} BestIsUpper(current: Word, opponent: Word, depth: nat, cols: seq<nat>, c: nat)
    requires depth > 0 && c in cols
    ensures Child(current, opponent, depth, c) <= Best(current, opponent, depth, cols)
    decreases |cols|
  {
    var n := |cols| - 1;
    if c in cols[..n] {
      BestIsUpper(current, opponent, depth, cols[..n], c);
    } else {
      assert c == cols[n];
    }
  }

  lemma {:induction false} BestIsAttained(current: Word, opponent: Word, depth: nat, cols: seq<nat>)
    returns (c: nat)
    requires depth > 0 && cols != []
    ensures c in cols && Child(current, opponent, depth, c) == Best(current, opponent, depth, cols)
    decreases |cols|
  {
    var n := |cols| - 1;
    ChildRange(current, opponent, depth, cols[n]);
    if n == 0 || Child(current, opponent, depth, cols[n]) >= Best(current, opponent, depth, cols[..n]) {
      c := cols[n];
    } else {
      c := BestIsAttained(current, opponent, depth, cols[..n]);
    }
  }

  lemma BestIsMaximum(current: Word, opponent: Word, depth: nat, cols: seq<nat>)
    requires depth > 0
    ensures forall c :: c in cols ==> Child(current, opponent, depth, c) <= Best(current, opponent, depth, cols)
    ensures cols != [] ==>
      exists c :: c in cols && Child(current, opponent, depth, c) == Best(current, opponent, depth, cols)
  {
    forall c | c in cols ensures Child(current, opponent, depth, c) <= Best(current, opponent, depth, cols) {
      BestIsUpper(current, opponent, depth, cols, c);
    }
    if cols != [] {
      var c := BestIsAttained(current, opponent, depth, cols);
      assert c in cols;
    }
  }

  lemma BestSnoc(current: Word, opponent: Word, depth: nat, cols: seq<nat>, i: nat)
    requires depth > 0 && i < |cols|
    ensures cols[..i + 1] == cols[..i] + [cols[i]]
    ensures Best(current, opponent, depth, cols[..i + 1])
         == Max(Best(current, opponent, depth, cols[..i]), Child(current, opponent, depth, cols[i]))
  {
    assert cols[..i + 1][..i] == cols[..i];
  }

  /** `best` holds the columns of `cols` that reach the maximum. */
  ghost predicate ArgMax(current: Word, opponent: Word, depth: nat, cols: seq<nat>, best: set<nat>)
    requires depth > 0
  {
    forall c :: c in best <==> c in cols && Child(current, opponent, depth, c) == Best(current, opponent, depth, cols)
  }

  /** The running best of `__call__`, which starts below every score. */
  ghost function Running(current: Word, opponent: Word, depth: nat, cols: seq<nat>): int
    requires depth > 0
  {
    if cols == [] then -2 else Best(current, opponent, depth, cols)
  }

  /** Appending a column: a larger score replaces the set, an equal one joins it. */
  lemma ArgMaxSnoc(current: Word, opponent: Word, depth: nat, cols: seq<nat>, col: nat, best: set<nat>)
    requires depth > 0 && ArgMax(current, opponent, depth, cols, best)
    ensures var running := Running(current, opponent, depth, cols);
            var score := Child(current, opponent, depth, col);
            && (score > running ==> ArgMax(current, opponent, depth, cols + [col], {col}))
            && (score == running ==> ArgMax(current, opponent, depth, cols + [col], best + {col}))
            && (score < running ==> ArgMax(current, opponent, depth, cols + [col], best))
            && Running(current, opponent, depth, cols + [col]) == Max(running, score)
  {
    var all := cols + [col];
    assert all[..|all| - 1] == cols;
    BestIsMaximum(current, opponent, depth, cols);
    ChildRange(current, opponent, depth, col);
    BestRange(current, opponent, depth, cols);
    assert Best(current, opponent, depth, all)
        == Max(Best(current, opponent, depth, cols), Child(current, opponent, depth, col));
    assert forall c :: c in all <==> c in cols || c == col;
  }

  /** A longer column list has a larger maximum. */
  lemma {:induction false} BestPrefix(current: Word, opponent: Word, depth: nat, cols: seq<nat>, n: nat)
    requires depth > 0 && n <= |cols|
    ensures Best(current, opponent, depth, cols[..n]) <= Best(current, opponent, depth, cols)
    decreases |cols|
  {
    if n < |cols| {
      BestPrefix(current, opponent, depth, cols[..|cols| - 1], n);
      assert cols[..|cols| - 1][..n] == cols[..n];
    } else {
      assert cols[..n] == cols;
    }
  }

  // ----- forced wins and losses -----------------------------------------------------------------

  /** A strategy picks a column from the mover's word, the other word and the plies left. */
  type Strategy = (Word, Word, nat) -> nat

  /** Following `s`, the mover completes four in a row within `depth` plies against every defence. */
  ghost predicate WinsWith(s: Strategy, current: Word, opponent: Word, depth: nat)
    decreases depth
  {
    && depth > 0
    && var col := s(current, opponent, depth);
       var after := After(current, opponent, col);
       && col in LegalMoves(current + opponent)
       && (HasLine(after) || (depth > 1 && LosesTo(s, opponent, after, depth - 1)))
  }

  /** Whatever the mover plays (and it must have a move), the other side then wins by `s`. */
  ghost predicate LosesTo(s: Strategy, current: Word, opponent: Word, depth: nat)
    decreases depth
  {
    && depth > 1
    && LegalMoves(current + opponent) != []
    && forall col :: col in LegalMoves(current + opponent) ==>
         var after := After(current, opponent, col);
         !HasLine(after) && WinsWith(s, opponent, after, depth - 1)
  }

  ghost predicate ForcedWin(current: Word, opponent: Word, depth: nat) {
    exists s: Strategy :: WinsWith(s, current, opponent, depth)
  }

  ghost predicate ForcedLoss(current: Word, opponent: Word, depth: nat) {
    exists s: Strategy :: LosesTo(s, current, opponent, depth)
  }

  /** The column negamax would play: any column worth 1, if there is one. */
  ghost function WinningColumn(current: Word, opponent: Word, depth: nat): nat {
    if depth > 0 && exists c :: c in LegalMoves(current + opponent) && Child(current, opponent, depth, c) == 1 then
      var c :| c in LegalMoves(current + opponent) && Child(current, opponent, depth, c) == 1; c
    else 0
  }

  ghost function BestStrategy(): Strategy {
    (current, opponent, depth) => WinningColumn(current, opponent, depth)
  }

  lemma {:induction false} OneIsForcedWin(current: Word, opponent: Word, depth: nat)
    requires depth > 0
    ensures NegaMax(current, opponent, depth) == 1 ==> WinsWith(BestStrategy(), current, opponent, depth)
    ensures NegaMax(current, opponent, depth) == -1 ==> LosesTo(BestStrategy(), current, opponent, depth)
    decreases depth
  {
    var s := BestStrategy();
    var legal := LegalMoves(current + opponent);
    BestIsMaximum(current, opponent, depth, legal);
    if NegaMax(current, opponent, depth) == 1 {
      var col := s(current, opponent, depth);
      assert col in legal && Child(current, opponent, depth, col) == 1;
      if !HasLine(After(current, opponent, col)) {
        OneIsForcedWin(opponent, After(current, opponent, col), depth - 1);
      }
    }
    if NegaMax(current, opponent, depth) == -1 {
      forall col | col in legal
        ensures depth > 1 && !HasLine(After(current, opponent, col))
        ensures WinsWith(s, opponent, After(current, opponent, col), depth - 1)
      {
        ChildRange(current, opponent, depth, col);
        assert Child(current, opponent, depth, col) == -1;
        OneIsForcedWin(opponent, After(current, opponent, col), depth - 1);
      }
      assert legal[0] in legal;
    }
  }

  lemma {:induction false} ForcedWinIsOne(s: Strategy, current: Word, opponent: Word, depth: nat)
    requires depth > 0
    ensures WinsWith(s, current, opponent, depth) ==> NegaMax(current, opponent, depth) == 1
    ensures LosesTo(s, current, opponent, depth) ==> NegaMax(current, opponent, depth) == -1
    decreases depth
  {
    var legal := LegalMoves(current + opponent);
    BestIsMaximum(current, opponent, depth, legal);
    NegaMaxRange(current, opponent, depth);
    if WinsWith(s, current, opponent, depth) {
      var col := s(current, opponent, depth);
      if !HasLine(After(current, opponent, col)) {
        ForcedWinIsOne(s, opponent, After(current, opponent, col), depth - 1);
      }
      assert Child(current, opponent, depth, col) == 1;
    }
    if LosesTo(s, current, opponent, depth) {
      forall col | col in legal ensures Child(current, opponent, depth, col) == -1 {
        ForcedWinIsOne(s, opponent, After(current, opponent, col), depth - 1);
      }
    }
  }

  /** Value 1 means exactly a forced win within the depth. */
  lemma OneMeansForcedWin(current: Word, opponent: Word, depth: nat)
    requires depth > 0
    ensures NegaMax(current, opponent, depth) == 1 <==> ForcedWin(current, opponent, depth)
  {
    OneIsForcedWin(current, opponent, depth);
    if ForcedWin(current, opponent, depth) {
      var s: Strategy :| WinsWith(s, current, opponent, depth);
      ForcedWinIsOne(s, current, opponent, depth);
    }
  }

  /** Value -1 means exactly a forced loss within the depth. */
  lemma MinusOneMeansForcedLoss(current: Word, opponent: Word, depth: nat)
    requires depth > 0
    ensures NegaMax(current, opponent, depth) == -1 <==> ForcedLoss(current, opponent, depth)
  {
    OneIsForcedWin(current, opponent, depth);
    if ForcedLoss(current, opponent, depth) {
      var s: Strategy :| LosesTo(s, current, opponent, depth);
      ForcedWinIsOne(s, current, opponent, depth);
    }
  }

  lemma {:induction false} PersistsOnce(current: Word, opponent: Word, depth: nat)
    requires depth > 0
    ensures NegaMax(current, opponent, depth) == 1 ==> NegaMax(current, opponent, depth + 1) == 1
    ensures NegaMax(current, opponent, depth) == -1 ==> NegaMax(current, opponent, depth + 1) == -1
    decreases depth
  {
    var legal := LegalMoves(current + opponent);
    BestIsMaximum(current, opponent, depth, legal);
    BestIsMaximum(current, opponent, depth + 1, legal);
    NegaMaxRange(current, opponent, depth + 1);
    forall col | col in legal
      ensures Child(current, opponent, depth, col) == 1 ==> Child(current, opponent, depth + 1, col) == 1
      ensures Child(current, opponent, depth, col) == -1 ==> Child(current, opponent, depth + 1, col) == -1
    {
      if depth > 1 {
        PersistsOnce(opponent, After(current, opponent, col), depth - 1);
      }
    }
    if NegaMax(current, opponent, depth) == -1 {
      forall col | col in legal ensures Child(current, opponent, depth, col) == -1 {
        ChildRange(current, opponent, depth, col);
      }
    }
  }

  /** A decided value persists at every greater depth. */
  lemma {:induction false} Persists(current: Word, opponent: Word, depth: nat, deeper: nat)
    requires 0 < depth <= deeper
    ensures NegaMax(current, opponent, depth) == 1 ==> NegaMax(current, opponent, deeper) == 1
    ensures NegaMax(current, opponent, depth) == -1 ==> NegaMax(current, opponent, deeper) == -1
    decreases deeper - depth
  {
    if depth < deeper {
      PersistsOnce(current, opponent, depth);
      Persists(current, opponent, depth + 1, deeper);
    }
  }

  // ----- the evaluator --------------------------------------------------------------------------

  /** What interrupts a search at a given node count: cancellation or the deadline. */
  type Interruption = nat -> bool

  ghost predicate CorrectCache(cache: map<(Word, Word, nat), int>) {
    forall key :: key in cache ==> key.2 > 0 && cache[key] == NegaMax(key.0, key.1, key.2)
  }

  class MinimaxEvaluator {
    const depth: nat
    const interrupted: Interruption
    const winningMasks: seq<Word>
    var nodes: nat
    var cache: map<(Word, Word, nat), int>

    ghost predicate Valid()
      reads this
    {
      depth > 0 && ListsLines(winningMasks) && CorrectCache(cache)
    }

    constructor (depth: nat, interrupted: Interruption)
      requires depth > 0
      ensures Valid() && this.depth == depth && this.interrupted == interrupted
      ensures nodes == 0 && cache == map[]
    {
      var masks := PythonWinningMasks();
      this.depth := depth;
      this.interrupted := interrupted;
      winningMasks := masks;
      nodes := 0;
      cache := map[];
    }

    /**
     `_score`. `None` is the raised cancellation or timeout. Whatever the cache holds, as long as
     it is correct, and wherever it is cleared, the result is plain negamax; an interrupted search
     leaves a correct cache too.
     */
    method Score(current: Word, opponent: Word, remaining: nat) returns (result: Option<int>)
      requires Valid() && remaining > 0
      modifies this`nodes, this`cache
      ensures Valid() && nodes > old(nodes)
      ensures result.Some? ==> result.value == NegaMax(current, opponent, remaining)
      ensures result.None? ==> exists n :: old(nodes) < n <= nodes && n % 256 == 0 && interrupted(n)
      decreases remaining, 1
    {
      nodes := nodes + 1;
      if nodes % 256 == 0 && interrupted(nodes) {
        return None;
      }
      var key := (current, opponent, remaining);
      if key in cache {
        return Some(cache[key]);
      }
      var occupied := current + opponent;
      var legal := LegalMoves(occupied);
      if legal == [] {
        return Some(0);
      }
      var best := -1;
      var i := 0;
      while i < |legal|
        invariant 0 <= i <= |legal| && Valid() && nodes > old(nodes)
        invariant best == Best(current, opponent, remaining, legal[..i])
        invariant best < 1
      {
        BestSnoc(current, opponent, remaining, legal, i);
        var child := ChildScore(current, opponent, remaining, legal[i]);
        if child.None? {
          return None;
        }
        best := Max(best, child.value);
        i := i + 1;
        if best == 1 {
          break;
        }
      }
      BestPrefix(current, opponent, remaining, legal, i);
      BestRange(current, opponent, remaining, legal);
      assert legal[..|legal|] == legal;
      Remember(current, opponent, remaining, best);
      result := Some(best);
    }

    /** The store at the end of `_score`: a full cache is cleared first. */
    method Remember(current: Word, opponent: Word, remaining: nat, score: int)
      requires Valid() && remaining > 0 && score == NegaMax(current, opponent, remaining)
      modifies this`cache
      ensures Valid()
    {
      if |cache| >= CACHE_LIMIT {
        cache := map[];
      }
      cache := cache[(current, opponent, remaining) := score];
    }

    /** The score of one column, the expression shared by the two column loops. */
    method ChildScore(current: Word, opponent: Word, remaining: nat, col: nat) returns (result: Option<int>)
      requires Valid() && remaining > 0
      modifies this`nodes, this`cache
      ensures Valid() && nodes >= old(nodes)
      ensures result.Some? ==> result.value == Child(current, opponent, remaining, col) && -1 <= result.value <= 1
      ensures result.None? ==> exists n :: old(nodes) < n <= nodes && n % 256 == 0 && interrupted(n)
      decreases remaining, 0
    {
      var after_move := current + {MoveBit(current + opponent, col)};
      AnyMaskIsHasLine(winningMasks, after_move);
      ChildRange(current, opponent, remaining, col);
      if AnyMask(winningMasks, after_move) {
        result := Some(1);
      } else if remaining > 1 {
        var reply := Score(opponent, after_move, remaining - 1);
        if reply.None? {
          return None;
        }
        result := Some(-reply.value);
      } else {
        result := Some(0);
      }
    }

    /** The column loop of `__call__` for one board: the best score and the columns that reach it. */
    method BestMoves(current: Word, opponent: Word) returns (result: Option<(int, set<nat>)>)
      requires Valid()
      modifies this`nodes, this`cache
      ensures Valid()
      ensures result.Some? ==>
        && result.value.0 == NegaMax(current, opponent, depth)
        && ArgMax(current, opponent, depth, LegalMoves(current + opponent), result.value.1)
    {
      var occupied := current + opponent;
      var legal := LegalMoves(occupied);
      var best := -2;
      var best_moves: set<nat> := {};
      for i := 0 to |legal|
        invariant Valid()
        invariant best == Running(current, opponent, depth, legal[..i])
        invariant ArgMax(current, opponent, depth, legal[..i], best_moves)
      {
        BestSnoc(current, opponent, depth, legal, i);
        ArgMaxSnoc(current, opponent, depth, legal[..i], legal[i], best_moves);
        var child := ChildScore(current, opponent, depth, legal[i]);
        if child.None? {
          return None;
        }
        var score := child.value;
        if score > best {
          best, best_moves := score, {legal[i]};
        } else if score == best {
          best_moves := best_moves + {legal[i]};
        }
      }
      assert legal[..|legal|] == legal;
      BestOfLegal(current, opponent, depth);
      result := Some((if best != -2 then best else 0, best_moves));
    }

    /**
     `__call__`: every board gets logit 0 on exactly its best columns and -1e9 elsewhere, and its
     negamax value. `None` is the raised interruption.
     */
    method Evaluate(boards: seq<(Word, Word)>) returns (result: Option<(seq<seq<int>>, seq<int>)>)
      requires Valid()
      modifies this`nodes, this`cache
      ensures Valid()
      ensures result.Some? ==>
        && |result.value.0| == |result.value.1| == |boards|
        && forall row :: 0 <= row < |boards| ==> Marked(boards[row], depth, result.value.0[row], result.value.1[row])
    {
      var policies: seq<seq<int>> := [];
      var values: seq<int> := [];
      for row := 0 to |boards|
        invariant Valid() && |policies| == |values| == row
        invariant forall r :: 0 <= r < row ==> Marked(boards[r], depth, policies[r], values[r])
      {
        var found := BestMoves(boards[row].0, boards[row].1);
        if found.None? {
          return None;
        }
        var (best, best_moves) := found.value;
        forall c ensures c in LegalMoves(boards[row].0 + boards[row].1) <==> CanPlay(boards[row].0 + boards[row].1, c) {
          LegalMovesMeaning(boards[row].0 + boards[row].1, c);
        }
        BestOfLegal(boards[row].0, boards[row].1, depth);
        var policy := seq(COLS, c requires 0 <= c < COLS => if c in best_moves then 0 else -1_000_000_000);
        policies := policies + [policy];
        values := values + [best];
      }
      result := Some((policies, values));
    }
  }

  lemma BestOfLegal(current: Word, opponent: Word, depth: nat)
    requires depth > 0
    ensures var legal := LegalMoves(current + opponent);
            NegaMax(current, opponent, depth)
              == if legal == [] then 0 else Running(current, opponent, depth, legal)
    ensures Running(current, opponent, depth, LegalMoves(current + opponent)) == -2
       <==> LegalMoves(current + opponent) == []
  {
    BestRange(current, opponent, depth, LegalMoves(current + opponent));
  }

  ghost predicate Marked(board: (Word, Word), depth: nat, policy: seq<int>, value: int)
    requires depth > 0
  {
    && |policy| == COLS
    && value == NegaMax(board.0, board.1, depth)
    && forall c: nat :: c < COLS ==>
         policy[c] == if CanPlay(board.0 + board.1, c) && Child(board.0, board.1, depth, c) == value
                      then 0 else -1_000_000_000
  }

  // ----- the words are a Connect Four game ------------------------------------------------------

  /** The lowest `height` bits of a column. */
  function Rows(col: nat, height: nat): (r: Word)
    requires col < COLS
    ensures forall k: nat :: k in r <==> k % 7 == col && k / 7 < height
    ensures |r| == height
  {
    if height == 0 then {} else Rows(col, height - 1) + {Bit(height - 1, col)}
  }

  lemma ColumnCount(g: Grid, col: nat)
    requires col < COLS
    ensures |MaskOf(g) * ColumnMask(col)| == |g[col]|
  {
    forall k: nat ensures k in ColumnMask(col) <==> k in Rows(col, ROWS) {
    }
    assert MaskOf(g) * ColumnMask(col) == Rows(col, |g[col]|);
  }

  /** On gravity boards the search plays Connect Four: same legal columns, same resulting words. */
  lemma MovesAreDrops(g: Grid, col: nat)
    ensures CanPlay(MaskOf(g), col) <==> Legal(g, col)
    ensures Legal(g, col) ==>
      && After(DiscsOf(g, Mover(g)), DiscsOf(g, Mover(g).Other()), col) == DiscsOf(Drop(g, col), Mover(g))
      && DiscsOf(g, Mover(g).Other()) == DiscsOf(Drop(g, col), Mover(Drop(g, col)))
  {
    if col < COLS {
      LegalMoveRefinesLegal(g, col);
      if Legal(g, col) {
        AfterIsDrop(g, col);
      }
    }
  }

  lemma AfterIsDrop(g: Grid, col: nat)
    requires Legal(g, col)
    ensures After(DiscsOf(g, Mover(g)), DiscsOf(g, Mover(g).Other()), col) == DiscsOf(Drop(g, col), Mover(g))
    ensures DiscsOf(g, Mover(g).Other()) == DiscsOf(Drop(g, col), Mover(Drop(g, col)))
  {
    ColumnCount(g, col);
    BothPlayersDiscs(g);
    DiscsOfDrop(g, col, Mover(g));
    DiscsOfDrop(g, col, Mover(g).Other());
  }

  lemma BothPlayersDiscs(g: Grid)
    ensures DiscsOf(g, Mover(g)) + DiscsOf(g, Mover(g).Other()) == MaskOf(g)
  {
    OtherDiscs(g, Mover(g));
  }
}
