/**
 The bitboard on machine words. `Positions` works on sets of bit indices; here the same operations are
 written with the shifts and masks of `cpp/src/position.cpp` on 64-bit vectors, and proved to denote them.
 */
module MachineBoard {
  import opened Board
  import opened Positions
  import opened Words

  // ----- indices ----------------------------------------------------------------------------------

  /** A bit index as a number. */
  ghost function Nat(j: bv64): nat
    decreases j
  {
    if j == 0 then 0 else Nat(j - 1) + 1
  }

  lemma NatStep(j: bv64)
    requires j != 0
    ensures Nat(j) == Nat(j - 1) + 1
  {
  }

  lemma SamePredecessor(a: bv64, b: bv64)
    requires a - 1 == b - 1
    ensures a == b
  {
  }

  lemma {:induction false} NatInjective(a: bv64, b: bv64)
    requires Nat(a) == Nat(b)
    ensures a == b
    decreases Nat(a)
  {
    if a != 0 && b != 0 {
      NatStep(a);
      NatStep(b);
      NatInjective(a - 1, b - 1);
      SamePredecessor(a, b);
    }
  }

  lemma {:induction false} NatAdd(a: bv64, b: bv64)
    requires a < 64 && b < 64
    ensures Nat(a + b) == Nat(a) + Nat(b)
    decreases b
  {
    if b != 0 {
      assert a + b != 0 && (a + b) - 1 == a + (b - 1);
      NatAdd(a, b - 1);
    } else {
      assert a + b == a;
    }
  }

  lemma Nat63()
    ensures Nat(63) == 63
  {
    assert Nat(1) == 1;
    NatAdd(1, 1);
    NatAdd(2, 2);
    NatAdd(4, 4);
    NatAdd(8, 8);
    NatAdd(16, 16);
    NatAdd(1, 2);
    NatAdd(3, 4);
    NatAdd(7, 8);
    NatAdd(15, 16);
    NatAdd(31, 32);
  }

  lemma Complement(j: bv64)
    requires j < 64
    ensures 63 - j < 64 && j + (63 - j) == 63
  {
  }

  lemma NatRange(j: bv64)
    requires j < 64
    ensures Nat(j) < 64
  {
    Complement(j);
    NatAdd(j, 63 - j);
    Nat63();
  }

  /** The index with a given number. */
  lemma {:induction false} SomeIndex(k: nat) returns (j: bv64)
    requires k < 64
    ensures j < 64 && Nat(j) == k
  {
    if k == 0 {
      j := 0;
    } else {
      var i := SomeIndex(k - 1);
      Nat63();
      assert i != 63;
      j := i + 1;
      assert j - 1 == i;
    }
  }

  lemma IndexExists(k: nat)
    requires k < 64
    ensures exists j: bv64 :: j < 64 && Nat(j) == k
  {
    var j := SomeIndex(k);
  }

  ghost function Index(k: nat): (j: bv64)
    requires k < 64
    ensures j < 64 && Nat(j) == k
  {
    IndexExists(k);
    var j: bv64 :| j < 64 && Nat(j) == k; j
  }

  lemma NatInRange(j: bv64)
    requires j < 64
    ensures Nat(j) < 64 && Index(Nat(j)) == j
  {
    NatRange(j);
    NatInjective(Index(Nat(j)), j);
  }

  // ----- words as sets ----------------------------------------------------------------------------

  /** The numbers of the one bits. */
  ghost function Bits(w: bv64): Word {
    set k: nat | k < 64 && Has(w, Index(k))
  }

  lemma InBits(w: bv64, k: nat)
    requires k < 64
    ensures k in Bits(w) <==> Has(w, Index(k))
  {
  }

  lemma BitsOr(a: bv64, b: bv64)
    ensures Bits(a | b) == Bits(a) + Bits(b)
  {
    forall k: nat | k < 64 ensures k in Bits(a | b) <==> k in Bits(a) + Bits(b) { HasOr(a, b, Index(k)); }
  }

  lemma BitsAnd(a: bv64, b: bv64)
    ensures Bits(a & b) == Bits(a) * Bits(b)
  {
    forall k: nat | k < 64 ensures k in Bits(a & b) <==> k in Bits(a) * Bits(b) { HasAnd(a, b, Index(k)); }
  }

  lemma BitsAndNot(a: bv64, b: bv64)
    ensures Bits(a & !b) == Bits(a) - Bits(b)
  {
    forall k: nat | k < 64 ensures k in Bits(a & !b) <==> k in Bits(a) - Bits(b) {
      HasAndNot(a, b, Index(k));
    }
  }

  /** `board_bit`. */
  ghost function BoardBit(k: nat): bv64
    requires k < 64
  {
    1 << Index(k)
  }

  lemma BitsOne(k: nat)
    requires k < 64
    ensures Bits(BoardBit(k)) == {k}
  {
    forall i: nat | i < 64 ensures i in Bits(BoardBit(k)) <==> i == k {
      HasBit(Index(k), Index(i));
    }
  }

  /** Testing a bit with `&`. */
  lemma TestBit(w: bv64, k: nat)
    requires k < 64
    ensures Tests(w, BoardBit(k)) <==> k in Bits(w)
  {
    var j, bit := Index(k), BoardBit(k);
    InBits(w, k);
    TestIndex(w, j, bit);
  }

  /** A word is determined by the numbers of its one bits. */
  lemma BitsInjective(a: bv64, b: bv64)
    requires Bits(a) == Bits(b)
    ensures a == b
  {
    forall j: bv64 ensures Has(a, j) <==> Has(b, j) {
      if j < 64 {
        NatInRange(j);
        assert Nat(j) in Bits(a) <==> Nat(j) in Bits(b);
      }
    }
    SameBits(a, b);
  }

  // ----- the operations on machine words ----------------------------------------------------------

  datatype Machine = Machine(mask: bv64, value: bv64)

  /** The position that two words stand for. */
  ghost function Denoted(m: Machine): Position {
    Position(Bits(m.mask), Bits(m.value))
  }

  ghost method SetBit(word: bv64, cell: bv64, k: nat) returns (r: bv64)
    requires Bits(cell) == {k}
    ensures Bits(r) == Bits(word) + {k}
  {
    r := word | cell;
    BitsOr(word, cell);
  }

  ghost method ClearBit(word: bv64, cell: bv64, k: nat) returns (r: bv64)
    requires Bits(cell) == {k}
    ensures Bits(r) == Bits(word) - {k}
  {
    r := word & !cell;
    BitsAndNot(word, cell);
  }

  lemma BitsNotAnd(a: bv64, b: bv64)
    ensures Bits(!a & b) == Bits(b) - Bits(a)
  {
    Commutes(!a, b);
    BitsAndNot(b, a);
  }

  lemma Commutes(a: bv64, b: bv64)
    ensures a & b == b & a
  {
  }

  /** `inverted`. */
  ghost method InvertWords(m: Machine) returns (n: Machine)
    ensures Denoted(n) == Inverted(Denoted(m))
  {
    n := m.(value := !m.value & m.mask);
    BitsNotAnd(m.value, m.mask);
  }

  /** `set_piece`. */
  ghost method SetPieceWords(m: Machine, row: nat, col: nat, piece: Option<CellValue>) returns (n: Machine)
    requires row < ROWS && col < COLS
    ensures Denoted(n) == SetPiece(Denoted(m), row, col, piece)
  {
    var k := Bit(row, col);
    var cell := BoardBit(k);
    BitsOne(k);
    var mask, value;
    match piece {
      case None =>
        mask := ClearBit(m.mask, cell, k);
        value := ClearBit(m.value, cell, k);
      case Some(Opponent) =>
        mask := SetBit(m.mask, cell, k);
        value := ClearBit(m.value, cell, k);
      case Some(Player) =>
        mask := SetBit(m.mask, cell, k);
        value := SetBit(m.value, cell, k);
    }
    n := Machine(mask, value);
  }

  /** `make_move`, with the shifts and masks of the code: the lowest row whose bit is clear. */
  ghost method MakeMoveWords(m: Machine, col: nat) returns (r: Option<Machine>)
    ensures match r
            case None => MakeMove(Denoted(m), col) == None
            case Some(n) => MakeMove(Denoted(m), col) == Some(Denoted(n))
  {
    if col >= COLS {
      return None;
    }
    for row := 0 to ROWS
      invariant LowestEmpty(Denoted(m), col, 0) == LowestEmpty(Denoted(m), col, row)
    {
      TestBit(m.mask, Bit(row, col));
      if !Tests(m.mask, BoardBit(Bit(row, col))) {
        var n := SetPieceWords(m, row, col, Some(Player));
        n := InvertWords(n);
        return Some(n);
      }
    }
    r := None;
  }

  /** The test of one winning mask. */
  lemma CoversDenotes(pieces: bv64, win: bv64)
    ensures pieces & win == win <==> Bits(win) <= Bits(pieces)
  {
    BitsAnd(pieces, win);
    if Bits(win) <= Bits(pieces) {
      assert Bits(pieces & win) == Bits(win);
      BitsInjective(pieces & win, win);
    }
  }

  // ----- the population count ---------------------------------------------------------------------

  function PopCount(w: bv64): nat
    decreases w
  {
    if w == 0 then 0
    else
      HalfSmaller(w);
      (if Tests(w, 1) then 1 else 0) + PopCount(w >> 1)
  }

  lemma HalfSmaller(w: bv64)
    requires w != 0
    ensures w >> 1 < w
  {
  }

  lemma HasHalf(w: bv64, j: bv64)
    requires j < 64
    ensures Has(w >> 1, j) <==> j < 63 && Has(w, j + 1)
  {
  }

  lemma HasLow(w: bv64)
    ensures Has(w, 0) <==> Tests(w, 1)
  {
  }

  lemma NextIndex(k: nat)
    requires k < 63
    ensures Index(k) < 63 && Index(k + 1) == Index(k) + 1
  {
    Nat63();
    assert Index(k) != 63;
    NatStep(Index(k) + 1);
    NatInjective(Index(k + 1), Index(k) + 1);
  }

  lemma HalfBits(w: bv64, k: nat)
    ensures k in Bits(w >> 1) <==> k + 1 in Bits(w)
  {
    if k < 64 {
      HasHalf(w, Index(k));
      if k < 63 {
        NextIndex(k);
      } else {
        Nat63();
        NatInjective(Index(k), 63);
      }
    }
  }

  lemma LowBits(w: bv64)
    ensures 0 in Bits(w) <==> Tests(w, 1)
  {
    NatInjective(Index(0), 0);
    HasLow(w);
  }

  predicate NextIn(s: set<nat>, k: nat) {
    k + 1 in s
  }

  /** A set and the set of its predecessors. */
  lemma {:induction false} ShiftedCount(s: set<nat>, t: set<nat>)
    requires forall k: nat :: k in t <==> NextIn(s, k)
    ensures |s| == |t| + if 0 in s then 1 else 0
    decreases s
  {
    if s == {} {
      assert t == {};
    } else {
      var x :| x in s;
      if x == 0 {
        ShiftedCount(s - {0}, t);
      } else {
        assert NextIn(s, x - 1);
        ShiftedCount(s - {x}, t - {x - 1});
      }
    }
  }

  /** `std::popcount` is the number of one bits, so `ply` is the size of the mask as a set. */
  lemma {:induction false} PopCountIsSize(w: bv64)
    ensures PopCount(w) == |Bits(w)|
    decreases w
  {
    if w == 0 {
      assert Bits(w) == {};
    } else {
      HalfSmaller(w);
      PopCountIsSize(w >> 1);
      LowBits(w);
      forall k: nat ensures k in Bits(w >> 1) <==> NextIn(Bits(w), k) { HalfBits(w, k); }
      ShiftedCount(Bits(w), Bits(w >> 1));
    }
  }
}
