/**
 The single bits of a 64-bit board word: what `|`, `&`, `^`, `~` and `1 << k` do to each of them, and that
 they determine the word. MachineBoard.dfy draws the conclusions for the set of one bits, by which the
 rest of the project represents a `std::uint64_t` board word and a Python integer used as a bitboard.
 */
module Words {

  /** Bit `k` of the word `w` is one. */
  predicate Has(w: bv64, k: bv64) {
    k < 64 && w & (1 << k) != 0
  }

  predicate InWord(k: bv64) {
    k < 64
  }

  lemma HasOr(a: bv64, b: bv64, k: bv64)
    ensures Has(a | b, k) <==> Has(a, k) || Has(b, k)
  {
    if k < 64 {
      OrMeets(a, b, 1 << k);
    }
  }

  lemma OrMeets(a: bv64, b: bv64, s: bv64)
    ensures (a | b) & s != 0 <==> a & s != 0 || b & s != 0
  {
  }

  lemma HasAnd(a: bv64, b: bv64, k: bv64)
    ensures Has(a & b, k) <==> Has(a, k) && Has(b, k)
  {
  }

  lemma HasXor(a: bv64, b: bv64, k: bv64)
    ensures Has(a ^ b, k) <==> k < 64 && Has(a, k) != Has(b, k)
  {
  }

  lemma HasBit(j: bv64, k: bv64)
    requires j < 64
    ensures Has(1 << j, k) <==> j == k
  {
  }

  lemma NotIsXor(a: bv64)
    ensures !a == a ^ 0xffff_ffff_ffff_ffff
  {
  }

  lemma HasAll(k: bv64)
    ensures Has(0xffff_ffff_ffff_ffff, k) <==> k < 64
  {
  }

  lemma HasNot(a: bv64, k: bv64)
    ensures Has(!a, k) <==> InWord(k) && !Has(a, k)
  {
    NotIsXor(a);
    HasXor(a, 0xffff_ffff_ffff_ffff, k);
    HasAll(k);
  }

  lemma HasAndNot(a: bv64, b: bv64, k: bv64)
    ensures Has(a & !b, k) <==> Has(a, k) && !Has(b, k)
  {
    HasAnd(a, !b, k);
    HasNot(b, k);
  }

  predicate Tests(w: bv64, bit: bv64) {
    w & bit != 0
  }

  /** Testing one bit with `&`. */
  lemma TestIndex(w: bv64, j: bv64, bit: bv64)
    requires j < 64 && bit == 1 << j
    ensures Tests(w, bit) <==> Has(w, j)
  {
  }

  /** A word is determined by its one bits. */
  lemma SameBits(a: bv64, b: bv64)
    requires forall k :: Has(a, k) <==> Has(b, k)
    ensures a == b
  {
    if a ^ b != 0 {
      var k := SomeBit(a ^ b);
      HasXor(a, b, k);
      assert false;
    }
    XorZero(a, b);
  }

  /** A nonzero word has a one bit. */
  lemma SomeBit(x: bv64) returns (j: bv64)
    requires x != 0
    ensures Has(x, j)
    decreases x
  {
    if x & 1 != 0 {
      LowBit(x);
      j := 0;
    } else {
      HalfNonzero(x);
      var i := SomeBit(x >> 1);
      DoubleBit(x, i);
      j := i + 1;
    }
  }

  lemma LowBit(x: bv64)
    requires x & 1 != 0
    ensures Has(x, 0)
  {
  }

  lemma DoubleBit(x: bv64, i: bv64)
    requires Has(x >> 1, i)
    ensures Has(x, i + 1)
  {
  }

  lemma HalfNonzero(x: bv64)
    requires x != 0 && x & 1 == 0
    ensures x >> 1 != 0 && x >> 1 < x
  {
  }

  lemma XorZero(a: bv64, b: bv64)
    requires a ^ b == 0
    ensures a == b
  {
  }
}
