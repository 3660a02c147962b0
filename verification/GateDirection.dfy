/**
 What the sequential test of ArenaStatistics.dfy is positive for. The likelihood at the computed multiplier
 is within a few millionths of the smallest over all multipliers, so exchanging the hypotheses of a tilt
 bounds the log-likelihood ratio by the lead of the smoothed mean score: a mean above `p1` makes the ratio
 positive, one below `p0` makes it negative.
 */
module GateDirection {
  import opened ArenaStatistics

  // ----- one bin ----------------------------------------------------------------------------------

  function Abs(x: real): real {
    if x < 0.0 then -x else x
  }

  /** The regularised number of pairs. */
  function Mass(counts: Counts): real {
    Pairs(counts) as real + 5.0 * EPSILON
  }

  lemma RatioOfQuotients(f: real, a: real, b: real)
    requires f > 0.0 && a > 0.0 && b > 0.0
    ensures f / a > 0.0 && f / b > 0.0 && (f / a - f / b) / (f / b) == b / a - 1.0
  {
    PositiveQuotient(f, a);
    PositiveQuotient(f, b);
    var p, q := f / a, f / b;
    assert p * a == f && q * b == f;
    assert (b / a) * q == p by {
      assert b / a * a == b;
      assert (b / a * q) * a == q * b;
      SameQuotient(b / a * q, p, a);
    }
    assert (p - q) / q == b / a - 1.0 by {
      assert (b / a - 1.0) * q == p - q;
      SameQuotient((p - q) / q, b / a - 1.0, q);
    }
  }

  lemma SameQuotient(x: real, y: real, d: real)
    requires d > 0.0 && x * d == y * d
    ensures x == y
  {
    assert (x - y) * d == 0.0;
  }

  /** Changing the denominator of a tilt from `a` to `b`. */
  lemma LogTilt(ln: real -> real, f: real, a: real, b: real)
    requires IsLog(ln) && f > 0.0 && a > 0.0 && b > 0.0
    ensures ln(f / b) - ln(f / a) >= 1.0 - b / a
  {
    RatioOfQuotients(f, a, b);
    var x, y := f / a, f / b;
    assert ln(x) - ln(y) <= (x - y) / y;
  }

  /** The gap as a pull times a distance. */
  lemma GapIsPull(c: real, w: real, d: real, m: real, x: real, a: real, b: real)
    requires a > 0.0 && b > 0.0 && b == a + (x - m) * d && w == c + EPSILON && c >= 0.0
    ensures c * (1.0 - b / a) == Times(m - x, Term(c, d, a))
    ensures c * (1.0 - b / a) >= Times(m - x, Term(w, d, a)) - EPSILON
  {
    PositiveQuotient(b, a);
    var q := d / a;
    assert q * a == d;
    assert 1.0 - b / a == (m - x) * q by {
      assert b / a * a == b;
      assert (1.0 - b / a) * a == a - b;
      assert ((m - x) * q) * a == (m - x) * d;
      SameQuotient(1.0 - b / a, (m - x) * q, a);
    }
    MoveFactor(w, d, a);
    MoveFactor(c, d, a);
    FactorQuotient(w, d, a);
    FactorQuotient(c, d, a);
    assert c * ((m - x) * q) == (m - x) * (c * q);
    assert w * q == c * q + EPSILON * q;
    assert (m - x) * (w * q) == (m - x) * (c * q) + EPSILON * ((m - x) * q);
  }

  lemma FactorQuotient(w: real, d: real, a: real)
    requires a > 0.0
    ensures w * d / a == w * (d / a)
  {
    var q := d / a;
    assert q * a == d;
    assert (w * q) * a == w * d;
    assert w * d / a * a == w * d;
    SameQuotient(w * d / a, w * q, a);
  }

  /** The log-likelihood of one bin, tilted. */
  function Share(ln: real -> real, counts: Counts, mean: real, m: real, i: nat): real
    requires i < 5 && Feasible(Delta(mean), m)
  {
    Times(counts[i] as real, ln(Tilted(Frequency(counts), Delta(mean), m)[i]))
  }

  lemma SharesSum(ln: real -> real, counts: Counts, mean: real, m: real)
    requires Feasible(Delta(mean), m)
    ensures LikelihoodAt(ln, counts, mean, m)
         == Share(ln, counts, mean, m, 0) + Share(ln, counts, mean, m, 1) + Share(ln, counts, mean, m, 2)
            + Share(ln, counts, mean, m, 3) + Share(ln, counts, mean, m, 4)
  {
  }

  lemma DenominatorMoves(d: Five, m: real, x: real, i: nat)
    requires i < 5
    ensures Denominator(d, x, i) == Denominator(d, m, i) + Times(x - m, d[i])
  {
  }

  lemma GapIsLogTilt(ln: real -> real, c: real, f: real, a: real, b: real)
    requires IsLog(ln) && f > 0.0 && a > 0.0 && b > 0.0 && c >= 0.0
    ensures Times(c, ln(f / b)) - Times(c, ln(f / a)) >= c * (1.0 - b / a)
  {
    LogTilt(ln, f, a, b);
    ScaleLe(c, 1.0 - b / a, ln(f / b) - ln(f / a));
  }

  /** Moving the multiplier from `m` to `x` changes the share of a bin at least by its pull. */
  lemma ShareMoves(ln: real -> real, counts: Counts, mean: real, m: real, x: real, i: nat)
    requires IsLog(ln) && i < 5 && Feasible(Delta(mean), m) && Feasible(Delta(mean), x)
    ensures Share(ln, counts, mean, x, i) - Share(ln, counts, mean, m, i)
         >= Times(m - x, Pull(counts, mean, m, i)) - EPSILON
    ensures Share(ln, counts, mean, x, i) - Share(ln, counts, mean, m, i)
         >= -Times(Abs(m - x), Abs(Pull(counts, mean, m, i)))
  {
    var c, w, d := counts[i] as real, Regularised(counts)[i], Delta(mean);
    var a, b := Denominator(d, m, i), Denominator(d, x, i);
    DenominatorMoves(d, m, x, i);
    ShareMovesScalar(ln, c, w, Frequency(counts)[i], d[i], m, x, a, b);
  }

  lemma ShareMovesScalar(ln: real -> real, c: real, w: real, f: real, d: real, m: real, x: real, a: real, b: real)
    requires IsLog(ln) && f > 0.0 && a > 0.0 && b > 0.0 && b == a + Times(x - m, d) && w == c + EPSILON && c >= 0.0
    ensures Times(c, ln(f / b)) - Times(c, ln(f / a)) >= Times(m - x, Term(w, d, a)) - EPSILON
    ensures Times(c, ln(f / b)) - Times(c, ln(f / a)) >= -Times(Abs(m - x), Abs(Term(w, d, a)))
  {
    GapIsLogTilt(ln, c, f, a, b);
    GapIsPull(c, w, d, m, x, a, b);
    SmallerPull(c, w, d, a);
    AbsBound(m - x, Term(c, d, a), Term(w, d, a));
  }

  lemma SmallerPull(c: real, w: real, d: real, a: real)
    requires a > 0.0 && 0.0 <= c <= w
    ensures Abs(Term(c, d, a)) <= Abs(Term(w, d, a))
  {
    FactorQuotient(w, d, a);
    FactorQuotient(c, d, a);
    var q := d / a;
    AbsTimes(c, q);
    AbsTimes(w, q);
    ScaleLe(Abs(q), c, w);
    assert Abs(q) * c == c * Abs(q) && Abs(q) * w == w * Abs(q);
  }

  lemma AbsBound(step: real, less: real, pull: real)
    requires Abs(less) <= Abs(pull)
    ensures Times(step, less) >= -Times(Abs(step), Abs(pull))
  {
    AbsTimes(step, less);
    ScaleLe(Abs(step), Abs(less), Abs(pull));
  }

  lemma AbsTimes(x: real, y: real)
    ensures Abs(x * y) == Abs(x) * Abs(y)
    ensures x * y >= -(Abs(x) * Abs(y))
  {
    Product(x, y);
    Product(x, -y);
    Product(-x, y);
  }

  /** All five pulls together; the derivative has their sign. */
  function Pulls(counts: Counts, mean: real, m: real): real
    requires Feasible(Delta(mean), m)
  {
    Pull(counts, mean, m, 0) + Pull(counts, mean, m, 1) + Pull(counts, mean, m, 2) + Pull(counts, mean, m, 3)
    + Pull(counts, mean, m, 4)
  }

  function PullSize(counts: Counts, mean: real, m: real): real
    requires Feasible(Delta(mean), m)
  {
    Abs(Pull(counts, mean, m, 0)) + Abs(Pull(counts, mean, m, 1)) + Abs(Pull(counts, mean, m, 2))
    + Abs(Pull(counts, mean, m, 3)) + Abs(Pull(counts, mean, m, 4))
  }

  /** Moving the multiplier against the derivative loses next to nothing, a short move only what its pulls allow. */
  lemma LikelihoodMoves(ln: real -> real, counts: Counts, mean: real, m: real, x: real)
    requires IsLog(ln) && Feasible(Delta(mean), m) && Feasible(Delta(mean), x)
    ensures LikelihoodAt(ln, counts, mean, x) - LikelihoodAt(ln, counts, mean, m)
         >= Times(m - x, Pulls(counts, mean, m)) - 5.0 * EPSILON
    ensures LikelihoodAt(ln, counts, mean, x) - LikelihoodAt(ln, counts, mean, m)
         >= -Times(Abs(m - x), PullSize(counts, mean, m))
  {
    SharesSum(ln, counts, mean, x);
    SharesSum(ln, counts, mean, m);
    ShareMoves(ln, counts, mean, m, x, 0);
    ShareMoves(ln, counts, mean, m, x, 1);
    ShareMoves(ln, counts, mean, m, x, 2);
    ShareMoves(ln, counts, mean, m, x, 3);
    ShareMoves(ln, counts, mean, m, x, 4);
    Distribute(m - x, Pull(counts, mean, m, 0), Pull(counts, mean, m, 1), Pull(counts, mean, m, 2),
               Pull(counts, mean, m, 3), Pull(counts, mean, m, 4));
    Distribute(Abs(m - x), Abs(Pull(counts, mean, m, 0)), Abs(Pull(counts, mean, m, 1)),
               Abs(Pull(counts, mean, m, 2)), Abs(Pull(counts, mean, m, 3)), Abs(Pull(counts, mean, m, 4)));
  }

  // ----- pulls near the sign change -----------------------------------------------------------------

  lemma QuotientAtMost(p: real, a: real, bound: real)
    requires a > 0.0 && p * a <= bound * a
    ensures p <= bound
  {
    if p > bound {
      Product(p - bound, a);
    }
  }

  /**
   One pull `p` at an end of the bracket and `r` at its middle, `h` away. On the steep side the denominator
   at the end is bounded below by the pull itself.
   */
  lemma PullBin(w: real, d: real, a: real, b: real, p: real, r: real, h: real, mass: real)
    requires w >= EPSILON && -1.0 <= d <= 1.0 && a > 0.0 && b > 0.0 && b == a + h * d
    requires p * a == w * d && r * b == w * d
    requires h > 0.0 && mass > 0.0 && 8.0 * (h * mass) <= EPSILON
    requires d >= 0.0 ==> a >= 0.5
    requires p >= -2.0 * mass
    ensures Abs(r) <= -2.0 * p + 6.0 * w
  {
    if d >= 0.0 {
      Product(h, d);
      FlatPull(w, d, a, p);
      FlatPull(w, d, b, r);
    } else {
      SteepPull(w, -d, a, b, -p, -r, h, mass);
    }
  }

  lemma FlatPull(w: real, d: real, a: real, p: real)
    requires w > 0.0 && 0.0 <= d <= 1.0 && a >= 0.5 && p * a == w * d
    ensures 0.0 <= p <= 2.0 * w
  {
    var k := 2.0 * w;
    Product(w, d);
    ScaleLe(w, d, 1.0);
    ScaleLe(k, 0.5, a);
    assert k * a >= w && p * a <= w;
    QuotientAtMost(p, a, k);
    QuotientAtMost(-p, a, 0.0);
  }

  lemma SteepPull(w: real, e: real, a: real, b: real, p: real, r: real, h: real, mass: real)
    requires w >= EPSILON && 0.0 < e <= 1.0 && a > 0.0 && b > 0.0 && b == a - h * e
    requires p * a == w * e && r * b == w * e
    requires h > 0.0 && mass > 0.0 && 8.0 * (h * mass) <= EPSILON
    requires p <= 2.0 * mass
    ensures 0.0 <= r <= 2.0 * p
  {
    Product(w, e);
    QuotientAtMost(-r, b, 0.0);
    QuotientAtMost(-p, a, 0.0);
    SteepDenominator(w, e, a, p, h, mass);
    ScaleLe(p, a / 2.0, b);
    QuotientAtMost(r, b, 2.0 * p);
  }

  lemma SteepDenominator(w: real, e: real, a: real, p: real, h: real, mass: real)
    requires w >= EPSILON && 0.0 < e <= 1.0 && a > 0.0 && p * a == w * e
    requires h > 0.0 && mass > 0.0 && 8.0 * (h * mass) <= EPSILON && p <= 2.0 * mass
    ensures h * e <= a / 2.0
  {
    ScaleLe(a, p, 2.0 * mass);
    var ma := mass * a;
    assert w * e <= 2.0 * ma by {
      assert a * p == p * a && a * (2.0 * mass) == 2.0 * ma;
    }
    ScaleLe(h, w * e, 2.0 * ma);
    ScaleLe(a, 8.0 * (h * mass), EPSILON);
    var hma := h * ma;
    assert a * (8.0 * (h * mass)) == 8.0 * hma;
    var he := h * e;
    Product(h, e);
    ScaleLe(he, EPSILON, w);
    assert h * (w * e) == w * he && he * w == w * he && he * EPSILON == EPSILON * he;
    assert h * (2.0 * ma) == 2.0 * hma;
    assert EPSILON * he <= 2.0 * hma <= EPSILON * a / 4.0;
  }

  /** The number itself or its opposite: the two ends of a bracket mirror each other. */
  function Flip(up: bool, x: real): real {
    if up then x else -x
  }

  lemma QuotientTimes(n: real, a: real)
    requires a > 0.0
    ensures n / a * a == n
  {
  }

  lemma PullProduct(counts: Counts, mean: real, m: real, i: nat)
    requires i < 5 && Feasible(Delta(mean), m)
    ensures Denominator(Delta(mean), m, i) > 0.0
    ensures Times(Pull(counts, mean, m, i), Denominator(Delta(mean), m, i))
         == Times(Regularised(counts)[i], Delta(mean)[i])
  {
    QuotientTimes(Regularised(counts)[i] * Delta(mean)[i], Denominator(Delta(mean), m, i));
  }

  lemma EndPullAtMost(counts: Counts, mean: real, up: bool, end: real, i: nat)
    requires Admissible(mean) && i < 5 && Feasible(Delta(mean), end) && Flip(up, end) >= -0.5
    ensures Flip(up, Pull(counts, mean, end, i)) <= 2.0 * Regularised(counts)[i]
    ensures Flip(up, Delta(mean)[i]) >= 0.0 ==> Denominator(Delta(mean), end, i) >= 0.5
  {
    PullProduct(counts, mean, end, i);
    FlippedEndPull(Regularised(counts)[i], Delta(mean)[i], end, Denominator(Delta(mean), end, i),
                   Pull(counts, mean, end, i), up);
  }

  lemma FlippedEndPull(w: real, d: real, end: real, a: real, p: real, up: bool)
    requires w > 0.0 && -1.0 <= d <= 1.0 && Flip(up, end) >= -0.5 && a == 1.0 + Times(end, d) && a > 0.0
    requires Times(p, a) == Times(w, d)
    ensures Flip(up, p) <= 2.0 * w
    ensures Flip(up, d) >= 0.0 ==> a >= 0.5
  {
    if up {
      EndPull(w, d, end, a, p);
    } else {
      EndPull(w, -d, -end, a, -p);
    }
  }

  lemma EndPull(w: real, d: real, end: real, a: real, p: real)
    requires w > 0.0 && -1.0 <= d <= 1.0 && end >= -0.5 && a == 1.0 + end * d && a > 0.0 && p * a == w * d
    ensures p <= 2.0 * w
    ensures d >= 0.0 ==> a >= 0.5
  {
    if d >= 0.0 {
      var rise := end * d;
      ScaleLe(d, -0.5, end);
      assert d * end == rise && rise >= -0.5 * d;
      FlatPull(w, d, a, p);
    } else {
      Product(w, -d);
      QuotientAtMost(p, a, 0.0);
    }
  }

  lemma FlippedPullBin(w: real, d: real, a: real, b: real, p: real, r: real, h: real, mass: real, up: bool)
    requires w >= EPSILON && -1.0 <= d <= 1.0 && a > 0.0 && b > 0.0 && b == a + Times(Flip(up, h), d)
    requires Times(p, a) == Times(w, d) && Times(r, b) == Times(w, d)
    requires h > 0.0 && mass > 0.0 && 8.0 * Times(h, mass) <= EPSILON
    requires Flip(up, d) >= 0.0 ==> a >= 0.5
    requires Flip(up, p) >= -2.0 * mass
    ensures Abs(r) <= -2.0 * Flip(up, p) + 6.0 * w
  {
    if up {
      PullBin(w, d, a, b, p, r, h, mass);
    } else {
      PullBin(w, -d, a, b, -p, -r, h, mass);
    }
  }

  /** No bin pulls back by more than all bins can pull forward. */
  lemma EndPullAtLeast(counts: Counts, mean: real, up: bool, end: real, i: nat)
    requires Admissible(mean) && i < 5 && Feasible(Delta(mean), end) && Flip(up, end) >= -0.5
    requires Flip(up, Pulls(counts, mean, end)) >= 0.0
    ensures Flip(up, Pull(counts, mean, end, i)) >= -2.0 * Mass(counts)
  {
    EndPullAtMost(counts, mean, up, end, 0);
    EndPullAtMost(counts, mean, up, end, 1);
    EndPullAtMost(counts, mean, up, end, 2);
    EndPullAtMost(counts, mean, up, end, 3);
    EndPullAtMost(counts, mean, up, end, 4);
  }

  predicate ShortBracket(counts: Counts, h: real) {
    h > 0.0 && 8.0 * Times(h, Mass(counts)) <= EPSILON
  }

  /** Bin `i` at the middle of the bracket, from all bins at its end. */
  lemma MiddlePull(counts: Counts, mean: real, up: bool, m: real, end: real, h: real, i: nat)
    requires Admissible(mean) && i < 5 && Feasible(Delta(mean), m) && Feasible(Delta(mean), end)
    requires ShortBracket(counts, h) && end == m - Flip(up, h) && Flip(up, end) >= -0.5
    requires Flip(up, Pulls(counts, mean, end)) >= 0.0
    ensures Abs(Pull(counts, mean, m, i)) <= -2.0 * Flip(up, Pull(counts, mean, end, i)) + 6.0 * Regularised(counts)[i]
  {
    var w, d := Regularised(counts)[i], Delta(mean)[i];
    var a, b := Denominator(Delta(mean), end, i), Denominator(Delta(mean), m, i);
    EndPullAtLeast(counts, mean, up, end, i);
    EndPullAtMost(counts, mean, up, end, i);
    DenominatorMoves(Delta(mean), end, m, i);
    PullProduct(counts, mean, end, i);
    PullProduct(counts, mean, m, i);
    assert m - end == Flip(up, h);
    FlippedPullBin(w, d, a, b, Pull(counts, mean, end, i), Pull(counts, mean, m, i), h, Mass(counts), up);
  }

  /** In the middle of a short bracket the pulls are at most six times the mass. */
  lemma PullsBounded(counts: Counts, mean: real, up: bool, m: real, end: real, h: real)
    requires Admissible(mean) && Feasible(Delta(mean), m) && Feasible(Delta(mean), end)
    requires ShortBracket(counts, h) && end == m - Flip(up, h) && Flip(up, end) >= -0.5
    requires Flip(up, Pulls(counts, mean, end)) >= 0.0
    ensures PullSize(counts, mean, m) <= 6.0 * Mass(counts)
  {
    MiddlePull(counts, mean, up, m, end, h, 0);
    MiddlePull(counts, mean, up, m, end, h, 1);
    MiddlePull(counts, mean, up, m, end, h, 2);
    MiddlePull(counts, mean, up, m, end, h, 3);
    MiddlePull(counts, mean, up, m, end, h, 4);
  }

  // ----- the computed likelihood is nearly the smallest ---------------------------------------------

  /** So few pairs, and a mean so far from 0 and 1, that the final bracket is short against the smoothing. */
  predicate Precise(counts: Counts, mean: real) {
    Admissible(mean) && Pairs(counts) < PAIR_LIMIT && ShortBracket(counts, HalfBracket(mean))
  }

  /** The multiplier in the middle of its bracket of half width `h`. */
  predicate Bracketed(counts: Counts, mean: real, m: real, h: real) {
    && 0.0 < h <= 0.025
    && Feasible(Delta(mean), m - h) && Feasible(Delta(mean), m) && Feasible(Delta(mean), m + h)
    && Derivative(Frequency(counts), Delta(mean), m - h) > 0.0 >= Derivative(Frequency(counts), Delta(mean), m + h)
    && Pulls(counts, mean, m - h) > 0.0 >= Pulls(counts, mean, m + h)
  }

  lemma ShortWidth(h: real, mass: real)
    requires h > 0.0 && mass >= 5.0 * EPSILON && 8.0 * Times(h, mass) <= EPSILON
    ensures h <= 0.025
  {
    ScaleLe(h, 5.0 * EPSILON, mass);
  }

  lemma MultiplierBracketed(counts: Counts, mean: real)
    requires Precise(counts, mean)
    ensures Bracketed(counts, mean, Multiplier(counts, mean), HalfBracket(mean))
  {
    MultiplierNearRoot(counts, mean);
    BracketIsBracketed(counts, mean, Multiplier(counts, mean), HalfBracket(mean));
  }

  lemma BracketIsBracketed(counts: Counts, mean: real, m: real, h: real)
    requires ShortBracket(counts, h) && Feasible(Delta(mean), m)
    requires Bracket(Frequency(counts), Delta(mean), m - h, m + h)
    ensures Bracketed(counts, mean, m, h)
  {
    ShortWidth(h, Mass(counts));
    SignOfDerivative(counts, mean, m - h);
    SignOfDerivative(counts, mean, m + h);
  }

  lemma MiddlePulls(counts: Counts, mean: real, m: real, h: real)
    requires Admissible(mean) && ShortBracket(counts, h) && Bracketed(counts, mean, m, h)
    ensures PullSize(counts, mean, m) <= 6.0 * Mass(counts)
  {
    if m - h >= -0.5 {
      PullsBounded(counts, mean, true, m, m - h, h);
    } else {
      PullsBounded(counts, mean, false, m, m + h, h);
    }
  }

  lemma ShortMove(step: real, h: real, size: real, mass: real)
    requires Abs(step) <= h && 0.0 <= size <= 6.0 * mass && 8.0 * Times(h, mass) <= EPSILON
    ensures Times(Abs(step), size) <= EPSILON
  {
    ScaleLe(size, Abs(step), h);
    ScaleLe(h, size, 6.0 * mass);
    assert size * Abs(step) == Abs(step) * size && size * h == h * size;
    assert h * (6.0 * mass) == 6.0 * (h * mass);
  }

  lemma SameSign(x: real, y: real)
    requires (x >= 0.0 && y >= 0.0) || (x <= 0.0 && y <= 0.0)
    ensures Times(x, y) >= 0.0
  {
    Product(x, y);
  }

  /** A move by at most `h` from the middle. */
  lemma NearMove(ln: real -> real, counts: Counts, mean: real, m: real, x: real, h: real)
    requires IsLog(ln) && Feasible(Delta(mean), m) && Feasible(Delta(mean), x) && Abs(m - x) <= h
    requires ShortBracket(counts, h) && PullSize(counts, mean, m) <= 6.0 * Mass(counts)
    ensures LikelihoodAt(ln, counts, mean, x) >= LikelihoodAt(ln, counts, mean, m) - EPSILON
  {
    LikelihoodMoves(ln, counts, mean, m, x);
    ShortMove(m - x, h, PullSize(counts, mean, m), Mass(counts));
  }

  /** A move away from an end of the bracket. */
  lemma FarMove(ln: real -> real, counts: Counts, mean: real, end: real, x: real)
    requires IsLog(ln) && Feasible(Delta(mean), end) && Feasible(Delta(mean), x)
    requires (x <= end && Pulls(counts, mean, end) >= 0.0) || (x >= end && Pulls(counts, mean, end) <= 0.0)
    ensures LikelihoodAt(ln, counts, mean, x) >= LikelihoodAt(ln, counts, mean, end) - 5.0 * EPSILON
  {
    LikelihoodMoves(ln, counts, mean, end, x);
    SameSign(end - x, Pulls(counts, mean, end));
  }

  lemma SmallestInBracket(ln: real -> real, counts: Counts, mean: real, m: real, h: real, x: real)
    requires IsLog(ln) && Admissible(mean) && ShortBracket(counts, h) && Bracketed(counts, mean, m, h)
    requires Feasible(Delta(mean), x)
    ensures LikelihoodAt(ln, counts, mean, m) <= LikelihoodAt(ln, counts, mean, x) + 6.0 * EPSILON
  {
    MiddlePulls(counts, mean, m, h);
    if x <= m - h {
      FarMove(ln, counts, mean, m - h, x);
      NearMove(ln, counts, mean, m, m - h, h);
    } else if x >= m + h {
      FarMove(ln, counts, mean, m + h, x);
      NearMove(ln, counts, mean, m, m + h, h);
    } else {
      NearMove(ln, counts, mean, m, x, h);
    }
  }

  /** The likelihood of the counts at the computed multiplier exceeds that at any other by at most 6e-6. */
  lemma NearlySmallest(ln: real -> real, counts: Counts, mean: real, x: real)
    requires IsLog(ln) && Precise(counts, mean) && Feasible(Delta(mean), x)
    ensures ConstrainedLikelihood(ln, counts, mean) <= LikelihoodAt(ln, counts, mean, x) + 6.0 * EPSILON
  {
    MultiplierBracketed(counts, mean);
    SmallestInBracket(ln, counts, mean, Multiplier(counts, mean), HalfBracket(mean), x);
  }

  // ----- exchanging the hypotheses of a tilt --------------------------------------------------------

  /** A tilt about mean `a` is, up to the factor `k`, one about `b`. */
  lemma RetiltDenominator(s: real, a: real, b: real, m: real, k: real, x: real)
    requires k > 0.0 && k == 1.0 - m * (a - b) && x * k == m
    ensures 1.0 + Times(m, s - a) == Times(k, 1.0 + Times(x, s - b))
  {
    var y := x * (s - b);
    assert k * y == (x * k) * (s - b);
    assert m * (s - a) == m * (s - b) - m * (a - b);
  }

  lemma PositiveFactor(k: real, y: real)
    requires k > 0.0 && Times(k, y) > 0.0
    ensures y > 0.0
  {
    if y <= 0.0 {
      Product(k, -y);
    }
  }

  lemma RetiltAt(a: real, b: real, m: real, k: real, x: real, i: nat)
    requires i < 5 && k > 0.0 && k == 1.0 - Times(m, a - b) && x * k == m && Feasible(Delta(a), m)
    ensures Denominator(Delta(a), m, i) == Times(k, Denominator(Delta(b), x, i))
    ensures Denominator(Delta(b), x, i) > 0.0
  {
    RetiltDenominator(i as real / 4.0, a, b, m, k, x);
    assert Delta(a)[i] == i as real / 4.0 - a && Delta(b)[i] == i as real / 4.0 - b;
    PositiveFactor(k, Denominator(Delta(b), x, i));
  }

  lemma RetiltFactor(a: real, b: real, m: real)
    requires Admissible(a) && Admissible(b) && Feasible(Delta(a), m)
    ensures 1.0 - Times(m, a - b) > 0.0
  {
    assert Denominator(Delta(a), m, 0) == 1.0 + Times(m, 0.0 - a);
    assert Denominator(Delta(a), m, 4) == 1.0 + Times(m, 1.0 - a);
    LinearPositive(m, b - a, 0.0 - a, 1.0 - a);
    assert m * (b - a) == -(m * (a - b));
  }

  lemma RetiltShare(ln: real -> real, c: real, f: real, y: real, z: real, k: real)
    requires IsLog(ln) && c >= 0.0 && f > 0.0 && y > 0.0 && k > 0.0 && z == Times(k, y)
    ensures z > 0.0 && Times(c, ln(f / z)) - Times(c, ln(f / y)) >= Times(c, 1.0 - k)
  {
    Product(k, y);
    GapIsLogTilt(ln, c, f, y, z);
    SameQuotient(z / y, k, y) by {
      QuotientTimes(z, y);
    }
  }

  lemma RetiltShareAt(ln: real -> real, counts: Counts, a: real, b: real, m: real, k: real, x: real, i: nat)
    requires IsLog(ln) && i < 5 && k > 0.0 && k == 1.0 - Times(m, a - b) && x * k == m
    requires Feasible(Delta(a), m) && Feasible(Delta(b), x)
    ensures Share(ln, counts, a, m, i) - Share(ln, counts, b, x, i) >= Times(counts[i] as real, 1.0 - k)
  {
    RetiltAt(a, b, m, k, x, i);
    RetiltShare(ln, counts[i] as real, Frequency(counts)[i], Denominator(Delta(b), x, i),
                Denominator(Delta(a), m, i), k);
  }

  lemma SpreadPairs(counts: Counts, r: real)
    ensures Times(counts[0] as real, r) + Times(counts[1] as real, r) + Times(counts[2] as real, r)
            + Times(counts[3] as real, r) + Times(counts[4] as real, r) == Times(Pairs(counts) as real, r)
  {
  }

  lemma Retilt(ln: real -> real, counts: Counts, a: real, b: real, m: real, k: real, x: real)
    requires IsLog(ln) && k > 0.0 && k == 1.0 - Times(m, a - b) && x * k == m && Feasible(Delta(a), m)
    ensures Feasible(Delta(b), x)
    ensures LikelihoodAt(ln, counts, a, m) >= LikelihoodAt(ln, counts, b, x) + Times(Pairs(counts) as real, 1.0 - k)
  {
    RetiltAt(a, b, m, k, x, 0);
    RetiltAt(a, b, m, k, x, 1);
    RetiltAt(a, b, m, k, x, 2);
    RetiltAt(a, b, m, k, x, 3);
    RetiltAt(a, b, m, k, x, 4);
    RetiltShareAt(ln, counts, a, b, m, k, x, 0);
    RetiltShareAt(ln, counts, a, b, m, k, x, 1);
    RetiltShareAt(ln, counts, a, b, m, k, x, 2);
    RetiltShareAt(ln, counts, a, b, m, k, x, 3);
    RetiltShareAt(ln, counts, a, b, m, k, x, 4);
    SharesSum(ln, counts, a, m);
    SharesSum(ln, counts, b, x);
    SpreadPairs(counts, 1.0 - k);
  }

  lemma ApartAt(ln: real -> real, counts: Counts, a: real, b: real, m: real)
    requires IsLog(ln) && Admissible(a) && Precise(counts, b) && Feasible(Delta(a), m)
    ensures LikelihoodAt(ln, counts, a, m) >= ConstrainedLikelihood(ln, counts, b)
            + Times(Pairs(counts) as real, Times(m, a - b)) - 6.0 * EPSILON
  {
    RetiltFactor(a, b, m);
    var k := 1.0 - Times(m, a - b);
    var x := m / k;
    QuotientTimes(m, k);
    Retilt(ln, counts, a, b, m, k, x);
    NearlySmallest(ln, counts, b, x);
    assert 1.0 - k == Times(m, a - b);
  }

  /** The likelihoods under two means, compared through the multiplier of the first. */
  lemma LikelihoodsApart(ln: real -> real, counts: Counts, a: real, b: real)
    requires IsLog(ln) && Admissible(a) && Precise(counts, b)
    ensures ConstrainedLikelihood(ln, counts, a) >= ConstrainedLikelihood(ln, counts, b)
            + Times(Pairs(counts) as real, Times(Multiplier(counts, a), a - b)) - 6.0 * EPSILON
  {
    ApartAt(ln, counts, a, b, Multiplier(counts, a));
  }

  // ----- the multiplier follows the lead of the mean ------------------------------------------------

  /** How far the smoothed mean score is above `mean`. */
  function Lead(counts: Counts, mean: real): real {
    Mean(Frequency(counts)) - mean
  }

  function Rise(y: real): real {
    if y > 0.0 then 2.0 * y else 0.0
  }

  lemma TangentBelow(d: real, y: real, a: real)
    requires -1.0 <= d <= 1.0 && y < 0.5 && a == 1.0 + y * d && a > 0.0
    ensures (d - Rise(y)) * a <= d
  {
    var dd, yd := d * d, y * d;
    Product(d, d);
    Product(1.0 - d, 1.0 + d);
    assert (1.0 - d) * (1.0 + d) == 1.0 - dd;
    assert d * a == d + y * dd;
    if y > 0.0 {
      ScaleLe(y, dd, 1.0);
      ScaleLe(y, -1.0, d);
      assert yd >= -y;
      FallAtLeast(d, y, a);
    } else {
      Product(y, dd);
    }
  }

  lemma FallAtLeast(d: real, y: real, a: real)
    requires y > 0.0 && a >= 0.5 && d * a <= d + y
    ensures (d - 2.0 * y) * a <= d
  {
    var ya := y * a;
    ScaleLe(y, 0.5, a);
    assert (d - 2.0 * y) * a == d * a - 2.0 * ya;
  }

  lemma TermAtLeast(f: real, d: real, y: real, a: real)
    requires f > 0.0 && -1.0 <= d <= 1.0 && y < 0.5 && a == 1.0 + Times(y, d) && a > 0.0
    ensures Term(f, d, a) >= Times(f, d) - Times(f, Rise(y))
  {
    var q, bound := d / a, d - Rise(y);
    QuotientTimes(d, a);
    FactorQuotient(f, d, a);
    TangentBelow(d, y, a);
    QuotientAtMost(bound, a, q);
    ScaleLe(f, bound, q);
    assert f * bound == f * d - f * Rise(y);
  }

  lemma WeightedSum(f: Five, z: real)
    requires Sum(f) == 1.0
    ensures Times(f[0], z) + Times(f[1], z) + Times(f[2], z) + Times(f[3], z) + Times(f[4], z) == z
  {
    SpreadSum(f[0], f[1], f[2], f[3], f[4], z);
  }

  lemma DerivativeAtLeast(counts: Counts, mean: real, y: real)
    requires Admissible(mean) && Feasible(Delta(mean), y) && y < 0.5
    ensures Derivative(Frequency(counts), Delta(mean), y) >= Lead(counts, mean) - Rise(y)
  {
    var f, d := Frequency(counts), Delta(mean);
    TermAtLeast(f[0], d[0], y, Denominator(d, y, 0));
    TermAtLeast(f[1], d[1], y, Denominator(d, y, 1));
    TermAtLeast(f[2], d[2], y, Denominator(d, y, 2));
    TermAtLeast(f[3], d[3], y, Denominator(d, y, 3));
    TermAtLeast(f[4], d[4], y, Denominator(d, y, 4));
    MomentIsMeanGap(f, mean);
    WeightedSum(f, Rise(y));
  }

  lemma TermAtMost(f: real, d: real, y: real, a: real)
    requires f > 0.0 && -1.0 <= d <= 1.0 && y > -0.5 && a == 1.0 + Times(y, d) && a > 0.0
    ensures Term(f, d, a) <= Times(f, d) + Times(f, Rise(-y))
  {
    var e := -d;
    assert Times(-y, e) == Times(y, d);
    TermAtLeast(f, e, -y, a);
    assert f * e == -(f * d);
    NegateQuotient(f * d, a);
  }

  lemma DerivativeAtMost(counts: Counts, mean: real, y: real)
    requires Admissible(mean) && Feasible(Delta(mean), y) && y > -0.5
    ensures Derivative(Frequency(counts), Delta(mean), y) <= Lead(counts, mean) + Rise(-y)
  {
    var f, d := Frequency(counts), Delta(mean);
    TermAtMost(f[0], d[0], y, Denominator(d, y, 0));
    TermAtMost(f[1], d[1], y, Denominator(d, y, 1));
    TermAtMost(f[2], d[2], y, Denominator(d, y, 2));
    TermAtMost(f[3], d[3], y, Denominator(d, y, 3));
    TermAtMost(f[4], d[4], y, Denominator(d, y, 4));
    MomentIsMeanGap(f, mean);
    WeightedSum(f, Rise(-y));
  }

  lemma MeanBounds(f: Five)
    requires (forall i :: 0 <= i < 5 ==> f[i] > 0.0) && Sum(f) == 1.0
    ensures 0.0 < Mean(f) < 1.0
  {
  }

  /** A lead pulls the multiplier up, a deficit pulls it down. */
  lemma MultiplierFollowsLead(counts: Counts, mean: real)
    requires Precise(counts, mean)
    ensures Lead(counts, mean) > 0.0 ==> Multiplier(counts, mean) >= Lead(counts, mean) / 2.0 - HalfBracket(mean)
    ensures Lead(counts, mean) < 0.0 ==> Multiplier(counts, mean) <= Lead(counts, mean) / 2.0 + HalfBracket(mean)
  {
    var m, h := Multiplier(counts, mean), HalfBracket(mean);
    MultiplierBracketed(counts, mean);
    MeanBounds(Frequency(counts));
    if Lead(counts, mean) > 0.0 && m + h < Lead(counts, mean) / 2.0 {
      DerivativeAtLeast(counts, mean, m + h);
      assert false;
    }
    if Lead(counts, mean) < 0.0 && m - h > Lead(counts, mean) / 2.0 {
      DerivativeAtMost(counts, mean, m - h);
      assert false;
    }
  }

  // ----- the sign of the ratio ----------------------------------------------------------------------

  /** Pairs times the distance of the hypotheses times the lead over `mean`. */
  function Margin(counts: Counts, p0: real, p1: real, mean: real): real {
    Times(Pairs(counts) as real, Times(p1 - p0, Lead(counts, mean)))
  }

  lemma MarginScalar(pairs: real, gap: real, lead: real, m: real, h: real, mass: real)
    requires 0.0 <= pairs <= mass && 0.0 < gap < 1.0 && h > 0.0 && 8.0 * Times(h, mass) <= EPSILON
    ensures m >= lead / 2.0 - h ==> Times(pairs, Times(m, gap)) >= Times(pairs, Times(gap, lead)) / 2.0 - EPSILON
    ensures m <= lead / 2.0 + h ==> Times(pairs, Times(m, gap)) <= Times(pairs, Times(gap, lead)) / 2.0 + EPSILON
  {
    var pg := pairs * gap;
    Product(pairs, gap);
    ScaleLe(pairs, gap, 1.0);
    ScaleLe(h, pg, mass);
    MarginSteps(pg, lead, m, h);
    assert pairs * (m * gap) == pg * m && pairs * (gap * lead) == pg * lead;
  }

  lemma MarginSteps(pg: real, lead: real, m: real, h: real)
    requires pg >= 0.0 && h * pg <= EPSILON
    ensures m >= lead / 2.0 - h ==> pg * m >= pg * lead / 2.0 - EPSILON
    ensures m <= lead / 2.0 + h ==> pg * m <= pg * lead / 2.0 + EPSILON
  {
    var half, step := pg * lead / 2.0, h * pg;
    assert pg * (lead / 2.0 - h) == half - step && pg * (lead / 2.0 + h) == half + step;
    if m >= lead / 2.0 - h {
      ScaleLe(pg, lead / 2.0 - h, m);
    }
    if m <= lead / 2.0 + h {
      ScaleLe(pg, m, lead / 2.0 + h);
    }
  }

  predicate Hypotheses(counts: Counts, p0: real, p1: real) {
    p0 < p1 && Precise(counts, p0) && Precise(counts, p1)
  }

  /** The ratio is at least half the margin above `p1`, less a few millionths. */
  lemma RatioAbove(ln: real -> real, counts: Counts, p0: real, p1: real)
    requires IsLog(ln) && Hypotheses(counts, p0, p1) && Lead(counts, p1) > 0.0
    ensures Ratio(ln, counts, p0, p1) >= Margin(counts, p0, p1, p1) / 2.0 - 7.0 * EPSILON
  {
    LikelihoodsApart(ln, counts, p1, p0);
    MultiplierFollowsLead(counts, p1);
    MultiplierBracketed(counts, p1);
    MarginScalar(Pairs(counts) as real, p1 - p0, Lead(counts, p1), Multiplier(counts, p1), HalfBracket(p1),
                 Mass(counts));
  }

  lemma MarginBelow(pairs: real, m: real, p0: real, p1: real, low: real, high: real, margin: real)
    requires low >= high + Times(pairs, Times(m, p0 - p1)) - 6.0 * EPSILON
    requires Times(pairs, Times(m, p1 - p0)) <= margin + EPSILON
    ensures high - low <= margin + 7.0 * EPSILON
  {
    assert m * (p0 - p1) == -(m * (p1 - p0));
    OppositeTimes(pairs, Times(m, p1 - p0));
  }

  /** Below `p0` it is at most half the (negative) margin, plus a few millionths. */
  lemma RatioBelow(ln: real -> real, counts: Counts, p0: real, p1: real)
    requires IsLog(ln) && Hypotheses(counts, p0, p1) && Lead(counts, p0) < 0.0
    ensures Ratio(ln, counts, p0, p1) <= Margin(counts, p0, p1, p0) / 2.0 + 7.0 * EPSILON
  {
    LikelihoodsApart(ln, counts, p0, p1);
    MultiplierFollowsLead(counts, p0);
    MultiplierBracketed(counts, p0);
    MarginScalar(Pairs(counts) as real, p1 - p0, Lead(counts, p0), Multiplier(counts, p0), HalfBracket(p0),
                 Mass(counts));
    MarginBelow(Pairs(counts) as real, Multiplier(counts, p0), p0, p1, ConstrainedLikelihood(ln, counts, p0),
                ConstrainedLikelihood(ln, counts, p1), Margin(counts, p0, p1, p0) / 2.0);
  }

  lemma OppositeTimes(x: real, y: real)
    ensures Times(x, -y) == -Times(x, y)
  {
  }

  /** The smoothed mean is above `p1` by more than the smoothing can blur. */
  predicate Ahead(counts: Counts, p0: real, p1: real) {
    Lead(counts, p1) > 0.0 && Margin(counts, p0, p1, p1) > 14.0 * EPSILON
  }

  predicate Behind(counts: Counts, p0: real, p1: real) {
    Lead(counts, p0) < 0.0 && Margin(counts, p0, p1, p0) < -14.0 * EPSILON
  }

  /** A mean above `p1` speaks for the candidate, one below `p0` against it. */
  lemma RatioFollowsMean(ln: real -> real, counts: Counts, p0: real, p1: real)
    requires IsLog(ln) && Hypotheses(counts, p0, p1)
    ensures Ahead(counts, p0, p1) ==> Ratio(ln, counts, p0, p1) > 0.0
    ensures Behind(counts, p0, p1) ==> Ratio(ln, counts, p0, p1) < 0.0
  {
    if Ahead(counts, p0, p1) {
      RatioAbove(ln, counts, p0, p1);
    }
    if Behind(counts, p0, p1) {
      RatioBelow(ln, counts, p0, p1);
    }
  }

  // ----- clear matches ------------------------------------------------------------------------------

  lemma SmoothedMean(counts: Counts)
    ensures Times(Mean(Frequency(counts)), Mass(counts))
         == Mean([counts[0] as real + EPSILON, counts[1] as real + EPSILON, counts[2] as real + EPSILON,
                  counts[3] as real + EPSILON, counts[4] as real + EPSILON])
  {
    var f, t := Frequency(counts), Mass(counts);
    QuotientTimes(counts[0] as real + EPSILON, t);
    QuotientTimes(counts[1] as real + EPSILON, t);
    QuotientTimes(counts[2] as real + EPSILON, t);
    QuotientTimes(counts[3] as real + EPSILON, t);
    QuotientTimes(counts[4] as real + EPSILON, t);
    assert Mean(f) * t
        == 0.0 * (f[0] * t) + 0.25 * (f[1] * t) + 0.5 * (f[2] * t) + 0.75 * (f[3] * t) + 1.0 * (f[4] * t);
  }

  const NO_PAIRS: Counts := [0, 0, 0, 0, 0]

  lemma NoPairsNoLikelihood(ln: real -> real, mean: real, m: real)
    requires Feasible(Delta(mean), m)
    ensures LikelihoodAt(ln, NO_PAIRS, mean, m) == 0.0
  {
  }

  lemma HalfOf(mean: real)
    requires Times(mean, 5.0 * EPSILON) == 2.5 * EPSILON
    ensures mean == 0.5
  {
  }

  /** A margin is needed: without pairs the smoothed mean is 1/2, and the ratio is zero for all hypotheses. */
  lemma NoPairsNoRatio(ln: real -> real, p0: real, p1: real)
    requires Admissible(p0) && Admissible(p1)
    ensures Mean(Frequency(NO_PAIRS)) == 0.5 && Ratio(ln, NO_PAIRS, p0, p1) == 0.0
  {
    NoPairsNoLikelihood(ln, p0, Multiplier(NO_PAIRS, p0));
    NoPairsNoLikelihood(ln, p1, Multiplier(NO_PAIRS, p1));
    SmoothedMean(NO_PAIRS);
    HalfOf(Mean(Frequency(NO_PAIRS)));
  }

  lemma ClearMean(mean: real, pairs: real, total: real)
    requires pairs >= 1.0 && Times(mean, pairs + 5.0 * EPSILON) == total + 2.5 * EPSILON
    ensures total == pairs ==> mean >= 1.0 - 5.0 * EPSILON
    ensures total == 0.0 ==> mean <= 5.0 * EPSILON
  {
    var t := pairs + 5.0 * EPSILON;
    var small := 5.0 * EPSILON * t;
    ScaleLe(5.0 * EPSILON, 1.0, t);
    if total == pairs {
      assert (1.0 - 5.0 * EPSILON) * t == t - small;
      assert mean * t == t - 2.5 * EPSILON;
      QuotientAtMost(1.0 - 5.0 * EPSILON, t, mean);
    }
    if total == 0.0 {
      QuotientAtMost(mean, t, 5.0 * EPSILON);
    }
  }

  lemma ClearMargin(pairs: real, gap: real, lead: real)
    requires pairs >= 1.0 && 0.01 <= gap && lead >= 0.005
    ensures Times(pairs, Times(gap, lead)) > 14.0 * EPSILON
  {
    ScaleLe(gap, 0.005, lead);
    var gl := gap * lead;
    ScaleLe(gl, 1.0, pairs);
    assert gl * pairs == pairs * gl;
  }

  function AllWon(n: nat): Counts {
    [0, 0, 0, 0, n]
  }

  function AllLost(n: nat): Counts {
    [n, 0, 0, 0, 0]
  }

  lemma AllWonAhead(n: nat, p0: real, p1: real)
    requires n > 0 && 0.01 <= p0 && p0 + 0.01 <= p1 <= 0.99
    ensures Ahead(AllWon(n), p0, p1)
  {
    SmoothedMean(AllWon(n));
    ClearMean(Mean(Frequency(AllWon(n))), n as real, n as real);
    ClearMargin(n as real, p1 - p0, Lead(AllWon(n), p1));
  }

  lemma AllLostBehind(n: nat, p0: real, p1: real)
    requires n > 0 && 0.01 <= p0 && p0 + 0.01 <= p1 <= 0.99
    ensures Behind(AllLost(n), p0, p1)
  {
    SmoothedMean(AllLost(n));
    ClearMean(Mean(Frequency(AllLost(n))), n as real, 0.0);
    ClearMargin(n as real, p1 - p0, -Lead(AllLost(n), p0));
    OppositeTimes(p1 - p0, Lead(AllLost(n), p0));
    OppositeTimes(n as real, Times(p1 - p0, Lead(AllLost(n), p0)));
  }

  /** With every pair won the ratio is positive, with every pair lost negative, from the first pair on. */
  lemma ClearMatches(ln: real -> real, n: nat, p0: real, p1: real)
    requires IsLog(ln) && 0 < n <= 1000 && 0.01 <= p0 && p0 + 0.01 <= p1 <= 0.99
    ensures Ratio(ln, AllWon(n), p0, p1) > 0.0
    ensures Ratio(ln, AllLost(n), p0, p1) < 0.0
  {
    AllWonAhead(n, p0, p1);
    AllLostBehind(n, p0, p1);
    ArenasArePrecise(AllWon(n), p0);
    ArenasArePrecise(AllWon(n), p1);
    ArenasArePrecise(AllLost(n), p0);
    ArenasArePrecise(AllLost(n), p1);
    RatioFollowsMean(ln, AllWon(n), p0, p1);
    RatioFollowsMean(ln, AllLost(n), p0, p1);
  }

  lemma HalfBracketSmall(mean: real)
    requires 0.01 <= mean <= 0.99
    ensures 0.0 < HalfBracket(mean) <= 0.0000000000004
  {
    assert Pow2(48) == 281474976710656.0 by { PowersOfTwo(); }
    EndsOrdered(mean);
    var a, b := 1.0 - mean, mean;
    QuotientTimes(1.0, a);
    QuotientTimes(1.0, b);
    NegateQuotient(1.0, a);
    QuotientAtMost(1.0 / a, a, 100.0);
    QuotientAtMost(1.0 / b, b, 100.0);
  }

  lemma PowersOfTwo()
    ensures Pow2(48) == 281474976710656.0
  {
    assert Pow2(8) == 256.0;
    assert Pow2(16) == 65536.0;
    assert Pow2(24) == 16777216.0;
    assert Pow2(32) == 4294967296.0;
    assert Pow2(40) == 1099511627776.0;
  }

  /** Every arena of the trainer is precise: at most a thousand pairs, with hypotheses in [1%, 99%]. */
  lemma ArenasArePrecise(counts: Counts, mean: real)
    requires Pairs(counts) <= 1000 && 0.01 <= mean <= 0.99
    ensures Precise(counts, mean)
  {
    HalfBracketSmall(mean);
    ScaleLe(HalfBracket(mean), Mass(counts), 1001.0);
  }

  // ----- the verdict --------------------------------------------------------------------------------

  /** The verdict on the ratio of these counts, with the boundaries of the error rates. */
  ghost function VerdictFor(ln: real -> real, counts: Counts, p0: real, p1: real, alpha: real, beta: real, games: nat,
                            minimum: nat, maximum: nat): Decision
    requires Admissible(p0) && Admissible(p1) && 0.0 < alpha < 0.5 && 0.0 < beta < 0.5
  {
    Verdict(games, Ratio(ln, counts, p0, p1), minimum, maximum, ln(beta / (1.0 - alpha)), ln((1.0 - beta) / alpha))
  }

  /** The gate before its maximum does not reject a candidate that is ahead, and never accepts one that is behind. */
  lemma VerdictFollowsMean(ln: real -> real, counts: Counts, p0: real, p1: real, alpha: real, beta: real, games: nat,
                           minimum: nat, maximum: nat)
    requires IsNaturalLog(ln) && Hypotheses(counts, p0, p1) && 0.0 < alpha < 0.5 && 0.0 < beta < 0.5
    ensures Ahead(counts, p0, p1) && games < maximum ==>
      VerdictFor(ln, counts, p0, p1, alpha, beta, games, minimum, maximum) != Rejected
    ensures Behind(counts, p0, p1) ==>
      VerdictFor(ln, counts, p0, p1, alpha, beta, games, minimum, maximum) != Accepted
  {
    BoundariesOrdered(ln, alpha, beta);
    RatioFollowsMean(ln, counts, p0, p1);
  }

  /** Once the margin has passed the boundary the gate decides, for the right side. */
  lemma VerdictReached(ln: real -> real, counts: Counts, p0: real, p1: real, alpha: real, beta: real, games: nat,
                       minimum: nat, maximum: nat)
    requires IsNaturalLog(ln) && Hypotheses(counts, p0, p1) && 0.0 < alpha < 0.5 && 0.0 < beta < 0.5
    requires games % 2 == 0 && games >= minimum
    ensures Ahead(counts, p0, p1) && Margin(counts, p0, p1, p1) / 2.0 - 7.0 * EPSILON >= ln((1.0 - beta) / alpha) ==>
      VerdictFor(ln, counts, p0, p1, alpha, beta, games, minimum, maximum) == Accepted
    ensures Behind(counts, p0, p1) && Margin(counts, p0, p1, p0) / 2.0 + 7.0 * EPSILON <= ln(beta / (1.0 - alpha)) ==>
      VerdictFor(ln, counts, p0, p1, alpha, beta, games, minimum, maximum) == Rejected
  {
    BoundariesOrdered(ln, alpha, beta);
    if Ahead(counts, p0, p1) {
      RatioAbove(ln, counts, p0, p1);
    }
    if Behind(counts, p0, p1) {
      RatioBelow(ln, counts, p0, p1);
    }
  }

  lemma LogIncreases(ln: real -> real, x: real, y: real)
    requires IsLog(ln) && 0.0 < x < y
    ensures ln(x) < ln(y)
  {
    assert ln(x) - ln(y) <= (x - y) / y;
    NegateQuotient(y - x, y);
    PositiveQuotient(y - x, y);
  }

  /**
   Which error rate limits which boundary: rejection needs no more evidence than `beta` asks for, acceptance
   no more than `alpha` asks for.
   */
  lemma BoundariesLimited(ln: real -> real, alpha: real, beta: real)
    requires IsLog(ln) && 0.0 < alpha < 0.5 && 0.0 < beta < 0.5
    ensures ln(beta) < ln(beta / (1.0 - alpha)) && ln((1.0 - beta) / alpha) < ln(1.0 / alpha)
  {
    BelowQuotient(beta, 1.0 - alpha, beta) by {
      Product(alpha, beta);
    }
    LogIncreases(ln, beta, beta / (1.0 - alpha));
    var x, y := (1.0 - beta) / alpha, 1.0 / alpha;
    QuotientTimes(1.0 - beta, alpha);
    QuotientTimes(1.0, alpha);
    PositiveQuotient(1.0 - beta, alpha);
    BelowQuotient(1.0, alpha, x);
    LogIncreases(ln, x, y);
  }
}
