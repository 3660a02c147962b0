/**
 The constrained multinomial likelihood of `src/c4a0/arena_statistics.py`, over exact reals: the
 bisection brackets a sign change of the strictly falling derivative exactly when the counts satisfy one
 linear inequality at each end, as few pairs always do, and the tilted distribution at a root is
 the maximum-likelihood distribution with the required mean. The sequential gate on top of it keeps
 a histogram of pair scores.
 */
module ArenaStatistics {
  import opened Board

  const EPSILON := 0.000001        // 1e-6
  const MARGIN := 0.000000000001   // 1e-12
  const ITERATIONS := 48
  const PAIR_LIMIT := 1_000_000

  /** Five values, one for each pair score 0, 1/4, 1/2, 3/4, 1. */
  type Five = s: seq<real> | |s| == 5 witness [0.0, 0.0, 0.0, 0.0, 0.0]
  type Counts = s: seq<nat> | |s| == 5 witness [0, 0, 0, 0, 0]

  function Sum(s: Five): real {
    s[0] + s[1] + s[2] + s[3] + s[4]
  }

  /** Named products keep the solver's reasoning about them by congruence. */
  function Times(x: real, y: real): real {
    x * y
  }

  function Pairs(counts: Counts): nat {
    counts[0] + counts[1] + counts[2] + counts[3] + counts[4]
  }

  /** `support - mean`. */
  function Delta(mean: real): Five {
    [0.0 - mean, 0.25 - mean, 0.5 - mean, 0.75 - mean, 1.0 - mean]
  }

  /** The facts about the deltas that the end-point arguments use. */
  predicate Spans(d: Five, mean: real) {
    && d[0] == 0.0 - mean && d[4] == 1.0 - mean
    && forall i :: 0 <= i < 5 ==> 0.0 - mean <= d[i] <= 1.0 - mean
  }

  lemma DeltaSpans(mean: real)
    ensures Spans(Delta(mean), mean)
  {
  }

  /** The denominator `1 + multiplier * delta`. */
  function Denominator(d: Five, multiplier: real, i: nat): real
    requires i < 5
  {
    1.0 + Times(multiplier, d[i])
  }

  /** The regularised frequencies. */
  function Frequency(counts: Counts): (f: Five)
    ensures forall i :: 0 <= i < 5 ==> f[i] > 0.0
    ensures Sum(f) == 1.0
  {
    var total := Pairs(counts) as real + 5.0 * EPSILON;
    var f: Five := [
      (counts[0] as real + EPSILON) / total, (counts[1] as real + EPSILON) / total,
      (counts[2] as real + EPSILON) / total, (counts[3] as real + EPSILON) / total,
      (counts[4] as real + EPSILON) / total];
    FractionsSum(counts[0] as real + EPSILON, counts[1] as real + EPSILON, counts[2] as real + EPSILON,
                 counts[3] as real + EPSILON, counts[4] as real + EPSILON, total);
    f
  }

  lemma FractionsSum(a: real, b: real, c: real, d: real, e: real, total: real)
    requires a > 0.0 && b > 0.0 && c > 0.0 && d > 0.0 && e > 0.0 && total == a + b + c + d + e
    ensures a / total > 0.0 && b / total > 0.0 && c / total > 0.0 && d / total > 0.0 && e / total > 0.0
    ensures a / total + b / total + c / total + d / total + e / total == 1.0
  {
  }

  predicate Admissible(mean: real) {
    0.0 < mean < 1.0
  }

  function Lower(mean: real): real
    requires Admissible(mean)
  {
    -1.0 / (1.0 - mean) + MARGIN
  }

  function Upper(mean: real): real
    requires Admissible(mean)
  {
    1.0 / mean - MARGIN
  }

  /** Every denominator of the derivative is positive. */
  predicate Feasible(d: Five, multiplier: real) {
    && Denominator(d, multiplier, 0) > 0.0 && Denominator(d, multiplier, 1) > 0.0
    && Denominator(d, multiplier, 2) > 0.0 && Denominator(d, multiplier, 3) > 0.0
    && Denominator(d, multiplier, 4) > 0.0
  }

  lemma Product(x: real, y: real)
    ensures x >= 0.0 && y >= 0.0 ==> x * y >= 0.0
    ensures x <= 0.0 && y <= 0.0 ==> x * y >= 0.0
    ensures x >= 0.0 && y <= 0.0 ==> x * y <= 0.0
    ensures x > 0.0 && y > 0.0 ==> x * y > 0.0
  {
  }

  lemma ScaleLe(m: real, x: real, y: real)
    requires x <= y
    ensures m >= 0.0 ==> m * x <= m * y
    ensures m <= 0.0 ==> m * x >= m * y
  {
    Product(m, y - x);
    Product(-m, y - x);
    assert m * y - m * x == m * (y - x);
  }

  lemma ReciprocalTimes(x: real)
    requires x > 0.0
    ensures 1.0 / x * x == 1.0
    ensures x < 1.0 ==> 1.0 / x > 1.0
  {
  }

  lemma LinearPositive(m: real, d: real, low: real, high: real)
    requires low <= d <= high && 1.0 + Times(m, low) > 0.0 && 1.0 + Times(m, high) > 0.0
    ensures 1.0 + Times(m, d) > 0.0
  {
    var now, least, most := m * d, m * low, m * high;
    if m >= 0.0 {
      ScaleLe(m, low, d);
      assert now >= least;
    } else {
      ScaleLe(m, d, high);
      assert now >= most;
    }
  }

  lemma LowerDenominator(mean: real, m: real)
    requires Admissible(mean) && Lower(mean) <= m
    ensures Lower(mean) * (1.0 - mean) == -1.0 + MARGIN * (1.0 - mean)
    ensures 1.0 + Times(m, 1.0 - mean) > 0.0
  {
    var a := 1.0 - mean;
    ReciprocalTimes(a);
    NegateQuotient(1.0, a);
    assert Lower(mean) == -(1.0 / a) + MARGIN;
    assert Lower(mean) * a == -(1.0 / a * a) + MARGIN * a;
    ScaleLe(a, Lower(mean), m);
    assert a * m == m * a && a * Lower(mean) == Lower(mean) * a;
  }

  lemma UpperDenominator(mean: real, m: real)
    requires Admissible(mean) && m <= Upper(mean)
    ensures Upper(mean) * mean == 1.0 - MARGIN * mean
    ensures 1.0 + Times(m, 0.0 - mean) > 0.0
  {
    ReciprocalTimes(mean);
    assert Upper(mean) * mean == 1.0 / mean * mean - MARGIN * mean;
    ScaleLe(mean, m, Upper(mean));
    assert mean * m == m * mean && mean * Upper(mean) == Upper(mean) * mean;
    assert m * mean <= 1.0 - MARGIN * mean;
    Negated(m, mean);
  }

  lemma Negated(m: real, mean: real)
    ensures m * (0.0 - mean) == -(m * mean)
  {
  }

  lemma EndsPositive(mean: real, m: real, low: real, high: real)
    requires Admissible(mean) && Lower(mean) <= m <= Upper(mean) && low == 0.0 - mean && high == 1.0 - mean
    ensures 1.0 + Times(m, low) > 0.0 && 1.0 + Times(m, high) > 0.0
  {
    LowerDenominator(mean, m);
    UpperDenominator(mean, m);
  }

  lemma DenominatorPositive(d: Five, m: real, low: real, high: real, i: nat)
    requires i < 5 && low <= d[i] <= high
    requires 1.0 + Times(m, low) > 0.0 && 1.0 + Times(m, high) > 0.0
    ensures Denominator(d, m, i) > 0.0
  {
    LinearPositive(m, d[i], low, high);
  }

  /** On the whole search interval the denominators stay positive. */
  lemma IntervalFeasible(d: Five, mean: real, m: real)
    requires Admissible(mean) && Lower(mean) <= m <= Upper(mean) && Spans(d, mean)
    ensures Feasible(d, m)
  {
    var low, high := 0.0 - mean, 1.0 - mean;
    EndsPositive(mean, m, low, high);
    DenominatorPositive(d, m, low, high, 0);
    DenominatorPositive(d, m, low, high, 1);
    DenominatorPositive(d, m, low, high, 2);
    DenominatorPositive(d, m, low, high, 3);
    DenominatorPositive(d, m, low, high, 4);
  }

  /** One summand `frequency * delta / denominator`. */
  function Term(f: real, d: real, y: real): real
    requires y > 0.0
  {
    f * d / y
  }

  /** The derivative of the log-likelihood in the multiplier. */
  function Derivative(f: Five, d: Five, m: real): real
    requires Feasible(d, m)
  {
    Term(f[0], d[0], Denominator(d, m, 0)) + Term(f[1], d[1], Denominator(d, m, 1))
    + Term(f[2], d[2], Denominator(d, m, 2)) + Term(f[3], d[3], Denominator(d, m, 3))
    + Term(f[4], d[4], Denominator(d, m, 4))
  }

  lemma QuotientDifference(n: real, x: real, y: real)
    requires x > 0.0 && y > 0.0
    ensures n / x - n / y == n * (y - x) / (x * y)
  {
  }

  /** Each summand falls as the multiplier grows, strictly unless its delta is zero. */
  lemma TermFalls(f: real, d: real, m: real, n: real, x: real, y: real)
    requires f > 0.0 && m < n && x == 1.0 + m * d && y == 1.0 + n * d && x > 0.0 && y > 0.0
    ensures Term(f, d, x) >= Term(f, d, y)
    ensures d != 0.0 ==> Term(f, d, x) > Term(f, d, y)
  {
    QuotientDifference(f * d, x, y);
    assert y - x == (n - m) * d;
    var gap := f * d * (y - x);
    assert gap == (f * (n - m)) * (d * d);
    Product(f, n - m);
    Product(d, d);
    Product(x, y);
    if d != 0.0 {
      assert d * d > 0.0;
      Product(f * (n - m), d * d);
      PositiveQuotient(gap, x * y);
    } else {
      assert gap == 0.0;
    }
  }

  lemma PositiveQuotient(n: real, d: real)
    requires n > 0.0 && d > 0.0
    ensures n / d > 0.0
  {
  }

  /** The derivative is strictly decreasing where all denominators are positive. */
  lemma DerivativeStrictlyDecreasing(f: Five, d: Five, m: real, n: real)
    requires forall i :: 0 <= i < 5 ==> f[i] > 0.0
    requires Feasible(d, m) && Feasible(d, n) && m < n && d[0] != 0.0
    ensures Derivative(f, d, m) > Derivative(f, d, n)
  {
    TermFallsAt(f, d, m, n, 0);
    TermFallsAt(f, d, m, n, 1);
    TermFallsAt(f, d, m, n, 2);
    TermFallsAt(f, d, m, n, 3);
    TermFallsAt(f, d, m, n, 4);
  }

  lemma TermFallsAt(f: Five, d: Five, m: real, n: real, i: nat)
    requires i < 5 && f[i] > 0.0 && m < n && Denominator(d, m, i) > 0.0 && Denominator(d, n, i) > 0.0
    ensures Term(f[i], d[i], Denominator(d, m, i)) >= Term(f[i], d[i], Denominator(d, n, i))
    ensures d[i] != 0.0 ==>
      Term(f[i], d[i], Denominator(d, m, i)) > Term(f[i], d[i], Denominator(d, n, i))
  {
    TermFalls(f[i], d[i], m, n, Denominator(d, m, i), Denominator(d, n, i));
  }

  /** Fewer than a million pairs: even an empty bin has frequency above 1e-12. */
  lemma FrequencyAboveMargin(counts: Counts, i: nat)
    requires i < 5 && Pairs(counts) < PAIR_LIMIT
    ensures Frequency(counts)[i] > MARGIN
  {
    var total := Pairs(counts) as real + 5.0 * EPSILON;
    assert total < 1_000_000.0;
    BelowQuotient(counts[i] as real + EPSILON, total, MARGIN);
  }

  lemma BelowQuotient(n: real, d: real, bound: real)
    requires d > 0.0 && n > bound * d
    ensures n / d > bound
  {
  }

  /** A summand on the wrong side is bounded by its frequency. */
  lemma WrongSide(f: real, d: real, m: real, y: real)
    requires f > 0.0 && -1.0 < d < 1.0 && y == 1.0 + m * d && y > 0.0
    ensures m <= 0.0 ==> Term(f, d, y) > -f
    ensures m >= 0.0 ==> Term(f, d, y) < f
  {
    if m <= 0.0 {
      if d >= 0.0 {
        NonNegativeQuotient(f, d, y);
      } else {
        Product(m, d);
        QuotientAbove(f * d, y, -f, f, d);
      }
    }
    if m >= 0.0 {
      assert f * -d == -(f * d);
      NegateQuotient(f * d, y);
      if d <= 0.0 {
        NonNegativeQuotient(f, -d, y);
      } else {
        Product(m, d);
        QuotientAbove(f * -d, y, -f, f, -d);
      }
    }
  }

  lemma WrongSideAt(f: Five, d: Five, m: real, i: nat)
    requires i < 5 && f[i] > 0.0 && -1.0 < d[i] < 1.0 && Denominator(d, m, i) > 0.0
    ensures m <= 0.0 ==> Term(f[i], d[i], Denominator(d, m, i)) > -f[i]
    ensures m >= 0.0 ==> Term(f[i], d[i], Denominator(d, m, i)) < f[i]
  {
    WrongSide(f[i], d[i], m, Denominator(d, m, i));
  }

  lemma NegateQuotient(n: real, d: real)
    requires d > 0.0
    ensures (-n) / d == -(n / d)
  {
  }

  lemma NonNegativeQuotient(f: real, d: real, y: real)
    requires f > 0.0 && d >= 0.0 && y > 0.0
    ensures f * d / y >= 0.0
  {
    Product(f, d);
    NonNegativeOver(f * d, y);
  }

  lemma NonNegativeOver(n: real, y: real)
    requires n >= 0.0 && y > 0.0
    ensures n / y >= 0.0
  {
  }

  lemma QuotientAbove(n: real, y: real, bound: real, f: real, d: real)
    requires f > 0.0 && -1.0 < d < 0.0 && n == f * d && y >= 1.0 && bound == -f
    ensures n / y > bound
  {
    assert n > bound by {
      Product(f, 1.0 + d);
      assert f * (1.0 + d) == f + n;
    }
    assert n < 0.0;
    ScaleLe(bound, 1.0, y);
    BelowQuotient(n, y, bound);
  }

  /** At the lower end the top score dominates: the derivative is positive. */
  lemma PositiveAtLower(counts: Counts, d: Five, mean: real)
    requires Admissible(mean) && Pairs(counts) < PAIR_LIMIT && Spans(d, mean)
    ensures Lower(mean) < 0.0 && Feasible(d, Lower(mean))
    ensures Derivative(Frequency(counts), d, Lower(mean)) > 0.0
  {
    var f := Frequency(counts);
    var m := Lower(mean);
    EndsOrdered(mean);
    IntervalFeasible(d, mean, m);
    WrongSideAt(f, d, m, 0);
    WrongSideAt(f, d, m, 1);
    WrongSideAt(f, d, m, 2);
    WrongSideAt(f, d, m, 3);
    TopTerm(counts, d, mean);
  }

  lemma TopTerm(counts: Counts, d: Five, mean: real)
    requires Admissible(mean) && Pairs(counts) < PAIR_LIMIT && Spans(d, mean)
    ensures Denominator(d, Lower(mean), 4) > 0.0
    ensures Term(Frequency(counts)[4], d[4], Denominator(d, Lower(mean), 4)) > 1.0
  {
    LowerDenominator(mean, Lower(mean));
    assert Denominator(d, Lower(mean), 4) == MARGIN * (1.0 - mean);
    FrequencyAboveMargin(counts, 4);
    Dominates(Frequency(counts)[4], 1.0 - mean);
  }

  lemma BottomTerm(counts: Counts, d: Five, mean: real)
    requires Admissible(mean) && Pairs(counts) < PAIR_LIMIT && Spans(d, mean)
    ensures Denominator(d, Upper(mean), 0) > 0.0
    ensures Term(Frequency(counts)[0], d[0], Denominator(d, Upper(mean), 0)) < -1.0
  {
    var f := Frequency(counts)[0];
    UpperDenominator(mean, Upper(mean));
    assert Upper(mean) * (0.0 - mean) == -(Upper(mean) * mean);
    assert Denominator(d, Upper(mean), 0) == MARGIN * mean;
    FrequencyAboveMargin(counts, 0);
    Dominates(f, mean);
    NegateQuotient(f * mean, MARGIN * mean);
    assert f * d[0] == -(f * mean);
  }

  /** At the upper end the bottom score dominates: the derivative is negative. */
  lemma NegativeAtUpper(counts: Counts, d: Five, mean: real)
    requires Admissible(mean) && Pairs(counts) < PAIR_LIMIT && Spans(d, mean)
    ensures Upper(mean) > 0.0 && Feasible(d, Upper(mean))
    ensures Derivative(Frequency(counts), d, Upper(mean)) < 0.0
  {
    var f := Frequency(counts);
    var m := Upper(mean);
    EndsOrdered(mean);
    IntervalFeasible(d, mean, m);
    WrongSideAt(f, d, m, 1);
    WrongSideAt(f, d, m, 2);
    WrongSideAt(f, d, m, 3);
    WrongSideAt(f, d, m, 4);
    BottomTerm(counts, d, mean);
  }

  lemma EndsOrdered(mean: real)
    requires Admissible(mean)
    ensures Lower(mean) < 0.0 < Upper(mean)
  {
    ReciprocalTimes(1.0 - mean);
    ReciprocalTimes(mean);
    NegateQuotient(1.0, 1.0 - mean);
  }

  lemma Dominates(f: real, a: real)
    requires f > MARGIN && a > 0.0
    ensures f * a / (MARGIN * a) > 1.0
  {
    Product(f - MARGIN, a);
    assert f * a > MARGIN * a;
    BelowQuotient(f * a, MARGIN * a, 1.0);
  }

  // ----- when the search interval brackets the root ---------------------------------------------

  /** The counts with the regularisation, before they are divided by their sum. */
  function Regularised(counts: Counts): Five {
    [counts[0] as real + EPSILON, counts[1] as real + EPSILON, counts[2] as real + EPSILON,
     counts[3] as real + EPSILON, counts[4] as real + EPSILON]
  }

  /** Pair score `i` pulls the multiplier up by this much at `m`, or down when negative. */
  function Pull(counts: Counts, mean: real, m: real, i: nat): real
    requires i < 5 && Feasible(Delta(mean), m)
  {
    Term(Regularised(counts)[i], Delta(mean)[i], Denominator(Delta(mean), m, i))
  }

  /** The top bin outweighs the others at the lower end: linear in the counts. */
  predicate LowerBrackets(counts: Counts, mean: real)
    requires Admissible(mean) && Feasible(Delta(mean), Lower(mean))
  {
    var m := Lower(mean);
    (counts[4] as real + EPSILON) / MARGIN
      > -(Pull(counts, mean, m, 0) + Pull(counts, mean, m, 1) + Pull(counts, mean, m, 2) + Pull(counts, mean, m, 3))
  }

  /** The bottom bin outweighs the others at the upper end. */
  predicate UpperBrackets(counts: Counts, mean: real)
    requires Admissible(mean) && Feasible(Delta(mean), Upper(mean))
  {
    var m := Upper(mean);
    (counts[0] as real + EPSILON) / MARGIN
      >= Pull(counts, mean, m, 1) + Pull(counts, mean, m, 2) + Pull(counts, mean, m, 3) + Pull(counts, mean, m, 4)
  }

  lemma EndsFeasible(mean: real)
    requires Admissible(mean)
    ensures Lower(mean) < 0.0 < Upper(mean)
    ensures Feasible(Delta(mean), Lower(mean)) && Feasible(Delta(mean), Upper(mean))
  {
    EndsOrdered(mean);
    DeltaSpans(mean);
    IntervalFeasible(Delta(mean), mean, Lower(mean));
    IntervalFeasible(Delta(mean), mean, Upper(mean));
  }

  /** What the counts must satisfy for the root to be bracketed. */
  predicate Bracketable(counts: Counts, mean: real)
    requires Admissible(mean)
  {
    EndsFeasible(mean);
    LowerBrackets(counts, mean) && UpperBrackets(counts, mean)
  }

  lemma TermOfQuotient(w: real, total: real, d: real, y: real)
    requires total > 0.0 && y > 0.0
    ensures Term(w / total, d, y) * total == Term(w, d, y)
  {
    var q := w / total;
    assert q * total == w;
    MoveFactor(q, d, y);
    MoveFactor(w, d, y);
    SplitQuotient(q, total, y);
    assert q / y * d * total == q / y * total * d;
  }

  lemma SplitQuotient(q: real, total: real, y: real)
    requires y > 0.0
    ensures q / y * total == q * total / y
  {
  }

  /** Up to the positive sum of the counts the derivative is the sum of the pulls. */
  lemma DerivativeIsPulls(counts: Counts, mean: real, m: real)
    requires Feasible(Delta(mean), m)
    ensures Derivative(Frequency(counts), Delta(mean), m) * (Pairs(counts) as real + 5.0 * EPSILON)
         == Pull(counts, mean, m, 0) + Pull(counts, mean, m, 1) + Pull(counts, mean, m, 2)
          + Pull(counts, mean, m, 3) + Pull(counts, mean, m, 4)
  {
    var total := Pairs(counts) as real + 5.0 * EPSILON;
    var w, d := Regularised(counts), Delta(mean);
    TermOfQuotient(w[0], total, d[0], Denominator(d, m, 0));
    TermOfQuotient(w[1], total, d[1], Denominator(d, m, 1));
    TermOfQuotient(w[2], total, d[2], Denominator(d, m, 2));
    TermOfQuotient(w[3], total, d[3], Denominator(d, m, 3));
    TermOfQuotient(w[4], total, d[4], Denominator(d, m, 4));
    SpreadSum(Term(Frequency(counts)[0], d[0], Denominator(d, m, 0)),
              Term(Frequency(counts)[1], d[1], Denominator(d, m, 1)),
              Term(Frequency(counts)[2], d[2], Denominator(d, m, 2)),
              Term(Frequency(counts)[3], d[3], Denominator(d, m, 3)),
              Term(Frequency(counts)[4], d[4], Denominator(d, m, 4)), total);
  }

  lemma SpreadSum(a: real, b: real, c: real, d: real, e: real, t: real)
    ensures (a + b + c + d + e) * t == a * t + b * t + c * t + d * t + e * t
  {
  }

  lemma SignOfProduct(x: real, t: real)
    requires t > 0.0
    ensures x * t > 0.0 <==> x > 0.0
  {
  }

  lemma CancelCommon(w: real, a: real, b: real)
    requires a > 0.0 && b > 0.0
    ensures w * a / (b * a) == w / b
  {
    var q := w / b;
    assert q * b == w;
    assert w * a == q * (b * a);
  }

  lemma TopPull(counts: Counts, mean: real)
    requires Admissible(mean) && Feasible(Delta(mean), Lower(mean))
    ensures Pull(counts, mean, Lower(mean), 4) == (counts[4] as real + EPSILON) / MARGIN
  {
    var m, a := Lower(mean), 1.0 - mean;
    LowerDenominator(mean, m);
    assert Denominator(Delta(mean), m, 4) == MARGIN * a;
    CancelCommon(counts[4] as real + EPSILON, a, MARGIN);
  }

  lemma BottomPull(counts: Counts, mean: real)
    requires Admissible(mean) && Feasible(Delta(mean), Upper(mean))
    ensures Pull(counts, mean, Upper(mean), 0) == -((counts[0] as real + EPSILON) / MARGIN)
  {
    var m, w := Upper(mean), counts[0] as real + EPSILON;
    UpperDenominator(mean, m);
    Negated(m, mean);
    assert Denominator(Delta(mean), m, 0) == MARGIN * mean;
    CancelCommon(w, mean, MARGIN);
    NegateQuotient(w * mean, MARGIN * mean);
    assert w * (0.0 - mean) == -(w * mean);
  }

  /** The derivative has the sign of the sum of the pulls. */
  lemma SignOfDerivative(counts: Counts, mean: real, m: real)
    requires Feasible(Delta(mean), m)
    ensures (Pull(counts, mean, m, 0) + Pull(counts, mean, m, 1) + Pull(counts, mean, m, 2)
             + Pull(counts, mean, m, 3) + Pull(counts, mean, m, 4) > 0.0)
       <==> Derivative(Frequency(counts), Delta(mean), m) > 0.0
  {
    DerivativeIsPulls(counts, mean, m);
    SignOfProduct(Derivative(Frequency(counts), Delta(mean), m), Pairs(counts) as real + 5.0 * EPSILON);
  }

  /** The lower end brackets exactly when the top bin outweighs the others. */
  lemma LowerBracketsExactly(counts: Counts, mean: real)
    requires Admissible(mean) && Feasible(Delta(mean), Lower(mean))
    ensures Derivative(Frequency(counts), Delta(mean), Lower(mean)) > 0.0 <==> LowerBrackets(counts, mean)
  {
    TopPull(counts, mean);
    SignOfDerivative(counts, mean, Lower(mean));
  }

  /** The upper end brackets exactly when the bottom bin outweighs the others. */
  lemma UpperBracketsExactly(counts: Counts, mean: real)
    requires Admissible(mean) && Feasible(Delta(mean), Upper(mean))
    ensures Derivative(Frequency(counts), Delta(mean), Upper(mean)) <= 0.0 <==> UpperBrackets(counts, mean)
  {
    BottomPull(counts, mean);
    SignOfDerivative(counts, mean, Upper(mean));
  }

  /** Fewer than a million pairs are bracketed, whatever the mean; an arena has at most a thousand. */
  lemma FewPairsBracketable(counts: Counts, mean: real)
    requires Admissible(mean) && Pairs(counts) < PAIR_LIMIT
    ensures Bracketable(counts, mean)
  {
    EndsFeasible(mean);
    DeltaSpans(mean);
    PositiveAtLower(counts, Delta(mean), mean);
    NegativeAtUpper(counts, Delta(mean), mean);
    LowerBracketsExactly(counts, mean);
    UpperBracketsExactly(counts, mean);
  }

  function Pow2(k: nat): (p: real)
    ensures p > 0.0
  {
    if k == 0 then 1.0 else 2.0 * Pow2(k - 1)
  }

  /** What the bisection keeps: a sign change inside the feasible interval. */
  predicate Bracket(f: Five, d: Five, lower: real, upper: real) {
    && lower < upper && Feasible(d, lower) && Feasible(d, upper)
    && Derivative(f, d, lower) > 0.0 >= Derivative(f, d, upper)
  }

  /** `k` halvings of an interval, each keeping the half in which the derivative changes its sign. */
  function Search(counts: Counts, mean: real, lower: real, upper: real, k: nat): (ends: (real, real))
    requires Admissible(mean) && Lower(mean) <= lower < upper <= Upper(mean)
    ensures Lower(mean) <= ends.0 < ends.1 <= Upper(mean)
    decreases k
  {
    if k == 0 then (lower, upper)
    else
      var m := (lower + upper) / 2.0;
      DeltaSpans(mean);
      IntervalFeasible(Delta(mean), mean, m);
      if Derivative(Frequency(counts), Delta(mean), m) > 0.0 then Search(counts, mean, m, upper, k - 1)
      else Search(counts, mean, lower, m, k - 1)
  }

  /** Halving at a point between the ends keeps a bracket a bracket, and cannot make one. */
  lemma HalvingKeepsBracket(f: Five, d: Five, lower: real, m: real, upper: real)
    requires (forall i :: 0 <= i < 5 ==> f[i] > 0.0) && d[0] != 0.0
    requires Feasible(d, lower) && Feasible(d, m) && Feasible(d, upper) && lower < m < upper
    ensures Derivative(f, d, m) > 0.0 ==> (Bracket(f, d, m, upper) <==> Bracket(f, d, lower, upper))
    ensures Derivative(f, d, m) <= 0.0 ==> (Bracket(f, d, lower, m) <==> Bracket(f, d, lower, upper))
  {
    DerivativeStrictlyDecreasing(f, d, lower, m);
    DerivativeStrictlyDecreasing(f, d, m, upper);
  }

  /** The whole search interval is a bracket exactly when the counts allow it. */
  lemma WholeIntervalBrackets(counts: Counts, mean: real)
    requires Admissible(mean)
    ensures Bracket(Frequency(counts), Delta(mean), Lower(mean), Upper(mean)) <==> Bracketable(counts, mean)
  {
    EndsFeasible(mean);
    LowerBracketsExactly(counts, mean);
    UpperBracketsExactly(counts, mean);
  }

  /** The search keeps a bracket a bracket, cannot make one, and halves the width each time. */
  lemma {:induction false} SearchNarrows(counts: Counts, mean: real, lower: real, upper: real, k: nat)
    requires Admissible(mean) && Lower(mean) <= lower < upper <= Upper(mean)
    ensures var ends := Search(counts, mean, lower, upper, k);
            && (Bracket(Frequency(counts), Delta(mean), ends.0, ends.1)
                <==> Bracket(Frequency(counts), Delta(mean), lower, upper))
            && ends.1 - ends.0 == (upper - lower) / Pow2(k)
    decreases k
  {
    if k == 0 {
      assert upper - lower == (upper - lower) / Pow2(0);
    } else {
      var f, d, m := Frequency(counts), Delta(mean), (lower + upper) / 2.0;
      DeltaSpans(mean);
      IntervalFeasible(d, mean, lower);
      IntervalFeasible(d, mean, m);
      IntervalFeasible(d, mean, upper);
      HalvingKeepsBracket(f, d, lower, m, upper);
      HalfWidth(upper - lower, k - 1);
      HalfFirst(upper - lower, Pow2(k - 1));
      if Derivative(f, d, m) > 0.0 {
        SearchNarrows(counts, mean, m, upper, k - 1);
      } else {
        SearchNarrows(counts, mean, lower, m, k - 1);
      }
    }
  }

  lemma HalfFirst(w: real, p: real)
    requires p > 0.0
    ensures w / 2.0 / p == w / p / 2.0
  {
  }

  /**
   The loop of `paired_log_likelihood`. Every denominator it evaluates is positive, 48 halvings leave an
   interval of the stated width, and it brackets a sign change exactly when the counts are bracketable.
   */
  method Bisect(counts: Counts, mean: real) returns (lower: real, upper: real)
    requires Admissible(mean)
    ensures Lower(mean) < Upper(mean) && (lower, upper) == Search(counts, mean, Lower(mean), Upper(mean), ITERATIONS)
    ensures Lower(mean) <= lower < upper <= Upper(mean)
    ensures Bracket(Frequency(counts), Delta(mean), lower, upper) <==> Bracketable(counts, mean)
    ensures upper - lower == (Upper(mean) - Lower(mean)) / Pow2(ITERATIONS)
  {
    var frequency := Frequency(counts);
    var delta := Delta(mean);
    lower, upper := Lower(mean), Upper(mean);
    EndsFeasible(mean);
    DeltaSpans(mean);
    WholeIntervalBrackets(counts, mean);
    SearchNarrows(counts, mean, lower, upper, ITERATIONS);
    for k := 0 to ITERATIONS
      invariant Lower(mean) <= lower < upper <= Upper(mean)
      invariant Search(counts, mean, lower, upper, ITERATIONS - k)
             == Search(counts, mean, Lower(mean), Upper(mean), ITERATIONS)
    {
      var multiplier := (lower + upper) / 2.0;
      IntervalFeasible(delta, mean, multiplier);
      if Derivative(frequency, delta, multiplier) > 0.0 {
        lower := multiplier;
      } else {
        upper := multiplier;
      }
    }
  }

  lemma ManyLossesAtLower()
    ensures var counts: Counts := [10_000_000, 0, 0, 0, 0];
            && Feasible(Delta(0.5), Lower(0.5))
            && Derivative(Frequency(counts), Delta(0.5), Lower(0.5)) < 0.0
  {
    var counts: Counts := [10_000_000, 0, 0, 0, 0];
    var f, d, m := Frequency(counts), Delta(0.5), Lower(0.5);
    DeltaSpans(0.5);
    EndsOrdered(0.5);
    IntervalFeasible(d, 0.5, m);
    assert m == -2.0 + MARGIN;
    assert f[4] < 0.0000000000002 && f[3] < 0.0000000000002 && f[0] > 0.9;
    assert Denominator(d, m, 4) == 0.0000000000005 && Denominator(d, m, 0) < 2.0;
    assert Denominator(d, m, 3) > 0.5;
    assert Term(f[4], d[4], Denominator(d, m, 4)) < 0.2;
    assert Term(f[3], d[3], Denominator(d, m, 3)) < 0.01;
    assert Term(f[2], d[2], Denominator(d, m, 2)) == 0.0;
    BelowQuotient(f[0] * 0.5, Denominator(d, m, 0), 0.22);
    NegateQuotient(f[0] * 0.5, Denominator(d, m, 0));
    assert Term(f[0], d[0], Denominator(d, m, 0)) < -0.22;
    NonNegativeQuotient(f[1], 0.25, Denominator(d, m, 1));
    NegateQuotient(f[1] * 0.25, Denominator(d, m, 1));
  }

  /** Not all counts are bracketable: ten million pairs without a single win are not. */
  lemma BracketFailsBeyondLimit()
    ensures !Bracketable([10_000_000, 0, 0, 0, 0], 0.5)
  {
    EndsFeasible(0.5);
    ManyLossesAtLower();
    LowerBracketsExactly([10_000_000, 0, 0, 0, 0], 0.5);
  }

  lemma HalfWidth(width: real, k: nat)
    ensures width / Pow2(k) / 2.0 == width / Pow2(k + 1)
  {
    HalfQuotient(width, Pow2(k));
  }

  lemma HalfQuotient(w: real, p: real)
    requires p > 0.0
    ensures w / p / 2.0 == w / (2.0 * p)
  {
  }

  /** There is at most one root, and it lies in the final bracket. */
  lemma RootInBracket(f: Five, d: Five, lower: real, upper: real, root: real)
    requires (forall i :: 0 <= i < 5 ==> f[i] > 0.0) && d[0] != 0.0
    requires Bracket(f, d, lower, upper)
    requires Feasible(d, root) && Derivative(f, d, root) == 0.0
    ensures lower < root <= upper
  {
    if root < lower {
      DerivativeStrictlyDecreasing(f, d, root, lower);
    }
    if root > upper {
      DerivativeStrictlyDecreasing(f, d, upper, root);
    }
  }

  lemma RootUnique(f: Five, d: Five, root: real, other: real)
    requires (forall i :: 0 <= i < 5 ==> f[i] > 0.0) && d[0] != 0.0
    requires Feasible(d, root) && Derivative(f, d, root) == 0.0
    requires Feasible(d, other) && Derivative(f, d, other) == 0.0
    ensures root == other
  {
    if other < root {
      DerivativeStrictlyDecreasing(f, d, other, root);
    } else if root < other {
      DerivativeStrictlyDecreasing(f, d, root, other);
    }
  }

  /** Only bracketable counts have a root strictly inside the search interval. */
  lemma RootNeedsBracketable(counts: Counts, mean: real, root: real)
    requires Admissible(mean) && Lower(mean) < root < Upper(mean)
    requires Feasible(Delta(mean), root) && Derivative(Frequency(counts), Delta(mean), root) == 0.0
    ensures Bracketable(counts, mean)
  {
    EndsFeasible(mean);
    DerivativeStrictlyDecreasing(Frequency(counts), Delta(mean), Lower(mean), root);
    DerivativeStrictlyDecreasing(Frequency(counts), Delta(mean), root, Upper(mean));
    WholeIntervalBrackets(counts, mean);
  }

  // ----- the tilted distribution ----------------------------------------------------------------

  /** `frequency / (1 + multiplier * delta)`. */
  function Tilted(f: Five, d: Five, m: real): Five
    requires Feasible(d, m)
  {
    [f[0] / Denominator(d, m, 0), f[1] / Denominator(d, m, 1), f[2] / Denominator(d, m, 2),
     f[3] / Denominator(d, m, 3), f[4] / Denominator(d, m, 4)]
  }

  lemma TiltedTerm(f: real, d: real, m: real, y: real, p: real)
    requires f > 0.0 && y == 1.0 + Times(m, d) && y > 0.0 && p == f / y
    ensures p > 0.0 && p + Times(m, Times(p, d)) == f && Times(p, y) == f && Term(f, d, y) == Times(p, d)
  {
    PositiveQuotient(f, y);
    assert p * y == f;
    assert p * (m * d) == m * (p * d);
    assert p * (1.0 + m * d) == p + p * (m * d);
    MoveFactor(f, d, y);
  }

  lemma MoveFactor(f: real, d: real, y: real)
    requires y > 0.0
    ensures f * d / y == f / y * d
  {
  }

  function Mean(p: Five): real {
    0.0 * p[0] + 0.25 * p[1] + 0.5 * p[2] + 0.75 * p[3] + 1.0 * p[4]
  }

  lemma TiltedTermAt(f: Five, d: Five, m: real, i: nat)
    requires i < 5 && f[i] > 0.0 && Feasible(d, m) && Denominator(d, m, i) > 0.0
    ensures var p := Tilted(f, d, m)[i];
            && p > 0.0 && p + Times(m, Times(p, d[i])) == f[i] && Times(p, Denominator(d, m, i)) == f[i]
            && Term(f[i], d[i], Denominator(d, m, i)) == Times(p, d[i])
  {
    TiltedTerm(f[i], d[i], m, Denominator(d, m, i), Tilted(f, d, m)[i]);
  }

  /** The first moment of `p` about the required mean. */
  function Moment(p: Five, d: Five): real {
    Times(p[0], d[0]) + Times(p[1], d[1]) + Times(p[2], d[2]) + Times(p[3], d[3]) + Times(p[4], d[4])
  }

  lemma MomentIsMeanGap(p: Five, mean: real)
    ensures Moment(p, Delta(mean)) == Mean(p) - mean * Sum(p)
  {
  }

  lemma Distribute(m: real, a: real, b: real, c: real, d: real, e: real)
    ensures Times(m, a + b + c + d + e) == Times(m, a) + Times(m, b) + Times(m, c) + Times(m, d) + Times(m, e)
  {
  }

  lemma TiltedBalances(f: Five, d: Five, m: real)
    requires (forall i :: 0 <= i < 5 ==> f[i] > 0.0) && Sum(f) == 1.0
    requires Feasible(d, m) && Derivative(f, d, m) == 0.0
    ensures var p := Tilted(f, d, m);
            (forall i :: 0 <= i < 5 ==> p[i] > 0.0) && Sum(p) == 1.0 && Moment(p, d) == 0.0
  {
    var p := Tilted(f, d, m);
    TiltedTermAt(f, d, m, 0);
    TiltedTermAt(f, d, m, 1);
    TiltedTermAt(f, d, m, 2);
    TiltedTermAt(f, d, m, 3);
    TiltedTermAt(f, d, m, 4);
    assert Moment(p, d) == Derivative(f, d, m);
    Distribute(m, Times(p[0], d[0]), Times(p[1], d[1]), Times(p[2], d[2]), Times(p[3], d[3]), Times(p[4], d[4]));
    assert Sum(p) + Times(m, Moment(p, d)) == 1.0;
  }

  /** At the root the tilted weights are a distribution with exactly the required mean. */
  lemma TiltedIsDistribution(f: Five, mean: real, m: real)
    requires (forall i :: 0 <= i < 5 ==> f[i] > 0.0) && Sum(f) == 1.0
    requires Feasible(Delta(mean), m) && Derivative(f, Delta(mean), m) == 0.0
    ensures var p := Tilted(f, Delta(mean), m);
            (forall i :: 0 <= i < 5 ==> p[i] > 0.0) && Sum(p) == 1.0 && Mean(p) == mean
  {
    TiltedBalances(f, Delta(mean), m);
    MomentIsMeanGap(Tilted(f, Delta(mean), m), mean);
  }

  /** The tangent-line bound of the natural logarithm, the only fact used about it. */
  ghost predicate IsLog(ln: real -> real) {
    forall x: real, y: real :: x > 0.0 && y > 0.0 ==> ln(x) - ln(y) <= (x - y) / y
  }

  function LogLikelihood(ln: real -> real, f: Five, p: Five): real {
    Times(f[0], ln(p[0])) + Times(f[1], ln(p[1])) + Times(f[2], ln(p[2]))
    + Times(f[3], ln(p[3])) + Times(f[4], ln(p[4]))
  }

  lemma LogGap(ln: real -> real, f: real, p: real, q: real, w: real)
    requires IsLog(ln) && f > 0.0 && p > 0.0 && q > 0.0 && p * w == f
    ensures f * ln(q) - f * ln(p) <= (q - p) * w
  {
    assert ln(q) - ln(p) <= (q - p) / p;
    ScaleLe(f, ln(q) - ln(p), (q - p) / p);
    CancelFactor(f, q - p, p, w);
  }

  lemma CancelFactor(f: real, n: real, p: real, w: real)
    requires p > 0.0 && p * w == f
    ensures f * (n / p) == n * w
  {
    assert n / p * p == n;
    assert f * (n / p) == w * (p * (n / p));
  }

  /** At the root the tilted distribution maximises the frequency log-likelihood under the mean constraint. */
  lemma TiltedIsMaximumLikelihood(ln: real -> real, f: Five, mean: real, m: real, q: Five)
    requires IsLog(ln)
    requires (forall i :: 0 <= i < 5 ==> f[i] > 0.0) && Sum(f) == 1.0
    requires Feasible(Delta(mean), m) && Derivative(f, Delta(mean), m) == 0.0
    requires (forall i :: 0 <= i < 5 ==> q[i] > 0.0) && Sum(q) == 1.0 && Mean(q) == mean
    ensures LogLikelihood(ln, f, q) <= LogLikelihood(ln, f, Tilted(f, Delta(mean), m))
  {
    var d := Delta(mean);
    var p := Tilted(f, d, m);
    MomentIsMeanGap(q, mean);
    TiltedBalances(f, d, m);
    forall i | 0 <= i < 5 ensures p[i] > 0.0 && Times(p[i], Denominator(d, m, i)) == f[i] {
      TiltedTermAt(f, d, m, i);
    }
    BalancedMaximum(ln, f, d, m, p, q);
    LogLikelihoodIsSum(ln, f, p);
    LogLikelihoodIsSum(ln, f, q);
  }

  lemma LogLikelihoodIsSum(ln: real -> real, f: Five, p: Five)
    ensures LogLikelihood(ln, f, p) == Sum(Weighted(ln, f, p))
  {
  }

  /** The first-order condition `p (1 + m d) = f` makes `p` a constrained maximum. */
  lemma BalancedMaximum(ln: real -> real, f: Five, d: Five, m: real, p: Five, q: Five)
    requires IsLog(ln)
    requires forall i :: 0 <= i < 5 ==> f[i] > 0.0 && p[i] > 0.0 && q[i] > 0.0
    requires forall i :: 0 <= i < 5 ==> Times(p[i], Denominator(d, m, i)) == f[i]
    requires Sum(p) == Sum(q) && Moment(p, d) == 0.0 && Moment(q, d) == 0.0
    ensures Sum(Weighted(ln, f, q)) <= Sum(Weighted(ln, f, p))
  {
    var big, small, shift := Weighted(ln, f, q), Weighted(ln, f, p), Shift(p, q, d, m);
    MomentDifference(p, q, d, m);
    forall i | 0 <= i < 5 ensures GapBounded(big, small, q, p, shift, i) {
      GapAt(ln, f, d, m, p, q, i);
    }
    SumOfGaps(big, small, q, p, shift);
  }

  predicate GapBounded(big: Five, small: Five, q: Five, p: Five, shift: Five, i: nat)
    requires i < 5
  {
    big[i] - small[i] <= q[i] - p[i] + shift[i]
  }

  lemma GapAt(ln: real -> real, f: Five, d: Five, m: real, p: Five, q: Five, i: nat)
    requires IsLog(ln) && i < 5 && f[i] > 0.0 && p[i] > 0.0 && q[i] > 0.0
    requires Times(p[i], Denominator(d, m, i)) == f[i]
    ensures GapBounded(Weighted(ln, f, q), Weighted(ln, f, p), q, p, Shift(p, q, d, m), i)
  {
    GapScalar(ln, f[i], d[i], m, Denominator(d, m, i), p[i], q[i]);
  }

  ghost function Weighted(ln: real -> real, f: Five, p: Five): Five {
    seq(5, i requires 0 <= i < 5 => Times(f[i], ln(p[i])))
  }

  /** The multiplier's share of each gap. */
  function Shift(p: Five, q: Five, d: Five, m: real): Five {
    seq(5, i requires 0 <= i < 5 => Times(m, Times(q[i] - p[i], d[i])))
  }

  lemma SumOfGaps(big: Five, small: Five, q: Five, p: Five, shift: Five)
    requires forall i :: 0 <= i < 5 ==> GapBounded(big, small, q, p, shift, i)
    requires Sum(q) == Sum(p) && Sum(shift) == 0.0
    ensures Sum(big) <= Sum(small)
  {
    assert GapBounded(big, small, q, p, shift, 0) && GapBounded(big, small, q, p, shift, 1);
    assert GapBounded(big, small, q, p, shift, 2) && GapBounded(big, small, q, p, shift, 3);
    assert GapBounded(big, small, q, p, shift, 4);
  }

  lemma MomentDifference(p: Five, q: Five, d: Five, m: real)
    requires Moment(p, d) == 0.0 && Moment(q, d) == 0.0
    ensures Sum(Shift(p, q, d, m)) == 0.0
  {
    Distribute(m, Times(q[0] - p[0], d[0]), Times(q[1] - p[1], d[1]), Times(q[2] - p[2], d[2]),
               Times(q[3] - p[3], d[3]), Times(q[4] - p[4], d[4]));
    Spread(q[0], p[0], d[0]);
    Spread(q[1], p[1], d[1]);
    Spread(q[2], p[2], d[2]);
    Spread(q[3], p[3], d[3]);
    Spread(q[4], p[4], d[4]);
  }

  lemma Spread(q: real, p: real, d: real)
    ensures Times(q - p, d) == Times(q, d) - Times(p, d)
  {
  }

  lemma GapScalar(ln: real -> real, f: real, d: real, m: real, y: real, p: real, q: real)
    requires IsLog(ln) && f > 0.0 && q > 0.0 && p > 0.0 && y == 1.0 + Times(m, d) && Times(p, y) == f
    ensures Times(f, ln(q)) - Times(f, ln(p)) <= q - p + Times(m, Times(q - p, d))
  {
    LogGap(ln, f, p, q, y);
    OpenProduct(q - p, m, d);
  }

  lemma OpenProduct(g: real, m: real, d: real)
    ensures g * (1.0 + m * d) == g + m * (g * d)
  {
  }

  // ----- the gate -------------------------------------------------------------------------------

  function Reals(counts: Counts): Five {
    [counts[0] as real, counts[1] as real, counts[2] as real, counts[3] as real, counts[4] as real]
  }

  /** Half the width of the final bracket. */
  function HalfBracket(mean: real): real
    requires Admissible(mean)
  {
    (Upper(mean) - Lower(mean)) / Pow2(ITERATIONS) / 2.0
  }

  /** The multiplier that the bisection settles on: the midpoint of the final interval. */
  function Multiplier(counts: Counts, mean: real): (m: real)
    requires Admissible(mean)
    ensures Feasible(Delta(mean), m)
  {
    EndsFeasible(mean);
    var ends := Search(counts, mean, Lower(mean), Upper(mean), ITERATIONS);
    var m := (ends.0 + ends.1) / 2.0;
    DeltaSpans(mean);
    IntervalFeasible(Delta(mean), mean, m);
    m
  }

  /**
   The derivative changes its sign within half the final bracket of the multiplier: it is positive at
   that distance below and not positive at that distance above. So every zero of it is that near.
   */
  ghost predicate NearRoot(counts: Counts, mean: real, m: real)
    requires Admissible(mean)
  {
    && Bracket(Frequency(counts), Delta(mean), m - HalfBracket(mean), m + HalfBracket(mean))
    && forall root: real :: Feasible(Delta(mean), root) && Derivative(Frequency(counts), Delta(mean), root) == 0.0 ==>
         -HalfBracket(mean) <= m - root <= HalfBracket(mean)
  }

  /** The log-likelihood of the counts under the tilted distribution. */
  function LikelihoodAt(ln: real -> real, counts: Counts, mean: real, m: real): real
    requires Feasible(Delta(mean), m)
  {
    LogLikelihood(ln, Reals(counts), Tilted(Frequency(counts), Delta(mean), m))
  }

  /** Its value at the multiplier found. */
  function ConstrainedLikelihood(ln: real -> real, counts: Counts, mean: real): real
    requires Admissible(mean)
  {
    LikelihoodAt(ln, counts, mean, Multiplier(counts, mean))
  }

  lemma MidpointIsMultiplier(counts: Counts, mean: real, lower: real, upper: real)
    requires Admissible(mean) && Lower(mean) < Upper(mean)
    requires (lower, upper) == Search(counts, mean, Lower(mean), Upper(mean), ITERATIONS)
    ensures (lower + upper) / 2.0 == Multiplier(counts, mean)
  {
  }

  lemma EndsAroundMultiplier(counts: Counts, mean: real)
    requires Admissible(mean)
    ensures Bracket(Frequency(counts), Delta(mean),
                    Multiplier(counts, mean) - HalfBracket(mean), Multiplier(counts, mean) + HalfBracket(mean))
       <==> Bracketable(counts, mean)
  {
    EndsFeasible(mean);
    var ends := Search(counts, mean, Lower(mean), Upper(mean), ITERATIONS);
    var m := Multiplier(counts, mean);
    WholeIntervalBrackets(counts, mean);
    SearchNarrows(counts, mean, Lower(mean), Upper(mean), ITERATIONS);
    MidpointIsMultiplier(counts, mean, ends.0, ends.1);
    assert m - HalfBracket(mean) == ends.0 && m + HalfBracket(mean) == ends.1;
  }

  /** The multiplier is near the root exactly when the counts are bracketable, as few pairs always are. */
  lemma MultiplierNearRoot(counts: Counts, mean: real)
    requires Admissible(mean)
    ensures Bracketable(counts, mean) <==> NearRoot(counts, mean, Multiplier(counts, mean))
    ensures Pairs(counts) < PAIR_LIMIT ==> Bracketable(counts, mean)
  {
    EndsAroundMultiplier(counts, mean);
    if Pairs(counts) < PAIR_LIMIT {
      FewPairsBracketable(counts, mean);
    }
    if Bracketable(counts, mean) {
      var f, d := Frequency(counts), Delta(mean);
      var m, h := Multiplier(counts, mean), HalfBracket(mean);
      forall root: real | Feasible(d, root) && Derivative(f, d, root) == 0.0 ensures -h <= m - root <= h {
        RootInBracket(f, d, m - h, m + h, root);
      }
    }
  }

  method FindMultiplier(counts: Counts, mean: real) returns (m: real)
    requires Admissible(mean)
    ensures m == Multiplier(counts, mean)
  {
    var lower, upper := Bisect(counts, mean);
    MidpointIsMultiplier(counts, mean, lower, upper);
    m := (lower + upper) / 2.0;
  }

  /**
   `paired_log_likelihood`: the log-likelihood of the counts under the tilted distribution at the
   midpoint of the final bracket, which is within half its width of the root when the counts are bracketable.
   */
  method PairedLogLikelihood(ln: real -> real, counts: Counts, mean: real) returns (value: real)
    requires Admissible(mean)
    ensures value == ConstrainedLikelihood(ln, counts, mean)
    ensures Bracketable(counts, mean) ==> NearRoot(counts, mean, Multiplier(counts, mean))
  {
    MultiplierNearRoot(counts, mean);
    var m := FindMultiplier(counts, mean);
    value := LikelihoodAt(ln, counts, mean, m);
  }

  predicate IsScore(score: real) {
    score == 0.0 || score == 0.5 || score == 1.0
  }

  /** Twice a score: 0, 1 or 2. */
  function Points(score: real): (points: nat)
    requires IsScore(score)
    ensures points <= 2 && points as real == 2.0 * score
  {
    if score == 0.0 then 0 else if score == 0.5 then 1 else 2
  }

  /** The bin of a pair: twice its total score, which needs no rounding. */
  function Bin(first: real, second: real): (bin: nat)
    requires IsScore(first) && IsScore(second)
    ensures bin < 5 && bin as real == 2.0 * (first + second)
  {
    Points(first) + Points(second)
  }

  predicate AreScores(scores: seq<real>) {
    forall i :: 0 <= i < |scores| ==> IsScore(scores[i])
  }

  /** One pair more in a bin. */
  function Bump(counts: Counts, bin: nat): (r: Counts)
    requires bin < 5
    ensures Pairs(r) == Pairs(counts) + 1
  {
    counts[bin := counts[bin] + 1]
  }

  predicate AreBins(bins: seq<nat>) {
    forall i :: 0 <= i < |bins| ==> bins[i] < 5
  }

  /** How often each bin occurs. */
  function Tally(bins: seq<nat>): (counts: Counts)
    requires AreBins(bins)
    ensures Pairs(counts) == |bins|
  {
    if bins == [] then [0, 0, 0, 0, 0] else Bump(Tally(bins[..|bins| - 1]), bins[|bins| - 1])
  }

  /** The bins of the complete pairs of a score list. */
  function PairBins(scores: seq<real>): (bins: seq<nat>)
    requires AreScores(scores)
    ensures |bins| == |scores| / 2 && AreBins(bins)
  {
    seq(|scores| / 2, k requires 0 <= k < |scores| / 2 => Bin(scores[2 * k], scores[2 * k + 1]))
  }

  function Histogram(scores: seq<real>): (counts: Counts)
    requires AreScores(scores)
    ensures Pairs(counts) == |scores| / 2
  {
    Tally(PairBins(scores))
  }

  /** The scores with both games of pair `k` exchanged. */
  function Exchanged(scores: seq<real>, k: nat): (r: seq<real>)
    requires AreScores(scores) && 2 * k + 1 < |scores|
    ensures AreScores(r) && |r| == |scores|
  {
    scores[2 * k := scores[2 * k + 1]][2 * k + 1 := scores[2 * k]]
  }

  /** Within a pair the two games may be exchanged: a pair scores the opening, not the order of colours. */
  lemma HistogramIgnoresPairOrder(scores: seq<real>, k: nat)
    requires AreScores(scores) && 2 * k + 1 < |scores|
    ensures Histogram(Exchanged(scores, k)) == Histogram(scores)
  {
    var swapped := Exchanged(scores, k);
    forall j | 0 <= j < |scores| / 2 ensures PairBins(swapped)[j] == PairBins(scores)[j] {
      if j == k {
        assert Bin(scores[2 * k + 1], scores[2 * k]) == Bin(scores[2 * k], scores[2 * k + 1]);
      }
    }
    assert PairBins(swapped) == PairBins(scores);
  }

  datatype Decision = Undecided | Accepted | Rejected

  /** The gate's verdict from the number of games and the log-likelihood ratio of the complete pairs. */
  function Verdict(games: nat, llr: real, minimum: nat, maximum: nat, lower: real, upper: real): Decision {
    if games % 2 == 1 then Undecided
    else if games >= minimum && llr >= upper then Accepted
    else if games >= minimum && llr <= lower then Rejected
    else if games >= maximum then Rejected
    else Undecided
  }

  /** The log-likelihood ratio of the two hypotheses on the histogram of the complete pairs. */
  function Ratio(ln: real -> real, counts: Counts, p0: real, p1: real): real
    requires Admissible(p0) && Admissible(p1)
  {
    ConstrainedLikelihood(ln, counts, p1) - ConstrainedLikelihood(ln, counts, p0)
  }

  ghost predicate IsNaturalLog(ln: real -> real) {
    IsLog(ln) && ln(1.0) == 0.0
  }

  /** The acceptance boundary is above zero and the rejection boundary below: they never cross. */
  lemma BoundariesOrdered(ln: real -> real, alpha: real, beta: real)
    requires IsNaturalLog(ln) && 0.0 < alpha < 0.5 && 0.0 < beta < 0.5
    ensures ln(beta / (1.0 - alpha)) < 0.0 < ln((1.0 - beta) / alpha)
  {
    BelowQuotient(1.0 - beta, alpha, 1.0);
    PositiveQuotient(beta, 1.0 - alpha);
    BelowOne(beta, 1.0 - alpha);
    var x, y := (1.0 - beta) / alpha, beta / (1.0 - alpha);
    assert ln(1.0) - ln(x) <= (1.0 - x) / x;
    NegateQuotient(x - 1.0, x);
    PositiveQuotient(x - 1.0, x);
    assert ln(y) - ln(1.0) <= (y - 1.0) / 1.0;
  }

  lemma BelowOne(n: real, d: real)
    requires 0.0 < n < d
    ensures n / d < 1.0
  {
    BelowQuotient(-n, d, -1.0);
    NegateQuotient(n, d);
  }

  /** `PairedSprtGate`. */
  class PairedSprtGate {
    const p0: real
    const p1: real
    const minimum: nat
    const maximum: nat
    const upper: real
    const lower: real
    const ln: real -> real
    var counts: Counts
    var games: nat
    var llr: real
    var crossed: bool
    var first: Option<real>
    ghost var scores: seq<real>

    ghost predicate Valid()
      reads this
    {
      && 0.0 < p0 < p1 < 1.0
      && 2 <= minimum <= maximum && minimum % 2 == 0 && maximum % 2 == 0
      && AreScores(scores)
      && games == |scores|
      && first == (if games % 2 == 1 then Some(scores[games - 1]) else None)
      && counts == Histogram(scores)
    }

    constructor (ln: real -> real, p0: real, p1: real, alpha: real, beta: real, minimum: nat, maximum: nat)
      requires 0.0 < p0 < p1 < 1.0 && 0.0 < alpha < 0.5 && 0.0 < beta < 0.5
      requires 2 <= minimum <= maximum && minimum % 2 == 0 && maximum % 2 == 0
      ensures Valid() && scores == []
      ensures upper == ln((1.0 - beta) / alpha) && lower == ln(beta / (1.0 - alpha))
    {
      this.ln := ln;
      this.p0, this.p1, this.minimum, this.maximum := p0, p1, minimum, maximum;
      upper := ln((1.0 - beta) / alpha);
      lower := ln(beta / (1.0 - alpha));
      counts, games, llr, crossed, first, scores := [0, 0, 0, 0, 0], 0, 0.0, false, None, [];
    }

    /** A score other than win, draw or loss is refused and changes nothing. */
    method Update(score: real) returns (ok: bool)
      requires Valid()
      modifies this
      ensures Valid()
      ensures ok <==> IsScore(score)
      ensures scores == old(scores) + if ok then [score] else []
      ensures !ok ==> counts == old(counts) && games == old(games) && first == old(first)
    {
      if !(score == 0.0 || score == 0.5 || score == 1.0) {
        return false;
      }
      games := games + 1;
      match first {
        case None =>
          first := Some(score);
          SameCompletePairs(scores, score);
        case Some(opening) =>
          var bin := Bin(opening, score);
          counts := Bump(counts, bin);
          first := None;
          OnePairMore(scores, score);
      }
      scores := scores + [score];
      ok := true;
    }

    /**
     `decision`: undecided inside a pair; otherwise the verdict on the likelihood ratio, which depends
     on the scores only through their pair histogram, and always final at the maximum.
     */
    method Decide() returns (decision: Decision)
      requires Valid()
      modifies this`llr, this`crossed
      ensures Valid()
      ensures decision == Verdict(games, llr, minimum, maximum, lower, upper)
      ensures games >= maximum && games % 2 == 0 ==> decision != Undecided
      ensures decision == Accepted ==> games >= minimum && llr >= upper && crossed
      ensures games % 2 == 0 && games >= minimum && llr >= upper ==> decision == Accepted
      ensures decision == Rejected ==> games >= maximum || (games >= minimum && llr <= lower)
      ensures games % 2 == 0 && games >= minimum && llr <= lower && llr < upper ==> decision == Rejected
      ensures games % 2 == 0 ==> llr == Ratio(ln, counts, p0, p1)
      ensures games < 2 * PAIR_LIMIT ==>
        NearRoot(counts, p0, Multiplier(counts, p0)) && NearRoot(counts, p1, Multiplier(counts, p1))
      ensures games % 2 == 1 ==> llr == old(llr)
      ensures crossed == (old(crossed) || (games % 2 == 0 && games >= minimum && (llr >= upper || llr <= lower)))
    {
      if games < 2 * PAIR_LIMIT {
        MultiplierNearRoot(counts, p0);
        MultiplierNearRoot(counts, p1);
      }
      if first.Some? {
        return Undecided;
      }
      var high := PairedLogLikelihood(ln, counts, p1);
      var low := PairedLogLikelihood(ln, counts, p0);
      llr := high - low;
      if games >= minimum {
        if llr >= upper {
          crossed := true;
          return Accepted;
        }
        if llr <= lower {
          crossed := true;
          return Rejected;
        }
      }
      decision := if games >= maximum then Rejected else Undecided;
    }
  }

  lemma SameCompletePairs(scores: seq<real>, score: real)
    requires AreScores(scores) && IsScore(score) && |scores| % 2 == 0
    ensures Histogram(scores + [score]) == Histogram(scores)
  {
    assert PairBins(scores + [score]) == PairBins(scores);
  }

  lemma OnePairMore(scores: seq<real>, score: real)
    requires AreScores(scores) && IsScore(score) && |scores| % 2 == 1
    ensures Histogram(scores + [score]) == Bump(Histogram(scores), Bin(scores[|scores| - 1], score))
  {
    var bin := Bin(scores[|scores| - 1], score);
    assert PairBins(scores + [score]) == PairBins(scores) + [bin];
    assert (PairBins(scores) + [bin])[..|scores| / 2] == PairBins(scores);
  }
}
