/**
 What leaf selection prefers, said on the fields of the nodes: the child whose position is worse for the
 opponent to move there, the more probable move, the less visited one. The search therefore never enters a
 column while an otherwise equal one is better for the player to move.
 */
module LeafSelection {
  import opened Board
  import opened Policies
  import opened SearchTree

  /** The facts used about the square root and the logarithm. */
  ghost predicate IsSqrt(sqrt: real -> real) {
    sqrt(0.0) == 0.0 && forall x: real, y: real :: 0.0 <= x < y ==> sqrt(x) < sqrt(y)
  }

  ghost predicate LogRises(ln: real -> real) {
    ln(1.0) == 0.0 && forall x: real, y: real :: 0.0 < x < y ==> ln(x) < ln(y)
  }

  ghost predicate ValidParams(prm: Params) {
    prm.c > 0.0 && IsSqrt(prm.sqrt) && LogRises(prm.ln)
  }

  predicate IsChild(t: Tree, p: Path, col: nat) {
    p in t && col < COLS && p + [col] in t
  }

  /** The child of column `col`. */
  function Child(t: Tree, p: Path, col: nat): Node
    requires IsChild(t, p, col)
  {
    t[p + [col]]
  }

  lemma SmallerShare(x: real, y: real, d: real)
    requires d > 0.0
    ensures x < y <==> x / d < y / d
    ensures x == y ==> x / d == y / d
  {
    var p, q := x / d, y / d;
    assert p * d == x && q * d == y;
    if p < q {
      assert (q - p) * d > 0.0;
    } else if p > q {
      assert (p - q) * d > 0.0;
    }
  }

  lemma ScaleLess(c: real, x: real, y: real)
    requires c > 0.0 && x < y
    ensures c * x < c * y
  {
    assert c * (y - x) > 0.0;
  }

  /**
   Two children with equal visits and priors: the larger score has the child with the smaller value sum, which
   is kept from the view of the player to move there.
   */
  lemma ValueDecides(prm: Params, t: Tree, p: Path, a: nat, b: nat)
    requires IsChild(t, p, a) && IsChild(t, p, b)
    requires Child(t, p, a).visits == Child(t, p, b).visits && Child(t, p, a).prior == Child(t, p, b).prior
    ensures Score(prm, t, p, a) > Score(prm, t, p, b) <==> Child(t, p, a).qPen < Child(t, p, b).qPen
  {
    SmallerShare(Child(t, p, a).qPen, Child(t, p, b).qPen, Child(t, p, a).visits as real + 1.0);
    SmallerShare(Child(t, p, b).qPen, Child(t, p, a).qPen, Child(t, p, a).visits as real + 1.0);
  }

  lemma QuotientGap(x: real, y: real, e: real, d: real)
    requires d > 0.0
    ensures ((-(x / d) + e) - (-(y / d) + e)) * d == y - x
  {
    var p, q := x / d, y / d;
    assert p * d == x && q * d == y;
    assert (q - p) * d == q * d - p * d;
  }

  /**
   Exactly: between two such children the scores differ by the difference of the value sums, spread over the
   visits and one more. So a value counts once, and an unvisited child as a visit of value zero.
   */
  lemma ValueGap(prm: Params, t: Tree, p: Path, a: nat, b: nat)
    requires IsChild(t, p, a) && IsChild(t, p, b)
    requires Child(t, p, a).visits == Child(t, p, b).visits && Child(t, p, a).prior == Child(t, p, b).prior
    ensures (Score(prm, t, p, a) - Score(prm, t, p, b)) * (Child(t, p, a).visits as real + 1.0)
         == Child(t, p, b).qPen - Child(t, p, a).qPen
  {
    QuotientGap(Child(t, p, a).qPen, Child(t, p, b).qPen,
                prm.c * Exploration(prm, Child(t, p, a), prm.ln(t[p].visits as real)),
                Child(t, p, a).visits as real + 1.0);
  }

  lemma {:induction false} DescendsBelow(prm: Params, t: Tree, p: Path)
    requires p in t && Shallow(t)
    ensures p <= Descend(prm, t, p)
    decreases CELLS - |p|
  {
    if t[p].expanded {
      match BestColumn(Scores(prm, t, p), t[p].legal, COLS) {
        case None =>
        case Some(col) =>
          if p + [col] in t {
            DescendsBelow(prm, t, p + [col]);
          }
      }
    }
  }

  /** The walk goes from an expanded node to a column whose score no legal column exceeds. */
  lemma EntersBest(prm: Params, t: Tree, p: Path, col: nat)
    requires p in t && Shallow(t) && t[p].expanded && p + [col] <= Descend(prm, t, p)
    ensures col < COLS && col in t[p].legal
    ensures forall other: nat :: other < COLS && other in t[p].legal ==>
      Score(prm, t, p, other) <= Score(prm, t, p, col)
  {
    var scores := Scores(prm, t, p);
    var best := BestColumn(scores, t[p].legal, COLS);
    assert |p + [col]| <= |Descend(prm, t, p)|;
    if p + [best.value] in t {
      DescendsBelow(prm, t, p + [best.value]);
    }
    var leaf := Descend(prm, t, p);
    assert leaf[|p|] == (p + [col])[|p|] == col && leaf[|p|] == (p + [best.value])[|p|] == best.value;
    forall other: nat | other < COLS && other in t[p].legal
      ensures Score(prm, t, p, other) <= Score(prm, t, p, col)
    {
      assert scores[other] <= scores[best.value];
    }
  }

  lemma PrefixAt(a: Path, b: Path, leaf: Path)
    requires a <= leaf && b <= leaf && |a| <= |b|
    ensures a <= b
  {
    assert forall i :: 0 <= i < |a| ==> a[i] == leaf[i] == b[i];
  }

  /** The next node of the walk. */
  lemma NextOnWalk(prm: Params, t: Tree, p: Path, q: Path) returns (next: Path)
    requires p in t && q in t && Shallow(t) && p < q <= Descend(prm, t, p)
    ensures next in t && |next| == |p| + 1 && next <= q && Descend(prm, t, next) == Descend(prm, t, p)
  {
    var best := BestColumn(Scores(prm, t, p), t[p].legal, COLS);
    next := p + [best.value];
    var leaf := Descend(prm, t, p);
    assert q == leaf[..|q|] && leaf[..|leaf|] == leaf;
    if next in t {
      DescendsBelow(prm, t, next);
      PrefixAt(next, q, leaf);
    }
  }

  /** From a node on the walk the walk goes on as if it had started there. */
  lemma {:induction false} WalkThrough(prm: Params, t: Tree, p: Path, q: Path)
    requires p in t && q in t && Shallow(t) && p <= q <= Descend(prm, t, p)
    ensures Descend(prm, t, q) == Descend(prm, t, p)
    decreases |q| - |p|
  {
    if p != q {
      var next := NextOnWalk(prm, t, p, q);
      WalkThrough(prm, t, next, q);
    }
  }

  /**
   The walk from the root enters no column of any node while another, equally visited and probable, is better
   for the player to move there.
   */
  lemma AvoidsWorse(prm: Params, t: Tree, root: Path, p: Path, better: nat, worse: nat)
    requires Shallow(t) && root in t && root <= p && IsChild(t, p, better) && IsChild(t, p, worse)
    requires t[p].expanded && better in t[p].legal
    requires Child(t, p, better).visits == Child(t, p, worse).visits
    requires Child(t, p, better).prior == Child(t, p, worse).prior
    requires Child(t, p, better).qPen < Child(t, p, worse).qPen
    ensures !(p + [worse] <= Descend(prm, t, root))
  {
    ValueDecides(prm, t, p, better, worse);
    if p + [worse] <= Descend(prm, t, root) {
      assert p <= p + [worse];
      WalkThrough(prm, t, root, p);
      EntersBest(prm, t, p, worse);
    }
  }

  lemma LogVisits(prm: Params, visits: nat)
    requires ValidParams(prm) && visits > 0
    ensures prm.ln(visits as real) >= 0.0
    ensures visits > 1 ==> prm.ln(visits as real) > 0.0
  {
    if visits > 1 {
      assert prm.ln(1.0) < prm.ln(visits as real);
    }
  }

  lemma RootPositive(sqrt: real -> real, x: real)
    requires IsSqrt(sqrt) && x >= 0.0
    ensures sqrt(x) >= 0.0
    ensures x > 0.0 ==> sqrt(x) > 0.0
  {
    if x > 0.0 {
      assert sqrt(0.0) < sqrt(x);
    }
  }

  lemma PositiveShare(x: real, d: real)
    requires x > 0.0 && d > 0.0
    ensures x / d > 0.0
  {
    assert x / d * d == x;
  }

  /** With equal visits and values the more probable move scores higher, once its parent has been visited twice. */
  lemma PriorDecides(prm: Params, t: Tree, p: Path, a: nat, b: nat)
    requires ValidParams(prm) && IsChild(t, p, a) && IsChild(t, p, b) && t[p].visits > 1
    requires Child(t, p, a).visits == Child(t, p, b).visits && Child(t, p, a).qPen == Child(t, p, b).qPen
    requires Child(t, p, a).prior > Child(t, p, b).prior
    ensures Score(prm, t, p, a) > Score(prm, t, p, b)
  {
    var log, d := prm.ln(t[p].visits as real), Child(t, p, a).visits as real + 1.0;
    LogVisits(prm, t[p].visits);
    PositiveShare(log, d);
    RootPositive(prm.sqrt, log / d);
    ScaleLess(prm.sqrt(log / d), Child(t, p, b).prior + NODE_EPSILON, Child(t, p, a).prior + NODE_EPSILON);
    ScaleLess(prm.c, Exploration(prm, Child(t, p, b), log), Exploration(prm, Child(t, p, a), log));
  }

  lemma FewerIsMore(log: real, m: real, n: real)
    requires log > 0.0 && 0.0 < m < n
    ensures 0.0 < log / n < log / m
  {
    PositiveShare(log, n);
    var x := log / n;
    assert x * n == log;
    SmallerShare(x * m, log, m) by {
      ScaleLess(x, m, n);
    }
    assert x * m / m == x;
  }

  /** With equal mean values and priors the less visited move scores higher. */
  lemma VisitsDecide(prm: Params, t: Tree, p: Path, a: nat, b: nat)
    requires ValidParams(prm) && IsChild(t, p, a) && IsChild(t, p, b) && t[p].visits > 1
    requires Child(t, p, a).visits < Child(t, p, b).visits && QPenalty(Child(t, p, a)) == QPenalty(Child(t, p, b))
    requires Child(t, p, a).prior == Child(t, p, b).prior >= 0.0
    ensures Score(prm, t, p, a) > Score(prm, t, p, b)
  {
    var log := prm.ln(t[p].visits as real);
    var m, n := Child(t, p, a).visits as real + 1.0, Child(t, p, b).visits as real + 1.0;
    LogVisits(prm, t[p].visits);
    FewerIsMore(log, m, n);
    var weight := Child(t, p, a).prior + NODE_EPSILON;
    assert prm.sqrt(log / n) < prm.sqrt(log / m);
    ScaleLess(weight, prm.sqrt(log / n), prm.sqrt(log / m));
    assert Exploration(prm, Child(t, p, b), log) < Exploration(prm, Child(t, p, a), log);
    ScaleLess(prm.c, Exploration(prm, Child(t, p, b), log), Exploration(prm, Child(t, p, a), log));
  }

  /** A column without a node scores like one whose node has no visits: by the root of the parent's logarithm. */
  lemma UnvisitedPrior(prm: Params, t: Tree, p: Path, a: nat, b: nat)
    requires ValidParams(prm) && p in t && a < COLS && b < COLS && p + [a] !in t && p + [b] !in t && t[p].visits > 1
    requires t[p].priors[a] > t[p].priors[b]
    ensures Score(prm, t, p, a) > Score(prm, t, p, b)
  {
    var log := prm.ln(t[p].visits as real);
    LogVisits(prm, t[p].visits);
    RootPositive(prm.sqrt, log);
    ScaleLess(prm.sqrt(log), t[p].priors[b] + NODE_EPSILON, t[p].priors[a] + NODE_EPSILON);
    ScaleLess(prm.c, prm.sqrt(log) * (t[p].priors[b] + NODE_EPSILON), prm.sqrt(log) * (t[p].priors[a] + NODE_EPSILON));
  }
}
