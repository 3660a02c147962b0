/**
 The shape of policies: what softmax, temperature and root noise do to the odds of two columns, and which
 column a move at temperature zero plays.
 */
module PolicyShape {
  import opened Board
  import opened Policies
  import opened SearchTree
  import opened Games
  import opened SelfPlayGames
  import Rng

  /** Named operations keep the solver's reasoning about them by congruence. */
  function Times(x: real, y: real): real {
    x * y
  }

  lemma QuotientTimes(x: real, d: real)
    requires d > 0.0
    ensures Times(x / d, d) == x
  {
  }

  /** Dividing two numbers by the same total keeps their odds. */
  lemma SameOdds(x: real, y: real, total: real, u: real, v: real)
    requires total > 0.0
    ensures Times(x, v) > Times(y, u) <==> Times(x / total, v) > Times(y / total, u)
    ensures Times(x, v) == Times(y, u) ==> Times(x / total, v) == Times(y / total, u)
  {
    var p, q := x / total, y / total;
    QuotientTimes(x, total);
    QuotientTimes(y, total);
    assert x * v == total * (p * v) && y * u == total * (q * u);
    CancelTotal(p * v, q * u, total);
  }

  lemma CancelTotal(a: real, b: real, total: real)
    requires total > 0.0
    ensures Times(total, a) > Times(total, b) <==> a > b
    ensures Times(total, a) == Times(total, b) ==> a == b
  {
    if a > b {
      assert total * (a - b) > 0.0;
    } else if a < b {
      assert total * (b - a) > 0.0;
    }
  }

  // ----- softmax ------------------------------------------------------------------------------------

  ghost predicate IsExponential(exp: real -> real) {
    IsExp(exp) && forall x: real, y: real :: exp(x + y) == Times(exp(x), exp(y))
  }

  /** The odds of two columns are the exponential of the difference of their logits. */
  lemma SoftmaxOdds(exp: real -> real, logits: Logits, i: nat, j: nat)
    requires IsExponential(exp) && Softmax(exp, logits).Some? && i < COLS && j < COLS
    requires logits[i].Finite? && logits[j].Finite?
    ensures var p := Softmax(exp, logits).value;
            p[i] == Times(p[j], exp(logits[i].value - logits[j].value))
  {
    var x, y := logits[i].value, logits[j].value;
    if AllEqual(logits) {
      assert logits[i] == logits[0] && logits[j] == logits[0];
      assert x - y == 0.0;
    } else {
      var maximum := Maximum(logits, COLS).value;
      var weights := Weights(exp, logits, maximum);
      assert (x - maximum) == (y - maximum) + (x - y);
      assert exp(x - maximum) == Times(exp(y - maximum), exp(x - y));
      assert weights[i] == Times(weights[j], exp(x - y));
      SameOdds(weights[i], weights[j], Total(weights), exp(x - y), 1.0);
    }
  }

  // ----- temperature --------------------------------------------------------------------------------

  /** Powers are multiplicative, a power above one enlarges what exceeds 1, and one below shrinks it. */
  ghost predicate IsPower(pow: (real, real) -> real) {
    && IsPow(pow)
    && (forall x: real, y: real, a: real :: x > 0.0 && y > 0.0 ==> pow(Times(x, y), a) == Times(pow(x, a), pow(y, a)))
    && (forall x: real, a: real :: x > 1.0 && a > 1.0 ==> pow(x, a) > x)
    && (forall x: real, a: real :: x > 1.0 && 0.0 < a < 1.0 ==> 1.0 < pow(x, a) < x)
  }

  ghost predicate Squares(pow: (real, real) -> real) {
    forall x: real :: pow(x, 2.0) == Times(x, x)
  }

  lemma Above(x: real, y: real)
    requires x > y > 0.0
    ensures x / y > 1.0 && Times(x / y, y) == x
  {
    QuotientTimes(x, y);
    ScaleOrder(x / y, 1.0, y);
  }

  lemma ScaleOrder(x: real, y: real, d: real)
    requires d > 0.0
    ensures x > y <==> Times(x, d) > Times(y, d)
  {
    if x > y {
      assert (x - y) * d > 0.0;
    } else {
      assert (y - x) * d >= 0.0;
    }
  }

  lemma PowerOdds(pow: (real, real) -> real, x: real, y: real, a: real)
    requires IsPower(pow) && x > y > 0.0 && a > 0.0
    ensures pow(x, a) > 0.0 && pow(y, a) > 0.0
    ensures a > 1.0 ==> Times(pow(x, a), y) > Times(pow(y, a), x)
    ensures a < 1.0 ==> Times(pow(x, a), y) < Times(pow(y, a), x) && pow(x, a) > pow(y, a)
  {
    Above(x, y);
    var t, q := x / y, pow(y, a);
    var qy := q * y;
    assert pow(x, a) == Times(pow(t, a), q);
    assert Times(pow(x, a), y) == Times(pow(t, a), qy);
    assert Times(q, x) == Times(t, qy) by {
      assert q * (t * y) == t * (q * y);
    }
    assert qy > 0.0;
    ScaleOrder(pow(t, a), t, qy);
    ScaleOrder(t, pow(t, a), qy);
    ScaleOrder(pow(t, a), 1.0, q);
  }

  lemma ShareAtMostOne(p: Policy, c: nat)
    requires NonNegative(p) && Total(p) > 0.0 && c < COLS
    ensures 0.0 <= p[c] / Total(p) <= 1.0
  {
    ShareSign(p[c], Total(p));
    QuotientTimes(p[c], Total(p));
    ScaleOrder(p[c] / Total(p), 1.0, Total(p));
  }

  /** Away from the special cases a tempered policy is the powers, divided by their sum; clamping changes nothing. */
  lemma TemperedIs(pow: (real, real) -> real, p: Policy, temperature: real, c: nat)
    requires IsPow(pow) && temperature > 0.0 && temperature != 1.0 && c < COLS
    requires NonNegative(p) && SomePositive(p) && !AllEqual(p)
    ensures var powers := Powers(pow, p, 1.0 / temperature);
            && NonNegative(powers) && Total(powers) > 0.0 && ApplyTemperature(pow, p, temperature).Some?
            && ApplyTemperature(pow, p, temperature).value[c] == powers[c] / Total(powers)
  {
    var exponent := 1.0 / temperature;
    QuotientTimes(1.0, temperature);
    assert exponent > 0.0;
    var powers := Powers(pow, p, exponent);
    PowersSupport(pow, p, exponent);
    forall k | 0 <= k < COLS ensures powers[k] >= 0.0 {
    }
    ShareAtMostOne(powers, c);
  }

  /** Temperature below one sharpens the odds of two columns; above one it flattens them but keeps the order. */
  lemma TemperatureSharpens(pow: (real, real) -> real, p: Policy, temperature: real, i: nat, j: nat)
    requires IsPower(pow) && temperature > 0.0 && NonNegative(p) && i < COLS && j < COLS && p[i] > p[j] > 0.0
    ensures ApplyTemperature(pow, p, temperature).Some?
    ensures var r := ApplyTemperature(pow, p, temperature).value;
            && (temperature < 1.0 ==> Times(r[i], p[j]) > Times(r[j], p[i]))
            && (temperature > 1.0 ==> Times(r[i], p[j]) < Times(r[j], p[i]) && r[i] > r[j])
            && (temperature == 1.0 ==> r == p)
  {
    if temperature != 1.0 {
      assert !AllEqual(p) by { assert p[i] != p[j]; }
      TemperedIs(pow, p, temperature, i);
      TemperedIs(pow, p, temperature, j);
      var a := 1.0 / temperature;
      var powers := Powers(pow, p, a);
      ExponentSide(temperature);
      PowerOdds(pow, p[i], p[j], a);
      SameOdds(powers[i], powers[j], Total(powers), p[i], p[j]);
      SameOdds(powers[j], powers[i], Total(powers), p[j], p[i]);
      SameOdds(powers[i], powers[j], Total(powers), 1.0, 1.0);
    }
  }

  lemma ExponentSide(temperature: real)
    requires temperature > 0.0
    ensures 1.0 / temperature > 0.0
    ensures temperature < 1.0 ==> 1.0 / temperature > 1.0
    ensures temperature > 1.0 ==> 1.0 / temperature < 1.0
  {
    QuotientTimes(1.0, temperature);
  }

  lemma Exchange(x: real, y: real)
    ensures Times(x, y) == Times(y, x)
  {
  }

  lemma SquaredOdds(a: real, b: real, x: real, y: real, total: real)
    requires total > 0.0 && a == x / total && b == y / total
    ensures Times(a, y) == Times(b, x)
  {
    Exchange(x, y);
    SameOdds(x, y, total, x, y);
  }

  lemma PowerIsSquare(pow: (real, real) -> real, p: Policy, c: nat)
    requires Squares(pow) && c < COLS
    ensures Powers(pow, p, 1.0 / 0.5)[c] == Times(p[c], p[c])
  {
    assert 1.0 / 0.5 == 2.0;
  }

  /** Temperature one half squares the odds. */
  lemma HalfTemperatureSquares(pow: (real, real) -> real, p: Policy, i: nat, j: nat)
    requires IsPow(pow) && Squares(pow) && NonNegative(p) && SomePositive(p) && !AllEqual(p) && i < COLS && j < COLS
    ensures ApplyTemperature(pow, p, 0.5).Some?
    ensures var r := ApplyTemperature(pow, p, 0.5).value;
            Times(r[i], Times(p[j], p[j])) == Times(r[j], Times(p[i], p[i]))
  {
    var r, powers := ApplyTemperature(pow, p, 0.5).value, Powers(pow, p, 1.0 / 0.5);
    TemperedIs(pow, p, 0.5, i);
    TemperedIs(pow, p, 0.5, j);
    SquaredOdds(r[i], r[j], powers[i], powers[j], Total(powers));
    PowerIsSquare(pow, p, i);
    PowerIsSquare(pow, p, j);
  }

  // ----- root noise ---------------------------------------------------------------------------------

  /** Noise moves each legal prior the fraction `epsilon` of the way to the draw; at 1 it replaces it. */
  lemma NoiseMovesPriors(p: Policy, legal: set<nat>, noise: Noise, c: nat)
    requires MixNoise(p, legal, noise).Some? && c < COLS
    ensures var m := MixNoise(p, legal, noise).value;
            && (c in legal ==> m[c] - p[c] == Times(noise.epsilon, noise.draw[c] - p[c]))
            && (c in legal && noise.epsilon == 1.0 ==> m[c] == noise.draw[c])
            && (c !in legal ==> m[c] == p[c])
  {
  }

  /** At the root the first evaluation gives softmax priors, moved by the noise. */
  lemma RootTakesNoise(prm: Params, eval: Grid -> Evaluation, g: Game, noise: Noise, h: Game, before: Policy, c: nat)
    requires Inv(eval, prm.plyPenalty, g) && Sound(g) && g.leaf == g.root && TerminalState(LeafPosition(g)).None?
    requires noise.epsilon > 0.0 && Receive(prm, g, eval(LeafPosition(g)), noise) == Some(h)
    requires Softmax(prm.exp, MaskLogits(eval(LeafPosition(g)).policy, LegalColumns(LeafPosition(g)))) == Some(before)
    requires Legal(LeafPosition(g), c)
    ensures h.root == g.root && g.root in h.nodes && h.nodes[g.root].expanded
    ensures h.nodes[g.root].priors[c] - before[c] == Times(noise.epsilon, noise.draw[c] - before[c])
  {
    var e := eval(LeafPosition(g));
    var update := LeafUpdate(prm, LeafPosition(g), true, e, noise).value;
    UpdatedTree(prm, eval, g, noise, update);
    var t := Updated(g.nodes, g.leaf, update);
    ShapeShallow(g.start, g.root, t);
    ReselectedTree(prm, eval, g.start, g.root, t, g.moves);
    assert t[g.leaf].priors == ExpandNode(g.nodes[g.leaf], update.policy).priors;
    NoiseMovesPriors(before, LegalColumns(LeafPosition(g)), noise, c);
  }

  // ----- moves at temperature zero --------------------------------------------------------------------

  /** No legal column has more visits than `col`. */
  ghost predicate MostVisited(g: Game, col: nat)
    requires Sound(g)
  {
    && Legal(RootPosition(g), col)
    && forall c: nat :: Legal(RootPosition(g), c) ==>
         ChildVisits(g.nodes, g.root, c) <= ChildVisits(g.nodes, g.root, col)
  }

  lemma ColdColumn(pow: (real, real) -> real, p: Policy, uniform: Rng.Uniform)
    requires IsPow(pow) && NonNegative(p) && SomePositive(p)
    ensures ApplyTemperature(pow, p, 0.0).Some?
    ensures var col := Rng.Sampled(ApplyTemperature(pow, p, 0.0).value, uniform);
            col.Some? && col.value < COLS && p[col.value] == Largest(p)
  {
    TemperatureSupport(pow, p, 0.0);
    var r := ApplyTemperature(pow, p, 0.0).value;
    assert !Rng.Unsampleable(r);
  }

  lemma NoVisits(t: Tree, p: Path, col: nat)
    requires VisitSum(t, p) == 0 && col < COLS
    ensures ChildVisits(t, p, col) == 0
  {
  }

  /** A larger share is a larger number of visits. */
  lemma MoreVisits(g: Game, c: nat, col: nat)
    requires Sound(g) && g.nodes[g.root].expanded && c < COLS && col < COLS && RootPolicy(g)[c] <= RootPolicy(g)[col]
    ensures ChildVisits(g.nodes, g.root, c) <= ChildVisits(g.nodes, g.root, col)
  {
    if VisitSum(g.nodes, g.root) == 0 {
      NoVisits(g.nodes, g.root, c);
    } else {
      VisitShareOrder(g.nodes, g.root, col, c);
    }
  }

  /** At temperature zero the column drawn is a legal one with the most visits, whatever the draw. */
  lemma ColdMoveIsMostVisited(prm: Params, eval: Grid -> Evaluation, g: Game, uniform: Rng.Uniform)
    requires IsPow(prm.pow) && Inv(eval, prm.plyPenalty, g) && Sound(g) && g.nodes[g.root].expanded
    ensures var col := RandomColumn(prm, RootPolicy(g), RootPosition(g), 0.0, uniform);
            col.Some? && MostVisited(g, col.value)
  {
    var masked := MaskPolicy(RootPolicy(g), LegalColumns(RootPosition(g)));
    MaskedPolicyPositive(eval, prm.plyPenalty, g);
    ColdColumn(prm.pow, masked, uniform);
    RandomColumnLegal(prm, RootPolicy(g), RootPosition(g), 0.0, uniform);
    var col := RandomColumn(prm, RootPolicy(g), RootPosition(g), 0.0, uniform).value;
    forall c: nat | Legal(RootPosition(g), c)
      ensures ChildVisits(g.nodes, g.root, c) <= ChildVisits(g.nodes, g.root, col)
    {
      assert masked[c] <= masked[col];
      MoreVisits(g, c, col);
    }
  }

  /** The temperature of this phase is zero: early before the midpoint, late from the cutoff on. */
  predicate ColdAt(o: Options, ply: nat) {
    || (ply < o.midpoint && o.early == 0.0)
    || (o.midpoint <= ply < o.cutoff && o.middle == 0.0)
    || (ply >= o.cutoff && o.late == 0.0)
  }

  /** Self-play moves are most visited ones in every phase whose temperature is zero. */
  lemma ColdPhases(o: Options, eval: Grid -> Evaluation, meta: Metadata, g: Game)
    requires ValidOptions(o) && Inv(eval, o.prm.plyPenalty, g) && Sound(g) && g.nodes[g.root].expanded
    requires ColdAt(o, Ply(RootPosition(g)))
    ensures PlayedColumn(o, meta, g).Some? && MostVisited(g, PlayedColumn(o, meta, g).value)
  {
    ColdMoveIsMostVisited(o.prm, eval, g, o.uniform(meta.id, Ply(RootPosition(g))));
  }

  /** Options that cool down do so over the whole game. */
  lemma TemperatureFalls(o: Options, p: nat, q: nat)
    requires o.midpoint <= o.cutoff && o.early >= o.middle >= o.late && p <= q
    ensures Temperature(o, p) >= Temperature(o, q)
    ensures p < o.midpoint <= q && o.early > o.middle ==> Temperature(o, p) > Temperature(o, q)
    ensures p < o.cutoff <= q && o.middle > o.late ==> Temperature(o, p) > Temperature(o, q)
  {
  }
}
