/**
 Policies over the seven columns: masking, softmax and temperature from `cpp/src/mcts.cpp`. Reals
 stand for floats; the exponential and the power are function parameters, and a logit is a real or
 negative infinity.
 */
module Policies {
  import opened Board

  type Policy = s: seq<real> | |s| == COLS witness [0.0, 0.0, 0.0, 0.0, 0.0, 0.0, 0.0]

  datatype Logit = NegInf | Finite(value: real)

  type Logits = s: seq<Logit> | |s| == COLS
    witness [NegInf, NegInf, NegInf, NegInf, NegInf, NegInf, NegInf]

  const SEVENTH := 1.0 / 7.0
  const UNIFORM: Policy := [SEVENTH, SEVENTH, SEVENTH, SEVENTH, SEVENTH, SEVENTH, SEVENTH]
  const ZEROS: Policy := [0.0, 0.0, 0.0, 0.0, 0.0, 0.0, 0.0]

  function Total(p: Policy): real {
    p[0] + p[1] + p[2] + p[3] + p[4] + p[5] + p[6]
  }

  predicate AllEqual<T(==)>(s: seq<T>)
    requires |s| == COLS
  {
    forall c :: 1 <= c < COLS ==> s[c] == s[0]
  }

  predicate NonNegative(p: Policy) {
    forall c :: 0 <= c < COLS ==> p[c] >= 0.0
  }

  predicate SomePositive(p: Policy) {
    exists c :: 0 <= c < COLS && p[c] > 0.0
  }

  lemma TotalPositive(p: Policy)
    requires NonNegative(p)
    ensures Total(p) > 0.0 <==> SomePositive(p)
  {
    if Total(p) > 0.0 {
      assert p[0] > 0.0 || p[1] > 0.0 || p[2] > 0.0 || p[3] > 0.0 || p[4] > 0.0 || p[5] > 0.0 || p[6] > 0.0;
    }
  }

  // ----- masking --------------------------------------------------------------------------------

  /** The legal columns. */
  function LegalColumns(g: Grid): set<nat> {
    set c: nat | c < COLS && Legal(g, c)
  }

  /** `Position::mask_policy`: an illegal column gets logit minus infinity. */
  function MaskLogits(logits: Logits, legal: set<nat>): Logits {
    seq(COLS, c requires 0 <= c < COLS => if c in legal then logits[c] else NegInf)
  }

  /** The masking of `make_random_move`: an illegal column gets probability zero. */
  function MaskPolicy(p: Policy, legal: set<nat>): Policy {
    seq(COLS, c requires 0 <= c < COLS => if c in legal then p[c] else 0.0)
  }

  // ----- softmax --------------------------------------------------------------------------------

  /** The largest finite logit among the first `n`. */
  function Maximum(logits: Logits, n: nat): (m: Option<real>)
    requires n <= COLS
    ensures m.None? <==> forall c :: 0 <= c < n ==> logits[c] == NegInf
    ensures m.Some? ==> forall c :: 0 <= c < n && logits[c].Finite? ==> logits[c].value <= m.value
    ensures m.Some? ==> exists c :: 0 <= c < n && logits[c] == Finite(m.value)
  {
    if n == 0 then None
    else
      var before := Maximum(logits, n - 1);
      match logits[n - 1]
      case NegInf => before
      case Finite(v) =>
        assert logits[n - 1] == Finite(v);
        if before.None? || before.value <= v then Some(v) else before
  }

  /** `exp(value - maximum)`, where the exponential of minus infinity is zero. */
  function Weight(exp: real -> real, logit: Logit, maximum: real): real {
    match logit case NegInf => 0.0 case Finite(v) => exp(v - maximum)
  }

  function Weights(exp: real -> real, logits: Logits, maximum: real): Policy {
    seq(COLS, c requires 0 <= c < COLS => Weight(exp, logits[c], maximum))
  }

  function Scaled(p: Policy, total: real): Policy
    requires total > 0.0
  {
    seq(COLS, c requires 0 <= c < COLS => p[c] / total)
  }

  /** The general path of softmax. */
  function Normalised(exp: real -> real, logits: Logits, maximum: real): Option<Policy> {
    var weights := Weights(exp, logits, maximum);
    if Total(weights) > 0.0 then Some(Scaled(weights, Total(weights))) else None
  }

  /** `softmax`; `None` is the exception. */
  function Softmax(exp: real -> real, logits: Logits): Option<Policy> {
    match Maximum(logits, COLS)
    case None => None
    case Some(maximum) => if AllEqual(logits) then Some(UNIFORM) else Normalised(exp, logits, maximum)
  }

  method ComputeSoftmax(exp: real -> real, logits: Logits) returns (policy: Option<Policy>)
    ensures policy == Softmax(exp, logits)
  {
    var maximum: Option<real> := None;
    for c := 0 to COLS
      invariant maximum == Maximum(logits, c)
    {
      match logits[c] {
        case NegInf =>
        case Finite(v) =>
          if maximum.None? || maximum.value <= v {
            maximum := Some(v);
          }
      }
    }
    if maximum.None? {
      return None;
    }
    if AllEqual(logits) {
      return Some(UNIFORM);
    }
    var weights: seq<real> := [];
    for c := 0 to COLS
      invariant weights == Weights(exp, logits, maximum.value)[..c]
    {
      weights := weights + [Weight(exp, logits[c], maximum.value)];
    }
    assert weights == Weights(exp, logits, maximum.value);
    var total := Total(weights);
    policy := if total > 0.0 then Some(Scaled(weights, total)) else None;
  }

  ghost predicate IsExp(exp: real -> real) {
    exp(0.0) == 1.0 && forall x :: exp(x) > 0.0
  }

  /** The early return for equal logits is what the general path computes. */
  lemma UniformShortcut(exp: real -> real, logits: Logits)
    requires IsExp(exp) && AllEqual(logits) && Maximum(logits, COLS).Some?
    ensures Normalised(exp, logits, Maximum(logits, COLS).value) == Some(UNIFORM)
  {
    var maximum := Maximum(logits, COLS).value;
    var c :| 0 <= c < COLS && logits[c] == Finite(maximum);
    assert forall k :: 0 <= k < COLS ==> logits[k] == Finite(maximum);
    assert Weights(exp, logits, maximum) == [1.0, 1.0, 1.0, 1.0, 1.0, 1.0, 1.0];
    assert Normalised(exp, logits, maximum).value == UNIFORM;
  }

  lemma ScaledShare(p: Policy, total: real)
    requires NonNegative(p) && total > 0.0
    ensures NonNegative(Scaled(p, total))
    ensures forall c :: 0 <= c < COLS ==> (Scaled(p, total)[c] > 0.0 <==> p[c] > 0.0)
  {
    forall c | 0 <= c < COLS
      ensures Scaled(p, total)[c] >= 0.0 && (Scaled(p, total)[c] > 0.0 <==> p[c] > 0.0)
    {
      ShareSign(p[c], total);
    }
  }

  lemma ShareSign(x: real, total: real)
    requires x >= 0.0 && total > 0.0
    ensures x / total >= 0.0 && (x / total > 0.0 <==> x > 0.0)
  {
  }

  /** Softmax fails only without a finite logit; its support is exactly the finite logits. */
  lemma SoftmaxSupport(exp: real -> real, logits: Logits)
    requires IsExp(exp)
    ensures Softmax(exp, logits).None? <==> forall c :: 0 <= c < COLS ==> logits[c] == NegInf
    ensures Softmax(exp, logits).Some? ==>
      forall c :: 0 <= c < COLS ==>
        Softmax(exp, logits).value[c] >= 0.0
        && (Softmax(exp, logits).value[c] > 0.0 <==> logits[c].Finite?)
  {
    var maximum := Maximum(logits, COLS);
    if maximum.Some? {
      var weights := Weights(exp, logits, maximum.value);
      var top :| 0 <= top < COLS && logits[top] == Finite(maximum.value);
      assert weights[top] > 0.0;
      TotalPositive(weights);
      ScaledShare(weights, Total(weights));
    }
  }

  lemma SharesTotal(a: real, b: real, c: real, d: real, e: real, f: real, g: real, total: real)
    requires total > 0.0 && total == a + b + c + d + e + f + g
    ensures a / total + b / total + c / total + d / total + e / total + f / total + g / total == 1.0
  {
  }

  lemma ScaledTotal(p: Policy)
    requires Total(p) > 0.0
    ensures Total(Scaled(p, Total(p))) == 1.0
  {
    SharesTotal(p[0], p[1], p[2], p[3], p[4], p[5], p[6], Total(p));
  }

  lemma ShareOrder(x: real, y: real, total: real)
    requires x < y && total > 0.0
    ensures x / total < y / total
  {
    assert (y - x) / total > 0.0;
  }

  ghost predicate Increasing(exp: real -> real) {
    forall x, y :: x < y ==> exp(x) < exp(y)
  }

  /** Softmax is a distribution and keeps the order of the logits. */
  lemma SoftmaxIsDistribution(exp: real -> real, logits: Logits, i: nat, j: nat)
    requires IsExp(exp) && Increasing(exp) && Softmax(exp, logits).Some? && i < COLS && j < COLS
    ensures Total(Softmax(exp, logits).value) == 1.0
    ensures logits[i].Finite? && logits[j].Finite? && logits[i].value < logits[j].value ==>
      Softmax(exp, logits).value[i] < Softmax(exp, logits).value[j]
  {
    if !AllEqual(logits) {
      var maximum := Maximum(logits, COLS).value;
      var weights := Weights(exp, logits, maximum);
      SoftmaxSupport(exp, logits);
      ScaledTotal(weights);
      if logits[i].Finite? && logits[j].Finite? && logits[i].value < logits[j].value {
        assert weights[i] < weights[j];
        ShareOrder(weights[i], weights[j], Total(weights));
      }
    } else {
      assert logits[i] == logits[0] && logits[j] == logits[0];
    }
  }

  // ----- temperature ----------------------------------------------------------------------------

  function Largest(p: Policy): (m: real)
    ensures forall c :: 0 <= c < COLS ==> p[c] <= m
    ensures exists c :: 0 <= c < COLS && p[c] == m
  {
    var a := if p[0] < p[1] then p[1] else p[0];
    var b := if a < p[2] then p[2] else a;
    var c := if b < p[3] then p[3] else b;
    var d := if c < p[4] then p[4] else c;
    var e := if d < p[5] then p[5] else d;
    if e < p[6] then p[6] else e
  }

  /** The indicator of the largest entries. */
  function Peaks(p: Policy): Policy {
    seq(COLS, c requires 0 <= c < COLS => if p[c] == Largest(p) then 1.0 else 0.0)
  }

  function Powers(pow: (real, real) -> real, p: Policy, exponent: real): Policy {
    seq(COLS, c requires 0 <= c < COLS => pow(p[c], exponent))
  }

  function Clamp(x: real): real {
    if x < 0.0 then 0.0 else if x > 1.0 then 1.0 else x
  }

  function Clamped(p: Policy): Policy {
    seq(COLS, c requires 0 <= c < COLS => Clamp(p[c]))
  }

  /** `apply_temperature`; `None` is the exception. */
  function ApplyTemperature(pow: (real, real) -> real, p: Policy, temperature: real): Option<Policy> {
    if temperature < 0.0 || !NonNegative(p) then None
    else if temperature == 1.0 || AllEqual(p) then Some(p)
    else if temperature == 0.0 then
      PeaksPositive(p);
      Some(Scaled(Peaks(p), Total(Peaks(p))))
    else
      var powers := Powers(pow, p, 1.0 / temperature);
      if Total(powers) > 0.0 then Some(Clamped(Scaled(powers, Total(powers)))) else None
  }

  lemma PeaksPositive(p: Policy)
    ensures NonNegative(Peaks(p)) && SomePositive(Peaks(p)) && Total(Peaks(p)) > 0.0
  {
    var c :| 0 <= c < COLS && p[c] == Largest(p);
    assert Peaks(p)[c] > 0.0;
    TotalPositive(Peaks(p));
  }

  method ComputeTemperature(pow: (real, real) -> real, p: Policy, temperature: real)
    returns (policy: Option<Policy>)
    ensures policy == ApplyTemperature(pow, p, temperature)
  {
    if temperature < 0.0 || !NonNegative(p) {
      return None;
    }
    if temperature == 1.0 || AllEqual(p) {
      return Some(p);
    }
    var result: seq<real> := [];
    if temperature == 0.0 {
      var maximum := Largest(p);
      for c := 0 to COLS
        invariant result == Peaks(p)[..c]
      {
        result := result + [if p[c] == maximum then 1.0 else 0.0];
      }
      PeaksPositive(p);
      assert result == Peaks(p);
      return Some(Scaled(result, Total(result)));
    }
    for c := 0 to COLS
      invariant result == Powers(pow, p, 1.0 / temperature)[..c]
    {
      result := result + [pow(p[c], 1.0 / temperature)];
    }
    assert result == Powers(pow, p, 1.0 / temperature);
    policy := if Total(result) > 0.0 then Some(Clamped(Scaled(result, Total(result)))) else None;
  }

  /** The facts used about the power function with a positive exponent. */
  ghost predicate IsPow(pow: (real, real) -> real) {
    && (forall y :: y > 0.0 ==> pow(0.0, y) == 0.0)
    && (forall x, y :: x > 0.0 && y > 0.0 ==> pow(x, y) > 0.0)
  }

  /**
   At every temperature a policy with some weight stays one, and no weight appears on a column that
   had none; at zero exactly the most probable columns keep weight.
   */
  lemma TemperatureSupport(pow: (real, real) -> real, p: Policy, temperature: real)
    requires IsPow(pow) && temperature >= 0.0 && NonNegative(p) && SomePositive(p)
    ensures ApplyTemperature(pow, p, temperature).Some?
    ensures var r := ApplyTemperature(pow, p, temperature).value;
            && NonNegative(r) && SomePositive(r)
            && (forall c :: 0 <= c < COLS && r[c] > 0.0 ==> p[c] > 0.0)
            && (temperature == 0.0 ==> forall c :: 0 <= c < COLS ==> (r[c] > 0.0 <==> p[c] == Largest(p)))
  {
    if AllEqual(p) {
      AllEqualLargest(p);
    } else if temperature == 1.0 {
    } else if temperature == 0.0 {
      var q :| 0 <= q < COLS && p[q] > 0.0;
      assert Largest(p) > 0.0;
      PeaksPositive(p);
      ScaledShare(Peaks(p), Total(Peaks(p)));
      var c :| 0 <= c < COLS && Peaks(p)[c] > 0.0;
      assert Scaled(Peaks(p), Total(Peaks(p)))[c] > 0.0;
    } else {
      PowersSupport(pow, p, 1.0 / temperature);
    }
  }

  lemma AllEqualLargest(p: Policy)
    requires AllEqual(p)
    ensures forall c :: 0 <= c < COLS ==> p[c] == Largest(p) == p[0]
  {
    var top :| 0 <= top < COLS && p[top] == Largest(p);
    assert p[top] == p[0];
  }

  lemma PowersSupport(pow: (real, real) -> real, p: Policy, exponent: real)
    requires IsPow(pow) && exponent > 0.0 && NonNegative(p) && SomePositive(p)
    ensures Total(Powers(pow, p, exponent)) > 0.0
    ensures var r := Clamped(Scaled(Powers(pow, p, exponent), Total(Powers(pow, p, exponent))));
            NonNegative(r) && SomePositive(r) && forall c :: 0 <= c < COLS && r[c] > 0.0 ==> p[c] > 0.0
  {
    var powers := Powers(pow, p, exponent);
    assert forall c :: 0 <= c < COLS ==> powers[c] >= 0.0 && (powers[c] > 0.0 <==> p[c] > 0.0);
    var c :| 0 <= c < COLS && p[c] > 0.0;
    assert powers[c] > 0.0;
    TotalPositive(powers);
    ScaledShare(powers, Total(powers));
    assert Clamped(Scaled(powers, Total(powers)))[c] > 0.0;
  }
}
