/**
 Bounded sampling, the seeded shuffle and policy sampling of `cpp/src/rng.cpp`.

 The generator is a stream of 64-bit draws: an infinite run of the rejection loop is a stream that
 ends before an accepted draw. The theorems are about exactness: every residue has equally many
 accepted draws, and the shuffle's choice sequences are in bijection with the permutations.
 */
module Rng {
  import opened Board

  const TWO64 := 0x1_0000_0000_0000_0000

  type U64 = x: int | 0 <= x < TWO64

  /** `0 - bound` in 64-bit arithmetic. */
  function Negate(bound: U64): U64 {
    (TWO64 - bound) % TWO64
  }

  function Threshold(bound: U64): U64
    requires bound > 0
  {
    Negate(bound) % bound
  }

  /** The threshold is the remainder of the whole range, although that range is not a 64-bit word. */
  lemma ThresholdIsRemainder(bound: U64)
    requires bound > 0
    ensures Threshold(bound) == TWO64 % bound
    ensures Threshold(bound) < bound
    ensures (TWO64 - Threshold(bound)) % bound == 0
  {
    ModSubSelf(TWO64, bound);
    var q := TWO64 / bound;
    assert TWO64 - TWO64 % bound == q * bound;
    MulMod(q, bound);
  }

  lemma ModSubSelf(a: nat, b: nat)
    requires 0 < b <= a
    ensures (a - b) % b == a % b
  {
    var q := a / b;
    assert a - b == (q - 1) * b + a % b;
    ModUnique(a - b, q - 1, a % b, b);
  }

  lemma ModUnique(a: int, q: int, r: int, b: int)
    requires b > 0 && 0 <= r < b && a == q * b + r
    ensures a % b == r && a / b == q
  {
    var q' := a / b;
    var r' := a % b;
    assert a == q' * b + r';
    assert (q - q') * b == r' - r;
    if q > q' {
      MulAtLeast(q - q', b);
    } else if q < q' {
      MulAtLeast(q' - q, b);
    }
  }

  lemma MulAtLeast(k: int, b: int)
    requires k >= 1 && b > 0
    ensures k * b >= b
  {
  }

  lemma MulMod(q: int, b: int)
    requires b > 0
    ensures (q * b) % b == 0
  {
    ModUnique(q * b, q, 0, b);
  }

  /** Draws in [lo, hi) with residue `r`. */
  function CountResidue(lo: nat, hi: nat, bound: nat, r: nat): nat
    requires bound > 0
    decreases hi - lo
  {
    if lo >= hi then 0 else (if lo % bound == r then 1 else 0) + CountResidue(lo + 1, hi, bound, r)
  }

  lemma {:induction false} CountSplit(lo: nat, mid: nat, hi: nat, bound: nat, r: nat)
    requires bound > 0 && lo <= mid <= hi
    ensures CountResidue(lo, hi, bound, r) == CountResidue(lo, mid, bound, r) + CountResidue(mid, hi, bound, r)
    decreases mid - lo
  {
    if lo < mid {
      CountSplit(lo + 1, mid, hi, bound, r);
    }
  }

  lemma ModShift(base: nat, from: nat, bound: nat)
    requires bound > 0 && base % bound == 0 && from < bound
    ensures (base + from) % bound == from
  {
    assert base + from == (base / bound) * bound + from;
    ModUnique(base + from, base / bound, from, bound);
  }

  lemma NextBase(base: nat, bound: nat)
    requires bound > 0 && base % bound == 0
    ensures (base + bound) % bound == 0
  {
    assert base + bound == (base / bound + 1) * bound;
    MulMod(base / bound + 1, bound);
  }

  /** The window [base + from, base + bound), where `base` is a multiple of the bound. */
  lemma {:induction false} CountTail(base: nat, from: nat, bound: nat, r: nat)
    requires bound > 0 && base % bound == 0 && from <= bound && r < bound
    ensures CountResidue(base + from, base + bound, bound, r) == if from <= r then 1 else 0
    decreases bound - from
  {
    if from < bound {
      ModShift(base, from, bound);
      CountTail(base, from + 1, bound, r);
    }
  }

  /** One period starting at any point contains each residue once. */
  lemma CountPeriod(lo: nat, bound: nat, r: nat)
    requires bound > 0 && r < bound
    ensures CountResidue(lo, lo + bound, bound, r) == 1
  {
    var from := lo % bound;
    var base := lo - from;
    assert base == (lo / bound) * bound;
    MulMod(lo / bound, bound);
    var edge := base + bound;
    NextBase(base, bound);
    CountSplit(lo, edge, lo + bound, bound, r);
    CountTail(base, from, bound, r);
    CountTail(edge, 0, bound, r);
    CountTail(edge, from, bound, r);
    CountSplit(edge, edge + from, edge + bound, bound, r);
  }

  lemma {:induction false} CountPeriods(lo: nat, k: nat, bound: nat, r: nat)
    requires bound > 0 && r < bound
    ensures CountResidue(lo, lo + k * bound, bound, r) == k
    decreases k
  {
    if k > 0 {
      CountPeriods(lo, k - 1, bound, r);
      CountPeriod(lo + (k - 1) * bound, bound, r);
      assert lo + (k - 1) * bound + bound == lo + k * bound;
      assert (k - 1) * bound <= k * bound;
      CountSplit(lo, lo + (k - 1) * bound, lo + k * bound, bound, r);
    }
  }

  /**
   Unbiased: among the accepted draws (those not below the threshold) every residue occurs equally
   often, and more than half of all 2^64 draws are accepted.
   */
  lemma Unbiased(bound: U64, r: nat)
    requires bound > 0 && r < bound
    ensures CountResidue(Threshold(bound), TWO64, bound, r) == (TWO64 - Threshold(bound)) / bound
    ensures 2 * (TWO64 - Threshold(bound)) > TWO64
  {
    ThresholdIsRemainder(bound);
    var t := Threshold(bound);
    var k := (TWO64 - t) / bound;
    assert TWO64 - t == k * bound + (TWO64 - t) % bound;
    CountPeriods(t, k, bound, r);
    if 2 * bound <= TWO64 {
      assert 2 * t < TWO64;
    } else {
      ModUnique(TWO64, 1, TWO64 - bound, bound);
    }
  }

  /** `bounded_u64`: reject draws below the threshold. Returns what is left of the stream, too. */
  method BoundedU64(draws: seq<U64>, bound: U64) returns (result: Option<(nat, nat)>)
    requires bound > 0
    ensures result.Some? ==>
      var (value, used) := result.value;
      && value < bound
      && 0 < used <= |draws|
      && (forall i :: 0 <= i < used - 1 ==> draws[i] < Threshold(bound))
      && draws[used - 1] >= Threshold(bound) && value == draws[used - 1] % bound
    ensures result.None? ==> forall i :: 0 <= i < |draws| ==> draws[i] < Threshold(bound)
  {
    var threshold := Negate(bound) % bound;
    var used := 0;
    while used < |draws|
      invariant 0 <= used <= |draws|
      invariant forall i :: 0 <= i < used ==> draws[i] < threshold
    {
      var value := draws[used];
      used := used + 1;
      if value >= threshold {
        return Some((value % bound, used));
      }
    }
    result := None;
  }

  // ----- the shuffle ----------------------------------------------------------------------------

  function Swap<T>(s: seq<T>, i: nat, j: nat): seq<T>
    requires i < |s| && j < |s|
  {
    s[i := s[j]][j := s[i]]
  }

  /** `choices[k]` is the index drawn for `end == |choices| - k + 1`: below the bound `end`. */
  predicate Choices(choices: seq<nat>, end: nat) {
    |choices| == (if end == 0 then 0 else end - 1) && forall k :: 0 <= k < |choices| ==> choices[k] < end - k
  }

  /** The shuffle as a function of its choices: exchange position `end - 1` with the chosen one. */
  function Shuffled<T>(s: seq<T>, choices: seq<nat>, end: nat): (r: seq<T>)
    requires end <= |s| && Choices(choices, end)
    ensures |r| == |s|
    ensures forall k :: end <= k < |s| ==> r[k] == s[k]
    decreases end
  {
    if end <= 1 then s
    else
      TailChoices(choices, end);
      Shuffled(Swap(s, end - 1, choices[0]), choices[1..], end - 1)
  }

  lemma TailChoices(choices: seq<nat>, end: nat)
    requires Choices(choices, end) && end > 1
    ensures Choices(choices[1..], end - 1)
  {
  }

  lemma SwapMultiset<T>(s: seq<T>, i: nat, j: nat)
    requires i < |s| && j < |s|
    ensures multiset(Swap(s, i, j)) == multiset(s)
  {
  }

  lemma {:induction false} ShuffledIsPermutation<T>(s: seq<T>, choices: seq<nat>, end: nat)
    requires end <= |s| && Choices(choices, end)
    ensures multiset(Shuffled(s, choices, end)) == multiset(s)
    decreases end
  {
    if end > 1 {
      SwapMultiset(s, end - 1, choices[0]);
      TailChoices(choices, end);
      ShuffledIsPermutation(Swap(s, end - 1, choices[0]), choices[1..], end - 1);
    }
  }

  predicate Distinct<T(==)>(s: seq<T>) {
    forall i, j :: 0 <= i < j < |s| ==> s[i] != s[j]
  }

  /** Different choices give different orders: the first difference shows in a fixed position. */
  lemma {:induction false} ShuffledInjective<T>(s: seq<T>, a: seq<nat>, b: seq<nat>, end: nat)
    requires end <= |s| && Choices(a, end) && Choices(b, end) && Distinct(s)
    requires Shuffled(s, a, end) == Shuffled(s, b, end)
    ensures a == b
    decreases end
  {
    if end > 1 {
      TailChoices(a, end);
      TailChoices(b, end);
      var sa, sb := Swap(s, end - 1, a[0]), Swap(s, end - 1, b[0]);
      assert sa[end - 1] == Shuffled(s, a, end)[end - 1] == Shuffled(s, b, end)[end - 1] == sb[end - 1];
      assert s[a[0]] == s[b[0]];
      assert a[0] == b[0];
      ShuffledInjective(sa, a[1..], b[1..], end - 1);
      assert a == [a[0]] + a[1..] && b == [b[0]] + b[1..];
    }
  }

  lemma InitMultiset<T>(s: seq<T>, end: nat)
    requires 0 < end <= |s|
    ensures multiset(s[..end]) == multiset(s[..end - 1]) + multiset{s[end - 1]}
  {
    assert s[..end] == s[..end - 1] + [s[end - 1]];
  }

  lemma SwapPrefix<T>(s: seq<T>, i: nat, j: nat, end: nat)
    requires i < end && j < end && end <= |s|
    ensures Swap(s, i, j)[..end] == Swap(s[..end], i, j)
    ensures Swap(s, i, j)[end..] == s[end..]
  {
  }

  lemma BringMultiset<T>(s: seq<T>, t: seq<T>, end: nat, c: nat)
    requires c < end <= |s| == |t| && s[c] == t[end - 1]
    requires multiset(s[..end]) == multiset(t[..end])
    ensures multiset(Swap(s, end - 1, c)[..end - 1]) == multiset(t[..end - 1])
  {
    SwapPrefix(s, end - 1, c, end);
    SwapMultiset(s[..end], end - 1, c);
    InitMultiset(Swap(s, end - 1, c), end);
    InitMultiset(t, end);
    assert Swap(s, end - 1, c)[end - 1] == s[c];
    Cancel(multiset(Swap(s, end - 1, c)[..end - 1]), multiset(t[..end - 1]), s[c]);
  }

  lemma Cancel<T>(a: multiset<T>, b: multiset<T>, x: T)
    requires a + multiset{x} == b + multiset{x}
    ensures a == b
  {
    assert a == (a + multiset{x}) - multiset{x};
    assert b == (b + multiset{x}) - multiset{x};
  }

  lemma BringTail<T>(s: seq<T>, t: seq<T>, end: nat, c: nat)
    requires c < end <= |s| == |t| && s[c] == t[end - 1]
    requires s[end..] == t[end..]
    ensures Swap(s, end - 1, c)[end - 1..] == t[end - 1..]
  {
    var next := Swap(s, end - 1, c);
    SwapPrefix(s, end - 1, c, end);
    assert next[end - 1..] == [next[end - 1]] + next[end..];
    assert t[end - 1..] == [t[end - 1]] + t[end..];
  }

  lemma FindLast<T>(s: seq<T>, t: seq<T>, end: nat) returns (c: nat)
    requires 0 < end <= |s| == |t|
    requires multiset(s[..end]) == multiset(t[..end])
    ensures c < end && s[c] == t[end - 1]
  {
    InitMultiset(t, end);
    assert t[end - 1] in multiset(s[..end]);
    c :| 0 <= c < end && s[..end][c] == t[end - 1];
  }

  lemma SingletonPrefix<T>(s: seq<T>, t: seq<T>, end: nat)
    requires end <= 1 && end <= |s| == |t|
    requires multiset(s[..end]) == multiset(t[..end]) && s[end..] == t[end..]
    ensures s == t
  {
    if end == 1 {
      assert s[..1] == [s[0]] && t[..1] == [t[0]];
      assert s[0] in multiset(t[..1]);
    }
    assert s == s[..end] + s[end..] && t == t[..end] + t[end..];
  }

  lemma PrependChoice<T>(s: seq<T>, c: nat, rest: seq<nat>, end: nat)
    requires 1 < end <= |s| && c < end && Choices(rest, end - 1)
    ensures Choices([c] + rest, end)
    ensures Shuffled(s, [c] + rest, end) == Shuffled(Swap(s, end - 1, c), rest, end - 1)
  {
    assert ([c] + rest)[1..] == rest;
  }

  /** Every order is reached by some choices: the shuffle can produce every permutation. */
  lemma {:induction false} ShuffledSurjective<T>(s: seq<T>, t: seq<T>, end: nat) returns (choices: seq<nat>)
    requires end <= |s| == |t|
    requires multiset(s[..end]) == multiset(t[..end]) && s[end..] == t[end..]
    ensures Choices(choices, end) && Shuffled(s, choices, end) == t
    decreases end
  {
    if end <= 1 {
      choices := [];
      SingletonPrefix(s, t, end);
    } else {
      var c := FindLast(s, t, end);
      BringMultiset(s, t, end, c);
      BringTail(s, t, end, c);
      var rest := ShuffledSurjective(Swap(s, end - 1, c), t, end - 1);
      choices := [c] + rest;
      PrependChoice(s, c, rest, end);
    }
  }

  /** After `choices`, the whole shuffle of `start` is the shuffle of `now` below `end`. */
  ghost predicate Reduces<T>(start: seq<T>, choices: seq<nat>, now: seq<T>, end: nat) {
    && end <= |now| == |start|
    && forall more :: Choices(more, end) ==>
         Choices(choices + more, |start|) && Shuffled(start, choices + more, |start|) == Shuffled(now, more, end)
  }

  lemma ReducesStep<T>(start: seq<T>, choices: seq<nat>, now: seq<T>, c: nat, end: nat)
    requires Reduces(start, choices, now, end) && 1 < end && c < end
    ensures Reduces(start, choices + [c], Swap(now, end - 1, c), end - 1)
  {
    forall more | Choices(more, end - 1)
      ensures Choices(choices + [c] + more, |start|)
      ensures Shuffled(start, choices + [c] + more, |start|) == Shuffled(Swap(now, end - 1, c), more, end - 1)
    {
      PrependChoice(now, c, more, end);
      assert choices + [c] + more == choices + ([c] + more);
    }
  }

  /**
   `deterministic_shuffle` in place. `draws` is the generator's stream; the ghost result names the
   choices made, so the final array is a known function of them.
   */
  method DeterministicShuffle(indices: array<nat>, draws: seq<U64>) returns (done: bool, ghost choices: seq<nat>)
    requires indices.Length < TWO64
    modifies indices
    ensures multiset(indices[..]) == multiset(old(indices[..]))
    ensures done ==>
      Choices(choices, indices.Length) && indices[..] == Shuffled(old(indices[..]), choices, indices.Length)
  {
    var end := indices.Length;
    var rest := draws;
    choices := [];
    done := false;
    assert forall more: seq<nat> :: choices + more == more;
    while end > 1
      invariant 0 <= end <= indices.Length
      invariant multiset(indices[..]) == multiset(old(indices[..]))
      invariant Reduces(old(indices[..]), choices, indices[..], end)
    {
      var drawn := BoundedU64(rest, end);
      if drawn.None? {
        return;
      }
      var (selected, used) := drawn.value;
      rest := rest[used..];
      ghost var before := indices[..];
      var last := end - 1;
      var temporary := indices[last];
      indices[last] := indices[selected];
      indices[selected] := temporary;
      assert indices[..] == Swap(before, last, selected);
      SwapMultiset(before, last, selected);
      ReducesStep(old(indices[..]), choices, before, selected, end);
      choices := choices + [selected];
      end := end - 1;
    }
    done := true;
    assert Choices([], end);
    assert choices + [] == choices;
    assert Shuffled(indices[..], [], end) == indices[..];
  }

  // ----- policy sampling ------------------------------------------------------------------------

  /** What `uniform_float` returns. */
  type Uniform = u: real | 0.0 <= u < 1.0

  function Sum(weights: seq<real>): real {
    if weights == [] then 0.0 else Sum(weights[..|weights| - 1]) + weights[|weights| - 1]
  }

  lemma SumSnoc(weights: seq<real>, k: nat)
    requires k < |weights|
    ensures Sum(weights[..k + 1]) == Sum(weights[..k]) + weights[k]
  {
    assert weights[..k + 1][..k] == weights[..k];
  }

  /** The weights `sample_policy` rejects: a negative one, or none positive. */
  predicate Unsampleable(policy: seq<real>) {
    (exists c :: 0 <= c < |policy| && policy[c] < 0.0) || forall c :: 0 <= c < |policy| ==> policy[c] <= 0.0
  }

  /** The first loop of `sample_policy`: the total weight and the last positive column. */
  method TotalWeight(policy: seq<real>) returns (result: Option<(real, nat)>)
    ensures result.None? <==> Unsampleable(policy)
    ensures result.Some? ==>
      && result.value.0 == Sum(policy) > 0.0
      && result.value.1 < |policy| && policy[result.value.1] > 0.0
  {
    var total := 0.0;
    var last_positive := 0;
    var has_positive := false;
    for col := 0 to |policy|
      invariant total == Sum(policy[..col])
      invariant forall c :: 0 <= c < col ==> policy[c] >= 0.0
      invariant has_positive <==> exists c :: 0 <= c < col && policy[c] > 0.0
      invariant has_positive ==> last_positive < col && policy[last_positive] > 0.0 && total > 0.0
      invariant !has_positive ==> total == 0.0
    {
      if policy[col] < 0.0 {
        return None;
      }
      SumSnoc(policy, col);
      total := total + policy[col];
      if policy[col] > 0.0 {
        has_positive := true;
        last_positive := col;
      }
    }
    assert policy[..|policy|] == policy;
    result := if has_positive then Some((total, last_positive)) else None;
  }

  /** The second loop: the first column whose cumulative weight exceeds the target. */
  method Locate(policy: seq<real>, target: real, last_positive: nat) returns (column: nat)
    requires 0.0 <= target < Sum(policy)
    ensures column < |policy| && policy[column] > 0.0
    ensures Sum(policy[..column]) <= target < Sum(policy[..column + 1])
  {
    var cumulative := 0.0;
    assert policy[..|policy|] == policy;
    for col := 0 to |policy|
      invariant cumulative == Sum(policy[..col]) <= target
    {
      SumSnoc(policy, col);
      cumulative := cumulative + policy[col];
      if target < cumulative {
        return col;
      }
    }
    assert false;
    // Exact sums never reach the rounding fallback: the last cumulative sum is the total.
    column := last_positive;
  }

  /** The first column at or after `from` whose cumulative weight exceeds the target. */
  function FirstAbove(policy: seq<real>, target: real, from: nat): (column: nat)
    requires from < |policy| && target < Sum(policy)
    ensures from <= column < |policy| && target < Sum(policy[..column + 1])
    ensures column == from || Sum(policy[..column]) <= target
    decreases |policy| - from
  {
    assert policy[..|policy|] == policy;
    if target < Sum(policy[..from + 1]) || from + 1 == |policy| then from
    else FirstAbove(policy, target, from + 1)
  }

  /** The cumulative weight that a uniform draw points at. */
  function Target(policy: seq<real>, uniform: Uniform): (target: real)
    requires !Unsampleable(policy)
    ensures 0.0 <= target < Sum(policy)
  {
    SumPositive(policy);
    ScaleBelow(uniform, Sum(policy), uniform * Sum(policy));
    uniform * Sum(policy)
  }

  /** What `sample_policy` returns for a uniform draw; `None` is the exception. */
  function Sampled(policy: seq<real>, uniform: Uniform): (column: Option<nat>)
    ensures column.None? <==> Unsampleable(policy)
    ensures column.Some? ==> column.value < |policy| && policy[column.value] > 0.0
  {
    if Unsampleable(policy) then None
    else
      var column := FirstAbove(policy, Target(policy, uniform), 0);
      SumSnoc(policy, column);
      Some(column)
  }

  lemma SumPositive(policy: seq<real>)
    requires !Unsampleable(policy)
    ensures Sum(policy) > 0.0
  {
    var c :| 0 <= c < |policy| && policy[c] > 0.0;
    assert policy[..|policy|] == policy;
    SumMonotone(policy, 0, c);
    SumSnoc(policy, c);
    SumMonotone(policy, c + 1, |policy|);
  }

  lemma FirstAboveIs(policy: seq<real>, target: real, column: nat)
    requires forall c :: 0 <= c < |policy| ==> policy[c] >= 0.0
    requires column < |policy| && target < Sum(policy)
    requires Sum(policy[..column]) <= target < Sum(policy[..column + 1])
    ensures FirstAbove(policy, target, 0) == column
  {
    var expected := FirstAbove(policy, target, 0);
    SumMonotone(policy, 0, column);
    IntervalUnique(policy, target, column, expected);
  }

  /** The column is determined by its cumulative interval. */
  lemma SampledIs(policy: seq<real>, uniform: Uniform, column: nat)
    requires !Unsampleable(policy)
    requires column < |policy| && Sum(policy[..column]) <= Target(policy, uniform) < Sum(policy[..column + 1])
    ensures Sampled(policy, uniform) == Some(column)
  {
    FirstAboveIs(policy, Target(policy, uniform), column);
  }

  /**
   `sample_policy` for a uniform draw in [0, 1). `None` is the exception. Otherwise the column is
   the one whose cumulative interval holds the target, so it always has positive weight.
   */
  method SamplePolicy(policy: seq<real>, uniform: Uniform) returns (column: Option<nat>)
    ensures column.None? <==> Unsampleable(policy)
    ensures column.Some? ==> column.value < |policy| && policy[column.value] > 0.0
    ensures column.Some? ==>
      && !Unsampleable(policy)
      && Sum(policy[..column.value]) <= Target(policy, uniform) < Sum(policy[..column.value + 1])
    ensures column == Sampled(policy, uniform)
  {
    var weight := TotalWeight(policy);
    if weight.None? {
      return None;
    }
    var (total, last_positive) := weight.value;
    var target := uniform * total;
    assert target == Target(policy, uniform);
    var found := Locate(policy, target, last_positive);
    column := Some(found);
    SampledIs(policy, uniform, found);
  }

  lemma ScaleBelow(u: real, t: real, product: real)
    requires 0.0 <= u < 1.0 && t > 0.0 && product == u * t
    ensures 0.0 <= product < t
  {
  }

  /** The sampled column is determined: cumulative intervals of non-negative weights do not overlap. */
  lemma IntervalUnique(policy: seq<real>, target: real, a: nat, b: nat)
    requires forall c :: 0 <= c < |policy| ==> policy[c] >= 0.0
    requires a < |policy| && b < |policy|
    requires Sum(policy[..a]) <= target < Sum(policy[..a + 1])
    requires Sum(policy[..b]) <= target < Sum(policy[..b + 1])
    ensures a == b
  {
    if a < b {
      SumMonotone(policy, a + 1, b);
    } else if b < a {
      SumMonotone(policy, b + 1, a);
    }
  }

  lemma {:induction false} SumMonotone(policy: seq<real>, i: nat, j: nat)
    requires forall c :: 0 <= c < |policy| ==> policy[c] >= 0.0
    requires i <= j <= |policy|
    ensures Sum(policy[..i]) <= Sum(policy[..j])
    decreases j - i
  {
    if i < j {
      SumSnoc(policy, i);
      SumMonotone(policy, i + 1, j);
    }
  }
}
