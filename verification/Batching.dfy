/**
 One round of the neural thread of `cpp/src/self_play.cpp`: group the pending leaves by model, take the
 model with most distinct positions, sort and truncate the batch, evaluate it, and hand out the games
 it answers. The theorem: every round is one `NeuralSelect` step of Pipeline.dfy.
 */
module Batching {
  import opened Pipeline

  /** A leaf to evaluate: the model to ask and the position. */
  type Key<P> = (nat, P)

  function ModelOf<G, P, E, R>(spec: Spec<G, Key<P>, E, R>, t: Ticket<G>): nat {
    spec.key(t.game).0
  }

  function LeafOf<G, P, E, R>(spec: Spec<G, Key<P>, E, R>, t: Ticket<G>): P {
    spec.key(t.game).1
  }

  /** The distinct leaves waiting for `model`, in order of first occurrence. */
  function DistinctLeaves<G, P(==), E, R>(spec: Spec<G, Key<P>, E, R>, pending: seq<Ticket<G>>, model: nat): seq<P> {
    if pending == [] then []
    else
      var n := |pending| - 1;
      var before := DistinctLeaves(spec, pending[..n], model);
      if ModelOf(spec, pending[n]) == model && LeafOf(spec, pending[n]) !in before
      then before + [LeafOf(spec, pending[n])]
      else before
  }

  predicate NoRepeats<P(==)>(s: seq<P>) {
    forall i, j :: 0 <= i < j < |s| ==> s[i] != s[j]
  }

  lemma {:induction false} DistinctLeavesMeaning<G, P, E, R>(spec: Spec<G, Key<P>, E, R>, pending: seq<Ticket<G>>,
                                                             model: nat)
    ensures NoRepeats(DistinctLeaves(spec, pending, model))
    ensures forall p :: p in DistinctLeaves(spec, pending, model) <==>
      exists i :: 0 <= i < |pending| && ModelOf(spec, pending[i]) == model && LeafOf(spec, pending[i]) == p
  {
    if pending != [] {
      DistinctLeavesMeaning(spec, pending[..|pending| - 1], model);
    }
  }

  /** The table holds exactly the models that occur, each with its distinct leaves. */
  ghost predicate Grouped<G, P, E, R>(spec: Spec<G, Key<P>, E, R>, pending: seq<Ticket<G>>,
                                      positions: map<nat, seq<P>>) {
    forall m: nat :: GroupedAt(spec, pending, positions, m)
  }

  predicate GroupedAt<G, P(==), E, R>(spec: Spec<G, Key<P>, E, R>, pending: seq<Ticket<G>>,
                                      positions: map<nat, seq<P>>, m: nat) {
    && (m in positions <==> DistinctLeaves(spec, pending, m) != [])
    && (m in positions ==> positions[m] == DistinctLeaves(spec, pending, m))
  }

  /** The body of the grouping loop. */
  function WithLeaf<P(==)>(positions: map<nat, seq<P>>, model: nat, leaf: P): map<nat, seq<P>> {
    var seen := if model in positions then positions[model] else [];
    positions[model := if leaf in seen then seen else seen + [leaf]]
  }

  lemma GroupStep<G, P, E, R>(spec: Spec<G, Key<P>, E, R>, pending: seq<Ticket<G>>, i: nat,
                              positions: map<nat, seq<P>>, m: nat)
    requires i < |pending| && GroupedAt(spec, pending[..i], positions, m)
    requires GroupedAt(spec, pending[..i], positions, ModelOf(spec, pending[i]))
    ensures GroupedAt(spec, pending[..i + 1],
                      WithLeaf(positions, ModelOf(spec, pending[i]), LeafOf(spec, pending[i])), m)
  {
    assert pending[..i + 1][..i] == pending[..i];
  }

  /** The grouping loop. */
  method GroupByModel<G, P(==), E, R>(spec: Spec<G, Key<P>, E, R>, pending: seq<Ticket<G>>)
    returns (positions: map<nat, seq<P>>)
    ensures Grouped(spec, pending, positions)
  {
    positions := map[];
    for i := 0 to |pending|
      invariant Grouped(spec, pending[..i], positions)
    {
      var next := WithLeaf(positions, ModelOf(spec, pending[i]), LeafOf(spec, pending[i]));
      ghost var prefix := pending[..i + 1];
      forall m: nat ensures GroupedAt(spec, prefix, next, m) {
        GroupStep(spec, pending, i, positions, m);
      }
      positions := next;
    }
    assert pending[..|pending|] == pending;
  }

  /** `m` loses against `best`: fewer positions, or as many and a smaller id. */
  predicate Beaten<P>(positions: map<nat, seq<P>>, m: nat, best: nat)
    requires m in positions && best in positions
  {
    |positions[m]| < |positions[best]| || (|positions[m]| == |positions[best]| && m <= best)
  }

  /** The model with most distinct positions; on a tie the largest id. */
  method SelectModel<P>(positions: map<nat, seq<P>>) returns (selected: nat)
    requires |positions| > 0
    ensures selected in positions && forall m :: m in positions ==> Beaten(positions, m, selected)
  {
    var left := positions.Keys;
    assert left != {};
    selected :| selected in left;
    left := left - {selected};
    while left != {}
      invariant selected in positions && left <= positions.Keys
      invariant forall m :: m in positions && m !in left ==> Beaten(positions, m, selected)
      decreases left
    {
      var model :| model in left;
      if |positions[model]| > |positions[selected]|
         || (|positions[model]| == |positions[selected]| && model > selected) {
        selected := model;
      }
      left := left - {model};
    }
  }

  ghost predicate StrictOrder<P(!new)>(less: (P, P) -> bool) {
    (forall a :: !less(a, a)) && forall a, b, c :: less(a, b) && less(b, c) ==> less(a, c)
  }

  predicate Ordered<P>(s: seq<P>, less: (P, P) -> bool) {
    forall i, j :: 0 <= i < j < |s| ==> !less(s[j], s[i])
  }

  /** One insertion into an ordered list. */
  method Insert<P(==, !new)>(sorted: seq<P>, x: P, less: (P, P) -> bool) returns (longer: seq<P>)
    ensures multiset(longer) == multiset(sorted) + multiset{x}
    ensures StrictOrder(less) && Ordered(sorted, less) ==> Ordered(longer, less)
  {
    var at := 0;
    while at < |sorted| && !less(x, sorted[at])
      invariant 0 <= at <= |sorted|
      invariant forall k :: 0 <= k < at ==> !less(x, sorted[k])
    {
      at := at + 1;
    }
    longer := sorted[..at] + [x] + sorted[at..];
    assert sorted == sorted[..at] + sorted[at..];
    if StrictOrder(less) && Ordered(sorted, less) {
      InsertedOrdered(sorted, x, less, at);
    }
  }

  lemma InsertedOrdered<P(!new)>(sorted: seq<P>, x: P, less: (P, P) -> bool, at: nat)
    requires StrictOrder(less) && Ordered(sorted, less) && at <= |sorted|
    requires forall k :: 0 <= k < at ==> !less(x, sorted[k])
    requires at < |sorted| ==> less(x, sorted[at])
    ensures Ordered(sorted[..at] + [x] + sorted[at..], less)
  {
    forall k | at <= k < |sorted| ensures !less(sorted[k], x) {
      assert !less(sorted[k], sorted[at]) && less(x, sorted[at]);
    }
  }

  /** The sort: `less` is the order on positions. */
  method SortPositions<P(==, !new)>(positions: seq<P>, less: (P, P) -> bool) returns (sorted: seq<P>)
    ensures multiset(sorted) == multiset(positions)
    ensures StrictOrder(less) ==> Ordered(sorted, less)
  {
    sorted := [];
    for i := 0 to |positions|
      invariant multiset(sorted) == multiset(positions[..i])
      invariant StrictOrder(less) ==> Ordered(sorted, less)
    {
      assert positions[..i + 1] == positions[..i] + [positions[i]];
      sorted := Insert(sorted, positions[i], less);
    }
    assert positions[..|positions|] == positions;
  }

  lemma SortedKeeps<P>(positions: seq<P>, sorted: seq<P>)
    requires multiset(sorted) == multiset(positions) && NoRepeats(positions)
    ensures |sorted| == |positions| && NoRepeats(sorted)
    ensures forall p :: p in sorted <==> p in positions
  {
    assert |multiset(sorted)| == |sorted| && |multiset(positions)| == |positions|;
    forall p ensures p in sorted <==> p in positions {
      assert p in sorted <==> p in multiset(sorted);
      assert p in positions <==> p in multiset(positions);
    }
    forall i, j | 0 <= i < j < |sorted| ensures sorted[i] != sorted[j] {
      if sorted[i] == sorted[j] {
        TwiceCounted(sorted, i, j);
        OnceCounted(positions, sorted[i]);
      }
    }
  }

  lemma TwiceCounted<P>(s: seq<P>, i: nat, j: nat)
    requires i < j < |s| && s[i] == s[j]
    ensures multiset(s)[s[i]] >= 2
  {
    assert s == s[..j] + s[j..];
    assert s[i] in s[..j] && s[j] == s[j..][0];
  }

  lemma {:induction false} OnceCounted<P>(s: seq<P>, p: P)
    requires NoRepeats(s)
    ensures multiset(s)[p] <= 1
  {
    if s != [] {
      var n := |s| - 1;
      assert s == s[..n] + [s[n]];
      OnceCounted(s[..n], p);
      if s[n] == p {
        assert p !in s[..n];
      }
    }
  }

  /** The games a batch for `model` answers. */
  function Answered<G, P(==), E, R>(spec: Spec<G, Key<P>, E, R>, pending: seq<Ticket<G>>, model: nat,
                                    batch: seq<P>): (pick: seq<bool>)
    ensures |pick| == |pending|
  {
    seq(|pending|, i requires 0 <= i < |pending| =>
      ModelOf(spec, pending[i]) == model && LeafOf(spec, pending[i]) in batch)
  }

  /** The final loop: answered games leave with the evaluation of their own leaf, the others stay. */
  method Partition<G, P(==), E, R>(spec: Spec<G, Key<P>, E, R>, pending: seq<Ticket<G>>, model: nat, batch: seq<P>,
                                   evaluations: map<P, E>)
    returns (ready: seq<Job<G, E>>, rest: seq<Ticket<G>>)
    requires forall p :: p in evaluations <==> p in batch
    requires forall p :: p in evaluations ==> evaluations[p] == spec.evaluate((model, p))
    ensures ready == Picked(spec, pending, Answered(spec, pending, model, batch))
    ensures rest == Left(pending, Answered(spec, pending, model, batch))
  {
    ghost var pick := Answered(spec, pending, model, batch);
    ready, rest := [], [];
    for i := 0 to |pending|
      invariant ready == Picked(spec, pending[..i], pick[..i])
      invariant rest == Left(pending[..i], pick[..i])
    {
      assert pending[..i + 1][..i] == pending[..i] && pick[..i + 1][..i] == pick[..i];
      var t := pending[i];
      var leaf := LeafOf(spec, t);
      if ModelOf(spec, t) != model || leaf !in evaluations {
        rest := rest + [t];
      } else {
        assert spec.key(t.game) == (model, leaf);
        ready := ready + [Job(t.id, t.game, evaluations[leaf])];
      }
    }
    assert pending[..|pending|] == pending && pick[..|pick|] == pick;
  }

  /** The batch evaluated position by position, as a table. */
  method EvaluateBatch<P(==), E>(evaluate: Key<P> -> E, model: nat, batch: seq<P>) returns (evaluations: map<P, E>)
    ensures forall p :: p in evaluations <==> p in batch
    ensures forall p :: p in evaluations ==> evaluations[p] == evaluate((model, p))
  {
    evaluations := map[];
    for i := 0 to |batch|
      invariant forall p :: p in evaluations <==> p in batch[..i]
      invariant forall p :: p in evaluations ==> evaluations[p] == evaluate((model, p))
    {
      assert batch[..i + 1] == batch[..i] + [batch[i]];
      if batch[i] !in evaluations {
        evaluations := evaluations[batch[i] := evaluate((model, batch[i]))];
      }
    }
    assert batch[..|batch|] == batch;
  }

  /**
   One round. The batch has at least one and at most `limit` positions, none twice, all waiting for a
   model that no other model beats; and the round is a selection step: at least one game moves on, each
   with the evaluation of its own leaf by its own model.
   */
  method NeuralRound<G, P(==, !new), E, R>(spec: Spec<G, Key<P>, E, R>, less: (P, P) -> bool, limit: nat,
                                           pending: seq<Ticket<G>>, ghost capacity: nat, ghost s: State<G, E, R>)
    returns (ready: seq<Job<G, E>>, rest: seq<Ticket<G>>, model: nat, batch: seq<P>)
    requires pending != [] && limit > 0 && s.neural.AtSelect? && s.pending == pending
    ensures Chosen(spec, pending, limit, model, batch)
    ensures var pick := Answered(spec, pending, model, batch);
            true in pick && ready == Picked(spec, pending, pick) && rest == Left(pending, pick)
    ensures SelectsInto(spec, capacity, s, Answered(spec, pending, model, batch), ready, rest)
  {
    model, batch := ChooseBatch(spec, less, limit, pending);
    DistinctLeavesMeaning(spec, pending, model);
    BatchAnswers(spec, pending, model, batch);
    var evaluations := EvaluateBatch(spec.evaluate, model, batch);
    ready, rest := Partition(spec, pending, model, batch, evaluations);
    RoundIsSelectStep(spec, capacity, s, model, batch);
  }

  /** The batch is one a round may take. */
  ghost predicate Chosen<G, P, E, R>(spec: Spec<G, Key<P>, E, R>, pending: seq<Ticket<G>>, limit: nat, model: nat,
                                     batch: seq<P>) {
    var leaves := DistinctLeaves(spec, pending, model);
    && 0 < |batch| <= limit && NoRepeats(batch)
    && (forall p :: p in batch ==> p in leaves)
    && (|leaves| <= limit ==> forall p :: p in leaves ==> p in batch)
    && forall m: nat :: NotBetter(spec, pending, m, model)
  }

  /** Model `m` has fewer distinct leaves than `best`, or as many and no larger an id. */
  predicate NotBetter<G, P(==), E, R>(spec: Spec<G, Key<P>, E, R>, pending: seq<Ticket<G>>, m: nat, best: nat) {
    var few, many := DistinctLeaves(spec, pending, m), DistinctLeaves(spec, pending, best);
    |few| < |many| || (|few| == |many| && m <= best)
  }

  /** The first half of a round: which model, which positions. */
  method ChooseBatch<G, P(==, !new), E, R>(spec: Spec<G, Key<P>, E, R>, less: (P, P) -> bool, limit: nat,
                                           pending: seq<Ticket<G>>)
    returns (model: nat, batch: seq<P>)
    requires pending != [] && limit > 0
    ensures Chosen(spec, pending, limit, model, batch)
    ensures StrictOrder(less) ==> Ordered(batch, less)
  {
    var positions := GroupByModel(spec, pending);
    FirstModelOccurs(spec, pending, positions);
    model := SelectModel(positions);
    assert GroupedAt(spec, pending, positions, model);
    forall m: nat ensures NotBetter(spec, pending, m, model) {
      assert GroupedAt(spec, pending, positions, m);
      assert m in positions ==> Beaten(positions, m, model);
    }
    DistinctLeavesMeaning(spec, pending, model);
    batch := SortPositions(positions[model], less);
    SortedKeeps(positions[model], batch);
    if |batch| > limit {
      batch := batch[..limit];
    }
  }

  lemma FirstModelOccurs<G, P, E, R>(spec: Spec<G, Key<P>, E, R>, pending: seq<Ticket<G>>, positions: map<nat, seq<P>>)
    requires pending != [] && Grouped(spec, pending, positions)
    ensures |positions| > 0
  {
    var m := ModelOf(spec, pending[0]);
    DistinctLeavesMeaning(spec, pending, m);
    assert LeafOf(spec, pending[0]) in DistinctLeaves(spec, pending, m);
    assert GroupedAt(spec, pending, positions, m);
    assert m in positions;
  }

  lemma BatchAnswers<G, P, E, R>(spec: Spec<G, Key<P>, E, R>, pending: seq<Ticket<G>>, model: nat, batch: seq<P>)
    requires |batch| > 0 && batch[0] in DistinctLeaves(spec, pending, model)
    ensures true in Answered(spec, pending, model, batch)
  {
    DistinctLeavesMeaning(spec, pending, model);
    var i :| 0 <= i < |pending| && ModelOf(spec, pending[i]) == model && LeafOf(spec, pending[i]) == batch[0];
    assert Answered(spec, pending, model, batch)[i];
  }

  /** From `s` the pipeline may pick so; the neural thread then holds `ready`, and `rest` stays pending. */
  ghost predicate SelectsInto<G, P, E, R>(spec: Spec<G, Key<P>, E, R>, capacity: nat, s: State<G, E, R>,
                                          pick: seq<bool>, ready: seq<Job<G, E>>, rest: seq<Ticket<G>>) {
    && Enabled(capacity, s, NeuralSelect(pick))
    && Apply(spec, capacity, s, NeuralSelect(pick)) == s.(neural := AtPush(ready), pending := rest)
  }

  /** A round is a selection step of the pipeline, and changes nothing else in it. */
  lemma RoundIsSelectStep<G, P, E, R>(spec: Spec<G, Key<P>, E, R>, capacity: nat, s: State<G, E, R>, model: nat,
                                      batch: seq<P>)
    requires s.neural.AtSelect? && true in Answered(spec, s.pending, model, batch)
    ensures var pick := Answered(spec, s.pending, model, batch);
            SelectsInto(spec, capacity, s, pick, Picked(spec, s.pending, pick), Left(s.pending, pick))
  {
  }
}
