/**
 The policies of training samples. A sample carries the visit shares of the root it was recorded at, for as
 long as its move stays in the history; and in self-play that root has been visited exactly as often as the
 options ask for.
 */
module SamplePolicies {
  import opened Board
  import opened Policies
  import opened SearchTree
  import opened Games
  import opened Outcomes
  import opened SelfPlayGames
  import opened Steps
  import P = Pipeline
  import Rng
  import SelfPlay

  // ----- a recorded move stays as it was recorded -----------------------------------------------------

  /** No operation of the run takes move `i` back. */
  ghost predicate Keeps(prm: Params, eval: Grid -> Evaluation, g: Game, ops: seq<Op>, i: nat)
    requires Inv(eval, prm.plyPenalty, g)
    decreases |ops|
  {
    InvSound(eval, prm.plyPenalty, g);
    && i < |g.moves|
    && (ops == [] || Step(prm, eval, g, ops[0]).None?
        || (StepInv(prm, eval, g, ops[0]); Keeps(prm, eval, Step(prm, eval, g, ops[0]).value, ops[1..], i)))
  }

  lemma StepKeepsRecord(prm: Params, eval: Grid -> Evaluation, g: Game, op: Op, i: nat)
    requires Inv(eval, prm.plyPenalty, g) && Sound(g) && Step(prm, eval, g, op).Some?
    requires i < |g.moves| && i < |Step(prm, eval, g, op).value.moves|
    ensures Step(prm, eval, g, op).value.moves[i] == g.moves[i]
  {
    match op {
      case ResetAll => ResetInv(eval, prm.plyPenalty, g);
      case _ =>
    }
  }

  lemma {:induction false} RunKeepsRecord(prm: Params, eval: Grid -> Evaluation, g: Game, ops: seq<Op>, i: nat)
    requires Inv(eval, prm.plyPenalty, g) && Keeps(prm, eval, g, ops, i) && Run(prm, eval, g, ops).Some?
    ensures var r := Run(prm, eval, g, ops).value; i < |r.moves| && r.moves[i] == g.moves[i]
    decreases |ops|
  {
    InvSound(eval, prm.plyPenalty, g);
    if ops != [] {
      StepInv(prm, eval, g, ops[0]);
      var h := Step(prm, eval, g, ops[0]).value;
      RunKeepsRecord(prm, eval, h, ops[1..], i);
      StepKeepsRecord(prm, eval, g, ops[0], i);
    }
  }

  /** A named product keeps the solver's reasoning about it by congruence. */
  function Times(x: real, n: nat): real {
    x * (n as real)
  }

  /** The policy gives the columns weight in proportion to the visits of the root's children. */
  ghost predicate InProportion(g: Game, policy: Policy)
    requires Sound(g)
  {
    forall c: nat, d: nat :: c < COLS && d < COLS ==>
      Times(policy[c], ChildVisits(g.nodes, g.root, d)) == Times(policy[d], ChildVisits(g.nodes, g.root, c))
  }

  lemma ShareTimes(a: nat, sum: nat)
    requires sum > 0
    ensures Times(a as real / sum as real, sum) == a as real
  {
  }

  /** A share of the visits, times all visits. */
  lemma VisitShare(t: Tree, p: Path, col: nat)
    requires p in t && t[p].expanded && VisitSum(t, p) > 0 && col < COLS
    ensures Times(VisitPolicy(t, p)[col], VisitSum(t, p)) == ChildVisits(t, p, col) as real
  {
    var visits, sum := ChildVisits(t, p, col), VisitSum(t, p);
    assert VisitPolicy(t, p)[col] == visits as real / sum as real;
    ShareTimes(visits, sum);
  }

  lemma Crosswise(p: real, q: real, sum: nat, a: nat, b: nat)
    requires Times(p, sum) == a as real && Times(q, sum) == b as real
    ensures Times(p, b) == Times(q, a)
  {
  }

  lemma RootInProportion(g: Game)
    requires Sound(g) && g.nodes[g.root].expanded && VisitSum(g.nodes, g.root) > 0
    ensures InProportion(g, RootPolicy(g)) && Total(RootPolicy(g)) == 1.0
  {
    VisitSharesTotal(g.nodes, g.root);
    forall c: nat, d: nat | c < COLS && d < COLS
      ensures Times(RootPolicy(g)[c], ChildVisits(g.nodes, g.root, d))
           == Times(RootPolicy(g)[d], ChildVisits(g.nodes, g.root, c))
    {
      VisitShare(g.nodes, g.root, c);
      VisitShare(g.nodes, g.root, d);
      Crosswise(RootPolicy(g)[c], RootPolicy(g)[d], VisitSum(g.nodes, g.root), ChildVisits(g.nodes, g.root, c),
                ChildVisits(g.nodes, g.root, d));
    }
  }

  /** An operation that plays a move. */
  predicate Plays(op: Op) {
    op.Move? || op.RandomMove?
  }

  lemma PlayRecords(prm: Params, eval: Grid -> Evaluation, g: Game, op: Op)
    requires Inv(eval, prm.plyPenalty, g) && Sound(g) && Plays(op) && Step(prm, eval, g, op).Some?
    ensures var h := Step(prm, eval, g, op).value;
            && g.nodes[g.root].expanded && |h.moves| == |g.moves| + 1
            && h.moves[|g.moves|].pos == RootPosition(g) && h.moves[|g.moves|].policy == RootPolicy(g)
  {
  }

  lemma SampleOfMove(plyPenalty: real, g: Game, i: nat)
    requires Sound(g) && ToResult(plyPenalty, g).Some? && i < |g.moves|
    ensures var samples := ToResult(plyPenalty, g).value;
            i < |samples| && samples[i].pos == g.moves[i].pos && samples[i].policy == g.moves[i].policy
  {
  }

  /**
   Over runs: a move played from `g`, and never taken back, gives the result a sample of the position of `g`
   whose policy is in proportion to the visits of the root's children when the move was played.
   */
  lemma SampleIsSearch(prm: Params, eval: Grid -> Evaluation, g: Game, op: Op, ops: seq<Op>)
    requires Inv(eval, prm.plyPenalty, g) && Sound(g) && Plays(op) && Step(prm, eval, g, op).Some?
    requires Inv(eval, prm.plyPenalty, Step(prm, eval, g, op).value)
    requires Keeps(prm, eval, Step(prm, eval, g, op).value, ops, |g.moves|)
    requires var r := Run(prm, eval, Step(prm, eval, g, op).value, ops);
             r.Some? && Sound(r.value) && ToResult(prm.plyPenalty, r.value).Some?
    ensures var samples := ToResult(prm.plyPenalty, Run(prm, eval, Step(prm, eval, g, op).value, ops).value).value;
            var i := |g.moves|;
            && i < |samples| && samples[i].pos == RootPosition(g)
            && (VisitSum(g.nodes, g.root) > 0 ==>
                  InProportion(g, samples[i].policy) && Total(samples[i].policy) == 1.0)
            && (VisitSum(g.nodes, g.root) == 0 ==> samples[i].policy == UNIFORM)
  {
    var h := Step(prm, eval, g, op).value;
    PlayRecords(prm, eval, g, op);
    RunKeepsRecord(prm, eval, h, ops, |g.moves|);
    SampleOfMove(prm.plyPenalty, Run(prm, eval, h, ops).value, |g.moves|);
    if VisitSum(g.nodes, g.root) > 0 {
      RootInProportion(g);
    }
  }

  // ----- self-play ----------------------------------------------------------------------------------

  /** Numbers of visits for the columns. */
  type Visits = s: seq<nat> | |s| == COLS witness [0, 0, 0, 0, 0, 0, 0]

  function Sum(v: Visits): nat {
    v[0] + v[1] + v[2] + v[3] + v[4] + v[5] + v[6]
  }

  predicate SharesOf(policy: Policy, v: Visits, n: nat)
    requires n > 0
  {
    forall c :: 0 <= c < COLS ==> policy[c] == v[c] as real / n as real
  }

  predicate OnLegal(pos: Grid, v: Visits) {
    forall c: nat :: c < COLS && v[c] > 0 ==> Legal(pos, c)
  }

  /** The policy of a root visited `n + 1` times: `n` visits shared out over legal columns. */
  ghost predicate FromSearch(n: nat, pos: Grid, policy: Policy) {
    if n == 0 then policy == UNIFORM
    else exists v: Visits :: Sum(v) == n && SharesOf(policy, v, n) && OnLegal(pos, v)
  }

  function RootShares(g: Game): (v: Visits)
    requires Sound(g)
    ensures Sum(v) == VisitSum(g.nodes, g.root)
    ensures forall c: nat :: c < COLS ==> v[c] == ChildVisits(g.nodes, g.root, c)
  {
    [ChildVisits(g.nodes, g.root, 0), ChildVisits(g.nodes, g.root, 1), ChildVisits(g.nodes, g.root, 2),
     ChildVisits(g.nodes, g.root, 3), ChildVisits(g.nodes, g.root, 4), ChildVisits(g.nodes, g.root, 5),
     ChildVisits(g.nodes, g.root, 6)]
  }

  lemma RootSharesPolicy(g: Game)
    requires Sound(g) && g.nodes[g.root].expanded && VisitSum(g.nodes, g.root) > 0
    ensures SharesOf(RootPolicy(g), RootShares(g), VisitSum(g.nodes, g.root))
  {
  }

  /** The root is expanded, and its children have `n` visits, all on legal columns. */
  predicate Shared(g: Game, n: nat)
    requires Sound(g)
  {
    g.nodes[g.root].expanded && VisitSum(g.nodes, g.root) == n && OnLegal(RootPosition(g), RootShares(g))
  }

  lemma RootShared(eval: Grid -> Evaluation, plyPenalty: real, g: Game, n: nat)
    requires Inv(eval, plyPenalty, g) && Sound(g) && RootVisits(g) == n + 1 && TerminalState(RootPosition(g)).None?
    ensures Shared(g, n)
  {
    RootBooks(eval, plyPenalty, g);
    forall c: nat | c < COLS && RootShares(g)[c] > 0 ensures Legal(RootPosition(g), c) {
      ChildMeansExpanded(g.start, g.root, g.nodes, g.root, c);
      assert Placed(g.start, g.root, g.nodes, g.root);
    }
  }

  lemma SharedFromSearch(g: Game, n: nat, pos: Grid, policy: Policy)
    requires Sound(g) && Shared(g, n) && pos == RootPosition(g) && policy == RootPolicy(g)
    ensures FromSearch(n, pos, policy)
  {
    if n > 0 {
      RootSharesPolicy(g);
    }
  }

  /** Every recorded move was played from a root visited `iterations` times. */
  ghost predicate Searched(o: Options, g: Game)
    requires o.iterations > 0
  {
    forall i :: 0 <= i < |g.moves| ==> FromSearch(o.iterations - 1, g.moves[i].pos, g.moves[i].policy)
  }

  ghost predicate SearchedSamples(o: Options, samples: seq<Sample>)
    requires o.iterations > 0
  {
    && (forall i :: 0 <= i < |samples| - 1 ==> FromSearch(o.iterations - 1, samples[i].pos, samples[i].policy))
    && samples != [] && samples[|samples| - 1].policy == UNIFORM
  }

  ghost predicate SearchedProgress(o: Options, p: Progress<Owned, GameResult>)
    requires o.iterations > 0
  {
    match p
    case Failed => false
    case Again(k) => Searched(o, k.game)
    case Finished(r) => SearchedSamples(o, r.samples)
  }

  lemma SamplesSearched(o: Options, plyPenalty: real, g: Game)
    requires o.iterations > 0 && Sound(g) && Searched(o, g) && ToResult(plyPenalty, g).Some?
    ensures SearchedSamples(o, ToResult(plyPenalty, g).value)
  {
    var samples := ToResult(plyPenalty, g).value;
    forall i | 0 <= i < |samples| - 1 ensures FromSearch(o.iterations - 1, samples[i].pos, samples[i].policy) {
      SampleOfMove(plyPenalty, g, i);
    }
  }

  lemma NoiseKeepsMoves(o: Options, meta: Metadata, g: Game)
    requires WithNoise(o, meta, g).Some?
    ensures WithNoise(o, meta, g).value.moves == g.moves
  {
  }

  lemma RandomIsMove(prm: Params, g: Game, temperature: real, uniform: Rng.Uniform) returns (move: nat)
    requires Sound(g) && MakeRandomMove(prm, g, temperature, uniform).Some?
    ensures MakeMove(prm, g, move) == MakeRandomMove(prm, g, temperature, uniform)
  {
    move := RandomColumn(prm, RootPolicy(g), RootPosition(g), temperature, uniform).value;
  }

  lemma SharedRecord(o: Options, g: Game, h: Game, record: Recorded)
    requires o.iterations > 0 && Sound(g) && Searched(o, g) && Shared(g, o.iterations - 1)
    requires h.moves == g.moves + [record] && record.pos == RootPosition(g) && record.policy == RootPolicy(g)
    ensures Searched(o, h)
  {
    forall i | 0 <= i < |h.moves| ensures FromSearch(o.iterations - 1, h.moves[i].pos, h.moves[i].policy) {
      if i < |g.moves| {
        assert h.moves[i] == g.moves[i];
      } else {
        SharedFromSearch(g, o.iterations - 1, h.moves[i].pos, h.moves[i].policy);
      }
    }
  }

  lemma MoveSearched(o: Options, g: Game, move: nat)
    requires o.iterations > 0 && Sound(g) && Searched(o, g) && MakeMove(o.prm, g, move).Some?
    requires Shared(g, o.iterations - 1)
    ensures Searched(o, MakeMove(o.prm, g, move).value)
  {
    MakeMoveRecords(o.prm, g, move);
    SharedRecord(o, g, MakeMove(o.prm, g, move).value, Recorded(RootPosition(g), RootPolicy(g), move));
  }

  lemma MovedFromSearch(o: Options, meta: Metadata, g: Game)
    requires o.iterations > 0 && Sound(g) && Searched(o, g) && Moved(o, meta, g).Some?
    requires Shared(g, o.iterations - 1)
    ensures Searched(o, Moved(o, meta, g).value)
  {
    var ply := Ply(RootPosition(g));
    var move := RandomIsMove(o.prm, g, Temperature(o, ply), o.uniform(meta.id, ply));
    MoveSearched(o, g, move);
    NoiseKeepsMoves(o, meta, MakeMove(o.prm, g, move).value);
  }

  lemma MovedSearched(o: Options, eval: Grid -> Evaluation, meta: Metadata, g: Game)
    requires ValidOptions(o) && Inv(eval, o.prm.plyPenalty, g) && Sound(g) && Searched(o, g)
    requires RootVisits(g) == o.iterations && TerminalState(RootPosition(g)).None?
    ensures Moved(o, meta, g).Some? && Searched(o, Moved(o, meta, g).value)
  {
    MovedProgress(o, eval, meta, g);
    RootShared(eval, o.prm.plyPenalty, g, o.iterations - 1);
    MovedFromSearch(o, meta, g);
  }

  lemma AfterSearched(o: Options, eval: Grid -> Evaluation, meta: Metadata, g: Game)
    requires ValidOptions(o) && Inv(eval, o.prm.plyPenalty, g) && Sound(g) && Searched(o, g)
    requires RootVisits(g) <= o.iterations
    ensures SearchedProgress(o, AfterEvaluation(o, meta, g))
  {
    if RootVisits(g) == o.iterations {
      if TerminalState(RootPosition(g)).Some? {
        SamplesSearched(o, o.prm.plyPenalty, g);
      } else {
        MovedSearched(o, eval, meta, g);
      }
    }
  }

  lemma TickSearched(o: Options, evaluate: Evaluator, j: Owned)
    requires ValidOptions(o) && ValidEvaluator(evaluate) && Waiting(o, evaluate, j) && Searched(o, j.game)
    ensures SearchedProgress(o, Tick(o, j, OwnEvaluation(evaluate, j)))
  {
    var eval := EvalFor(evaluate, j.meta);
    var noise := RootNoise(o, j.meta, RootPosition(j.game));
    assert eval(LeafPosition(j.game)) == OwnEvaluation(evaluate, j);
    assert Usable(LeafPosition(j.game), evaluate(Model(j.meta, LeafPosition(j.game)), LeafPosition(j.game)));
    ReceiveAccepts(o, eval, j.game, noise);
    AfterSearched(o, eval, j.meta, Receive(o.prm, j.game, eval(LeafPosition(j.game)), noise).value);
  }

  lemma {:induction false} SoloSearched(o: Options, evaluate: Evaluator, j: Owned)
    requires ValidOptions(o) && ValidEvaluator(evaluate) && Waiting(o, evaluate, j) && Searched(o, j.game)
    requires P.Sane(SelfPlay.SpecOf(o, evaluate))
    ensures SearchedSamples(o, P.Solo(SelfPlay.SpecOf(o, evaluate), j).samples)
    decreases Measure(o, j)
  {
    TickSearched(o, evaluate, j);
    TickProgress(o, evaluate, j);
    assert P.Progresses(SelfPlay.SpecOf(o, evaluate), j);
    match Tick(o, j, OwnEvaluation(evaluate, j)) {
      case Again(k) =>
        MeasureNonNegative(o, k);
        SoloSearched(o, evaluate, k);
      case Finished(_) =>
    }
  }

  /**
   Every training sample of a self-play game but the last has the visit shares of a root searched exactly
   `iterations` times: whole numbers of visits on legal columns that add up to one less. The last is uniform.
   */
  lemma SelfPlaySamplesSearched(o: Options, evaluate: Evaluator, request: SelfPlay.Request)
    requires ValidOptions(o) && ValidEvaluator(evaluate)
    ensures SearchedSamples(o, SelfPlay.Solo(o, evaluate, request).samples)
  {
    SelfPlay.SpecSane(o, evaluate);
    NewGameWaits(o, evaluate, request.meta, request.opening);
    SoloSearched(o, evaluate, Owned(request.meta, NewGame(request.opening)));
  }
}
