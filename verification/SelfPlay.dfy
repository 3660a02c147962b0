/**
 The pipeline of Pipeline.dfy run on the games of SelfPlayGame.dfy: what `self_play` of
 `cpp/src/self_play.cpp` returns.
 */
module SelfPlay {
  import opened Board
  import opened SearchTree
  import opened Games
  import opened Steps
  import opened SelfPlayGames
  import P = Pipeline

  type Key = (nat, Grid)

  ghost function SpecOf(o: Options, evaluate: Evaluator): P.Spec<Owned, Key, Evaluation, GameResult> {
    P.Spec(
      (j: Owned) => if Sound(j.game) then (Model(j.meta, LeafPosition(j.game)), LeafPosition(j.game)) else (0, EMPTY),
      (k: Key) => evaluate(k.0, k.1),
      (j: Owned, e: Evaluation) => Tick(o, j, e),
      (j: Owned) => Waiting(o, evaluate, j),
      (j: Owned) => if Sound(j.game) && Measure(o, j) > 0 then Measure(o, j) as nat else 0)
  }

  /** Each game makes progress on its own: the pipeline's only demand on its games. */
  lemma SpecSane(o: Options, evaluate: Evaluator)
    requires ValidOptions(o) && ValidEvaluator(evaluate)
    ensures P.Sane(SpecOf(o, evaluate))
  {
    var spec := SpecOf(o, evaluate);
    forall j | spec.waiting(j) ensures P.Progresses(spec, j) {
      TickProgress(o, evaluate, j);
      assert spec.evaluate(spec.key(j)) == OwnEvaluation(evaluate, j);
      match Tick(o, j, OwnEvaluation(evaluate, j)) {
        case Again(k) => TickProgressLeft(o, evaluate, k);
        case Failed =>
        case Finished(_) =>
      }
    }
  }

  lemma TickProgressLeft(o: Options, evaluate: Evaluator, k: Owned)
    requires Waiting(o, evaluate, k)
    ensures Measure(o, k) > 0
  {
    MeasureNonNegative(o, k);
  }

  /** A request: its metadata and its opening position. */
  datatype Request = Request(meta: Metadata, opening: Grid)

  function Started(requests: seq<Request>): seq<Owned> {
    seq(|requests|, i requires 0 <= i < |requests| => Owned(requests[i].meta, NewGame(requests[i].opening)))
  }

  lemma StartedWaiting(o: Options, evaluate: Evaluator, requests: seq<Request>)
    requires ValidOptions(o)
    ensures P.AllWaiting(SpecOf(o, evaluate), Started(requests))
  {
    forall i | 0 <= i < |requests| ensures SpecOf(o, evaluate).waiting(Started(requests)[i]) {
      NewGameWaits(o, evaluate, requests[i].meta, requests[i].opening);
    }
  }

  /**
   What a request's result is: its game played alone, with each leaf evaluated by itself. It takes at
   most `n * (43 - p)` evaluations from ply `p`.
   */
  ghost function Solo(o: Options, evaluate: Evaluator, request: Request): GameResult
    requires ValidOptions(o) && ValidEvaluator(evaluate)
  {
    SpecSane(o, evaluate);
    NewGameWaits(o, evaluate, request.meta, request.opening);
    P.Solo(SpecOf(o, evaluate), Owned(request.meta, NewGame(request.opening)))
  }

  lemma SoloEvaluations(o: Options, evaluate: Evaluator, request: Request)
    requires ValidOptions(o) && ValidEvaluator(evaluate)
    ensures var j := Owned(request.meta, NewGame(request.opening));
            && P.Sane(SpecOf(o, evaluate)) && SpecOf(o, evaluate).waiting(j)
            && P.Evaluations(SpecOf(o, evaluate), j) <= o.iterations * (43 - Ply(request.opening))
  {
    SpecSane(o, evaluate);
    NewGameWaits(o, evaluate, request.meta, request.opening);
    P.EvaluationsBounded(SpecOf(o, evaluate), Owned(request.meta, NewGame(request.opening)));
  }

  /**
   For any number of workers, any batch limit and any interleaving, self-play returns one result per
   request, and it is the request's solo result.
   */
  lemma ResultsIndependentOfScheduling(o: Options, evaluate: Evaluator, requests: seq<Request>, workers: nat,
                                       schedule: seq<P.Action>)
    requires ValidOptions(o) && ValidEvaluator(evaluate) && requests != [] && workers > 0
    requires P.Run(SpecOf(o, evaluate), |requests|, P.Initial(Started(requests), workers), schedule).Some?
    requires P.Stuck(|requests|,
                     P.Run(SpecOf(o, evaluate), |requests|, P.Initial(Started(requests), workers), schedule).value)
    ensures var s := P.Run(SpecOf(o, evaluate), |requests|, P.Initial(Started(requests), workers), schedule).value;
            && P.AllExited(s) && |s.results| == |requests|
            && (forall id: nat :: id < |requests| ==> P.DoneCount(s.results, id) == 1)
            && forall i :: 0 <= i < |s.results| ==>
                 && s.results[i].id < |requests|
                 && s.results[i].result == Solo(o, evaluate, requests[s.results[i].id])
  {
    SpecSane(o, evaluate);
    StartedWaiting(o, evaluate, requests);
    P.SchedulingIndependence(SpecOf(o, evaluate), Started(requests), workers, schedule);
    var s := P.Run(SpecOf(o, evaluate), |requests|, P.Initial(Started(requests), workers), schedule).value;
    forall i | 0 <= i < |s.results|
      ensures s.results[i].id < |requests|
      ensures s.results[i].result == Solo(o, evaluate, requests[s.results[i].id])
    {
      assert P.GoodResult(SpecOf(o, evaluate), Started(requests), s.results[i].id, s.results[i].result);
    }
  }
}
