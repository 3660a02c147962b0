/**
 The self-play pipeline of `cpp/src/self_play.cpp` as a state machine: a neural thread, any number of
 workers and two queues pass N games around. The games and the evaluator are parameters; every
 interleaving, every batch choice and every number of workers gives each request the result of
 running its game alone.
 */
module Pipeline {
  import opened Board
  import opened Steps

  /**
   One game's own behaviour: `key` is its selected leaf with the model to ask, `tick` what a worker does
   with an evaluation, `waiting` what holds between passes and `left` a bound on the passes to come.
   */
  datatype Spec<!G, !K, !E, R> = Spec(key: G -> K, evaluate: K -> E, tick: (G, E) -> Progress<G, R>,
                                     waiting: G -> bool, left: G -> nat)

  /** A pass over a waiting game with its own evaluation succeeds and uses up some of what is left. */
  predicate Progresses<G, K, E, R>(spec: Spec<G, K, E, R>, g: G) {
    spec.left(g) > 0 &&
    match spec.tick(g, spec.evaluate(spec.key(g)))
    case Failed => false
    case Again(h) => spec.waiting(h) && spec.left(h) < spec.left(g)
    case Finished(_) => true
  }

  ghost predicate Sane<G(!new), K, E, R>(spec: Spec<G, K, E, R>) {
    forall g :: spec.waiting(g) ==> Progresses(spec, g)
  }

  /** Running one game alone. */
  ghost function Solo<G(!new), K, E, R>(spec: Spec<G, K, E, R>, g: G): R
    requires Sane(spec) && spec.waiting(g)
    decreases spec.left(g)
  {
    assert Progresses(spec, g);
    match spec.tick(g, spec.evaluate(spec.key(g)))
    case Again(h) => Solo(spec, h)
    case Finished(r) => r
  }

  /** The evaluations a game needs when run alone. */
  ghost function Evaluations<G(!new), K, E, R>(spec: Spec<G, K, E, R>, g: G): nat
    requires Sane(spec) && spec.waiting(g)
    decreases spec.left(g)
  {
    assert Progresses(spec, g);
    match spec.tick(g, spec.evaluate(spec.key(g)))
    case Again(h) => 1 + Evaluations(spec, h)
    case Finished(r) => 1
  }

  lemma {:induction false} EvaluationsBounded<G(!new), K, E, R>(spec: Spec<G, K, E, R>, g: G)
    requires Sane(spec) && spec.waiting(g)
    ensures Evaluations(spec, g) <= spec.left(g)
    decreases spec.left(g)
  {
    assert Progresses(spec, g);
    match spec.tick(g, spec.evaluate(spec.key(g))) {
      case Again(h) => EvaluationsBounded(spec, h);
      case Finished(_) =>
    }
  }

  // ----- states ---------------------------------------------------------------------------------

  /** A game with the index of its request. */
  datatype Ticket<G> = Ticket(id: nat, game: G)

  /** A game on its way to a worker with the evaluation of its leaf. */
  datatype Job<G, E> = Job(id: nat, game: G, evaluation: E)

  /** Where the neural thread is in its loop. */
  datatype Neural<G, E> = AtTop | AtDrain | AtSelect | AtPush(ready: seq<Job<G, E>>) | NeuralExited

  /** What a worker is doing. */
  datatype Worker<G, E, R> =
    | Idle
    | Holding(job: Job<G, E>)
    | Returning(ticket: Ticket<G>)
    | Storing(id: nat, result: R)
    | Counting
    | ClosingNeural
    | ClosingMcts
    | Exited

  datatype Done<R> = Done(id: nat, result: R)

  datatype State<G, E, R> = State(
    neuralQueue: seq<Ticket<G>>, pending: seq<Ticket<G>>, neural: Neural<G, E>,
    mctsQueue: seq<Job<G, E>>, workers: seq<Worker<G, E, R>>, results: seq<Done<R>>,
    remaining: nat, neuralClosed: bool, mctsClosed: bool)

  /** All requests queued, all threads started. */
  function Initial<G, E, R>(games: seq<G>, workers: nat): State<G, E, R> {
    State(seq(|games|, i requires 0 <= i < |games| => Ticket(i, games[i])), [], AtTop, [],
          seq(workers, _ => Idle), [], |games|, false, false)
  }

  /** The jobs of the picked games, in order. */
  function Picked<G, K, E, R>(spec: Spec<G, K, E, R>, pending: seq<Ticket<G>>, pick: seq<bool>): seq<Job<G, E>>
    requires |pick| == |pending|
  {
    if pending == [] then []
    else
      var n := |pending| - 1;
      var before := Picked(spec, pending[..n], pick[..n]);
      var t := pending[n];
      if pick[n] then before + [Job(t.id, t.game, spec.evaluate(spec.key(t.game)))] else before
  }

  /** The games left pending. */
  function Left<G>(pending: seq<Ticket<G>>, pick: seq<bool>): seq<Ticket<G>>
    requires |pick| == |pending|
  {
    if pending == [] then []
    else
      var n := |pending| - 1;
      var before := Left(pending[..n], pick[..n]);
      if pick[n] then before else before + [pending[n]]
  }

  datatype Action =
    | NeuralPop | NeuralSkip | NeuralDrain | NeuralSelect(pick: seq<bool>) | NeuralPush | NeuralExit
    | Pop(w: nat) | Tick(w: nat) | Return(w: nat) | Store(w: nat) | Count(w: nat)
    | CloseNeural(w: nat) | CloseMcts(w: nat) | Exit(w: nat)

  predicate At<G, E, R>(s: State<G, E, R>, w: nat) {
    w < |s.workers|
  }

  /** The guards: a blocking queue call is enabled when it would not wait. `capacity` is both queues'. */
  predicate Enabled<G, E, R>(capacity: nat, s: State<G, E, R>, a: Action) {
    match a
    case NeuralPop => s.neural.AtTop? && s.pending == [] && s.neuralQueue != []
    case NeuralSkip => s.neural.AtTop? && s.pending != []
    case NeuralDrain => s.neural.AtDrain?
    case NeuralSelect(pick) => s.neural.AtSelect? && |pick| == |s.pending| && true in pick
    case NeuralPush => s.neural.AtPush? && !s.mctsClosed && |s.mctsQueue| + |s.neural.ready| <= capacity
    case NeuralExit => s.neural.AtTop? && s.pending == [] && s.neuralQueue == [] && s.neuralClosed
    case Pop(w) => At(s, w) && s.workers[w].Idle? && s.mctsQueue != []
    case Tick(w) => At(s, w) && s.workers[w].Holding?
    case Return(w) => At(s, w) && s.workers[w].Returning? && !s.neuralClosed && |s.neuralQueue| < capacity
    case Store(w) => At(s, w) && s.workers[w].Storing?
    case Count(w) => At(s, w) && s.workers[w].Counting? && s.remaining > 0
    case CloseNeural(w) => At(s, w) && s.workers[w].ClosingNeural?
    case CloseMcts(w) => At(s, w) && s.workers[w].ClosingMcts?
    case Exit(w) => At(s, w) && s.workers[w].Idle? && s.mctsQueue == [] && s.mctsClosed
  }

  /** A worker after its pass over a job; a failed pass stops the whole run and is not modelled. */
  function Passed<G, K, E, R>(spec: Spec<G, K, E, R>, job: Job<G, E>): Worker<G, E, R> {
    match spec.tick(job.game, job.evaluation)
    case Failed => Holding(job)
    case Again(g) => Returning(Ticket(job.id, g))
    case Finished(r) => Storing(job.id, r)
  }

  function Apply<G, K, E, R>(spec: Spec<G, K, E, R>, capacity: nat, s: State<G, E, R>, a: Action): State<G, E, R>
    requires Enabled(capacity, s, a)
  {
    match a
    case NeuralPop => s.(neural := AtDrain, pending := [s.neuralQueue[0]], neuralQueue := s.neuralQueue[1..])
    case NeuralSkip => s.(neural := AtDrain)
    case NeuralDrain => s.(neural := AtSelect, pending := s.pending + s.neuralQueue, neuralQueue := [])
    case NeuralSelect(pick) => s.(neural := AtPush(Picked(spec, s.pending, pick)), pending := Left(s.pending, pick))
    case NeuralPush => s.(neural := AtTop, mctsQueue := s.mctsQueue + s.neural.ready)
    case NeuralExit => s.(neural := NeuralExited)
    case Pop(w) => s.(workers := s.workers[w := Holding(s.mctsQueue[0])], mctsQueue := s.mctsQueue[1..])
    case Tick(w) => s.(workers := s.workers[w := Passed(spec, s.workers[w].job)])
    case Return(w) => s.(workers := s.workers[w := Idle], neuralQueue := s.neuralQueue + [s.workers[w].ticket])
    case Store(w) =>
      s.(workers := s.workers[w := Counting], results := s.results + [Done(s.workers[w].id, s.workers[w].result)])
    case Count(w) =>
      s.(workers := s.workers[w := if s.remaining == 1 then ClosingNeural else Idle], remaining := s.remaining - 1)
    case CloseNeural(w) => s.(workers := s.workers[w := ClosingMcts], neuralClosed := true)
    case CloseMcts(w) => s.(workers := s.workers[w := Exited], mctsClosed := true)
    case Exit(w) => s.(workers := s.workers[w := Exited])
  }

  // ----- conservation: which game is where --------------------------------------------------------

  function One(same: bool): nat {
    if same then 1 else 0
  }

  function TicketCount<G>(q: seq<Ticket<G>>, id: nat): nat {
    if q == [] then 0 else TicketCount(q[..|q| - 1], id) + One(q[|q| - 1].id == id)
  }

  function JobCount<G, E>(q: seq<Job<G, E>>, id: nat): nat {
    if q == [] then 0 else JobCount(q[..|q| - 1], id) + One(q[|q| - 1].id == id)
  }

  function DoneCount<R>(q: seq<Done<R>>, id: nat): nat {
    if q == [] then 0 else DoneCount(q[..|q| - 1], id) + One(q[|q| - 1].id == id)
  }

  /** A worker has at most one game in hand. */
  predicate HasGame<G, E, R>(w: Worker<G, E, R>) {
    w.Holding? || w.Returning? || w.Storing?
  }

  function GameId<G, E, R>(w: Worker<G, E, R>): nat
    requires HasGame(w)
  {
    match w case Holding(job) => job.id case Returning(ticket) => ticket.id case Storing(id, _) => id
  }

  function WorkerCount<G, E, R>(w: Worker<G, E, R>, id: nat): nat {
    One(HasGame(w) && GameId(w) == id)
  }

  function HandCount<G, E, R>(ws: seq<Worker<G, E, R>>, id: nat): nat {
    if ws == [] then 0 else HandCount(ws[..|ws| - 1], id) + WorkerCount(ws[|ws| - 1], id)
  }

  function HandSize<G, E, R>(ws: seq<Worker<G, E, R>>): nat {
    if ws == [] then 0 else HandSize(ws[..|ws| - 1]) + One(HasGame(ws[|ws| - 1]))
  }

  function Ready<G, E>(n: Neural<G, E>): seq<Job<G, E>> {
    if n.AtPush? then n.ready else []
  }

  /** How often a game occurs over all places. */
  function PlaceCount<G, E, R>(s: State<G, E, R>, id: nat): nat {
    TicketCount(s.neuralQueue, id) + TicketCount(s.pending, id) + JobCount(Ready(s.neural), id)
    + JobCount(s.mctsQueue, id) + HandCount(s.workers, id) + DoneCount(s.results, id)
  }

  /** How many games there are over all places. */
  function PlaceSize<G, E, R>(s: State<G, E, R>): nat {
    |s.neuralQueue| + |s.pending| + |Ready(s.neural)| + |s.mctsQueue| + HandSize(s.workers) + |s.results|
  }

  lemma {:induction false} TicketCountAppend<G>(p: seq<Ticket<G>>, q: seq<Ticket<G>>, id: nat)
    ensures TicketCount(p + q, id) == TicketCount(p, id) + TicketCount(q, id)
  {
    if q == [] {
      assert p + q == p;
    } else {
      var n := |q| - 1;
      assert (p + q)[..|p + q| - 1] == p + q[..n];
      TicketCountAppend(p, q[..n], id);
    }
  }

  lemma {:induction false} JobCountAppend<G, E>(p: seq<Job<G, E>>, q: seq<Job<G, E>>, id: nat)
    ensures JobCount(p + q, id) == JobCount(p, id) + JobCount(q, id)
  {
    if q == [] {
      assert p + q == p;
    } else {
      var n := |q| - 1;
      assert (p + q)[..|p + q| - 1] == p + q[..n];
      JobCountAppend(p, q[..n], id);
    }
  }

  lemma TicketCountHead<G>(q: seq<Ticket<G>>, id: nat)
    requires q != []
    ensures TicketCount(q, id) == One(q[0].id == id) + TicketCount(q[1..], id)
    ensures TicketCount([q[0]], id) == One(q[0].id == id)
  {
    assert q == [q[0]] + q[1..];
    TicketCountAppend([q[0]], q[1..], id);
  }

  lemma JobCountHead<G, E>(q: seq<Job<G, E>>, id: nat)
    requires q != []
    ensures JobCount(q, id) == One(q[0].id == id) + JobCount(q[1..], id)
  {
    assert q == [q[0]] + q[1..];
    JobCountAppend([q[0]], q[1..], id);
    assert JobCount([q[0]], id) == One(q[0].id == id);
  }

  lemma {:induction false} SplitCount<G, K, E, R>(spec: Spec<G, K, E, R>, pending: seq<Ticket<G>>, pick: seq<bool>,
                                                  id: nat)
    requires |pick| == |pending|
    ensures JobCount(Picked(spec, pending, pick), id) + TicketCount(Left(pending, pick), id) == TicketCount(pending, id)
  {
    if pending != [] {
      var n := |pending| - 1;
      SplitCount(spec, pending[..n], pick[..n], id);
      var t := pending[n];
      if pick[n] {
        var before := Picked(spec, pending[..n], pick[..n]);
        assert (before + [Job(t.id, t.game, spec.evaluate(spec.key(t.game)))])[..|before|] == before;
      } else {
        var before := Left(pending[..n], pick[..n]);
        assert (before + [t])[..|before|] == before;
      }
    }
  }

  /** One worker changes: the others' games stay where they are. */
  lemma {:induction false} HandUpdate<G, E, R>(ws: seq<Worker<G, E, R>>, w: nat, h: Worker<G, E, R>, id: nat)
    requires w < |ws|
    ensures HandCount(ws[w := h], id) + WorkerCount(ws[w], id) == HandCount(ws, id) + WorkerCount(h, id)
    ensures HandSize(ws[w := h]) + One(HasGame(ws[w])) == HandSize(ws) + One(HasGame(h))
  {
    var n := |ws| - 1;
    if w == n {
      assert ws[w := h][..n] == ws[..n];
    } else {
      assert ws[w := h][..n] == ws[..n][w := h];
      HandUpdate(ws[..n], w, h, id);
    }
  }

  lemma DoneCountSnoc<R>(q: seq<Done<R>>, d: Done<R>, id: nat)
    ensures DoneCount(q + [d], id) == DoneCount(q, id) + One(d.id == id)
  {
    assert (q + [d])[..|q|] == q;
  }

  // ----- the invariant --------------------------------------------------------------------------

  ghost predicate GoodTicket<G(!new), K, E, R>(spec: Spec<G, K, E, R>, games: seq<G>, id: nat, game: G)
    requires Sane(spec) && AllWaiting(spec, games)
  {
    id < |games| && spec.waiting(game) && Solo(spec, game) == Solo(spec, games[id])
  }

  ghost predicate AllWaiting<G, K, E, R>(spec: Spec<G, K, E, R>, games: seq<G>) {
    forall i :: 0 <= i < |games| ==> spec.waiting(games[i])
  }

  ghost predicate GoodJob<G(!new), K, E, R>(spec: Spec<G, K, E, R>, games: seq<G>, job: Job<G, E>)
    requires Sane(spec) && AllWaiting(spec, games)
  {
    GoodTicket(spec, games, job.id, job.game) && job.evaluation == spec.evaluate(spec.key(job.game))
  }

  ghost predicate GoodResult<G(!new), K, E, R>(spec: Spec<G, K, E, R>, games: seq<G>, id: nat, result: R)
    requires Sane(spec) && AllWaiting(spec, games)
  {
    id < |games| && result == Solo(spec, games[id])
  }

  ghost predicate GoodWorker<G(!new), K, E, R>(spec: Spec<G, K, E, R>, games: seq<G>, w: Worker<G, E, R>)
    requires Sane(spec) && AllWaiting(spec, games)
  {
    match w
    case Holding(job) => GoodJob(spec, games, job)
    case Returning(ticket) => GoodTicket(spec, games, ticket.id, ticket.game)
    case Storing(id, result) => GoodResult(spec, games, id, result)
    case _ => true
  }

  ghost predicate GoodTickets<G(!new), K, E, R>(spec: Spec<G, K, E, R>, games: seq<G>, q: seq<Ticket<G>>)
    requires Sane(spec) && AllWaiting(spec, games)
  {
    forall i :: 0 <= i < |q| ==> GoodTicket(spec, games, q[i].id, q[i].game)
  }

  ghost predicate GoodJobs<G(!new), K, E, R>(spec: Spec<G, K, E, R>, games: seq<G>, q: seq<Job<G, E>>)
    requires Sane(spec) && AllWaiting(spec, games)
  {
    forall i :: 0 <= i < |q| ==> GoodJob(spec, games, q[i])
  }

  /** Every game in flight still has its request's solo result ahead; every result is that result. */
  ghost predicate Faithful<G(!new), K, E, R>(spec: Spec<G, K, E, R>, games: seq<G>, s: State<G, E, R>)
    requires Sane(spec) && AllWaiting(spec, games)
  {
    && GoodTickets(spec, games, s.neuralQueue) && GoodTickets(spec, games, s.pending)
    && GoodJobs(spec, games, Ready(s.neural)) && GoodJobs(spec, games, s.mctsQueue)
    && (forall w :: 0 <= w < |s.workers| ==> GoodWorker(spec, games, s.workers[w]))
    && (forall i :: 0 <= i < |s.results| ==> GoodResult(spec, games, s.results[i].id, s.results[i].result))
  }

  function CountingWorkers<G, E, R>(ws: seq<Worker<G, E, R>>): nat {
    if ws == [] then 0 else CountingWorkers(ws[..|ws| - 1]) + if ws[|ws| - 1].Counting? then 1 else 0
  }

  /** The completion count and the closing protocol. */
  ghost predicate Accounts<G, E, R>(n: nat, s: State<G, E, R>) {
    && (forall id: nat :: PlaceCount(s, id) == One(id < n))
    && PlaceSize(s) == n
    && s.remaining + |s.results| == n + CountingWorkers(s.workers)
    && (s.neural.AtDrain? || s.neural.AtSelect? ==> s.pending != [])
    && (s.neural.AtPush? ==> s.neural.ready != [])
    && (s.remaining > 0 ==> !s.neuralClosed && !s.mctsClosed)
    && (s.mctsClosed ==> s.neuralClosed)
    && (s.neural.NeuralExited? ==> s.neuralClosed)
    && (forall w :: 0 <= w < |s.workers| ==> InPhase(s, s.workers[w]))
    && (s.remaining == 0 && !s.neuralClosed ==> exists w :: 0 <= w < |s.workers| && s.workers[w].ClosingNeural?)
    && (s.neuralClosed && !s.mctsClosed ==> exists w :: 0 <= w < |s.workers| && s.workers[w].ClosingMcts?)
  }

  predicate InPhase<G, E, R>(s: State<G, E, R>, w: Worker<G, E, R>) {
    && (w.ClosingNeural? ==> s.remaining == 0)
    && (w.ClosingMcts? ==> s.neuralClosed)
    && (w.Exited? ==> s.mctsClosed)
  }

  lemma {:induction false} CountingUpdate<G, E, R>(ws: seq<Worker<G, E, R>>, w: nat, h: Worker<G, E, R>)
    requires w < |ws|
    ensures CountingWorkers(ws[w := h]) + (if ws[w].Counting? then 1 else 0)
         == CountingWorkers(ws) + if h.Counting? then 1 else 0
  {
    var n := |ws| - 1;
    if w == n {
      assert ws[w := h][..n] == ws[..n];
    } else {
      assert ws[w := h][..n] == ws[..n][w := h];
      CountingUpdate(ws[..n], w, h);
    }
  }

  lemma {:induction false} CountingPositive<G, E, R>(ws: seq<Worker<G, E, R>>, w: nat)
    requires w < |ws| && ws[w].Counting?
    ensures CountingWorkers(ws) > 0
  {
    if w < |ws| - 1 {
      CountingPositive(ws[..|ws| - 1], w);
    }
  }

  // ----- consequences ---------------------------------------------------------------------------

  lemma {:induction false} HandSizeHold<G, E, R>(ws: seq<Worker<G, E, R>>, w: nat)
    requires w < |ws| && HasGame(ws[w])
    ensures HandSize(ws) > 0
  {
    if w < |ws| - 1 {
      HandSizeHold(ws[..|ws| - 1], w);
    }
  }

  /** With both queues of capacity N no push ever has to wait. */
  lemma PushNeverBlocks<G, E, R>(n: nat, s: State<G, E, R>, w: nat)
    requires Accounts(n, s)
    ensures s.neural.AtPush? ==> |s.mctsQueue| + |s.neural.ready| <= n
    ensures w < |s.workers| && s.workers[w].Returning? ==> |s.neuralQueue| < n
  {
    if w < |s.workers| && s.workers[w].Returning? {
      HandSizeHold(s.workers, w);
    }
  }

  /** Once the count is zero every game has its result and no game is anywhere else. */
  lemma AllDone<G, E, R>(n: nat, s: State<G, E, R>)
    requires Accounts(n, s) && s.remaining == 0
    ensures |s.results| == n && CountingWorkers(s.workers) == 0
    ensures s.neuralQueue == [] && s.pending == [] && Ready(s.neural) == [] && s.mctsQueue == []
    ensures forall w :: 0 <= w < |s.workers| ==> !HasGame(s.workers[w])
  {
    assert HandSize(s.workers) == 0;
    forall w | 0 <= w < |s.workers| ensures !HasGame(s.workers[w]) {
      if HasGame(s.workers[w]) {
        HandSizeHold(s.workers, w);
      }
    }
  }

  /** The last completion closes the queues only when nothing is left in them: closing drops no game. */
  lemma ClosingDropsNothing<G, E, R>(n: nat, s: State<G, E, R>)
    requires Accounts(n, s) && (s.neuralClosed || s.mctsClosed)
    ensures s.neuralQueue == [] && s.pending == [] && Ready(s.neural) == [] && s.mctsQueue == [] && |s.results| == n
    ensures forall w :: 0 <= w < |s.workers| ==> !HasGame(s.workers[w])
  {
    AllDone(n, s);
  }

  // ----- every step keeps the invariant ---------------------------------------------------------

  lemma NeuralKeepsPlaces<G, K, E, R>(spec: Spec<G, K, E, R>, capacity: nat, s: State<G, E, R>, a: Action, id: nat)
    requires Enabled(capacity, s, a) && Actor(a).None?
    ensures PlaceCount(Apply(spec, capacity, s, a), id) == PlaceCount(s, id)
    ensures PlaceSize(Apply(spec, capacity, s, a)) == PlaceSize(s)
  {
    match a {
      case NeuralPop => TicketCountHead(s.neuralQueue, id);
      case NeuralSkip =>
      case NeuralDrain => TicketCountAppend(s.pending, s.neuralQueue, id);
      case NeuralSelect(pick) =>
        SplitCount(spec, s.pending, pick, id);
        PickedSize(spec, s.pending, pick);
      case NeuralPush => JobCountAppend(s.mctsQueue, s.neural.ready, id);
      case NeuralExit =>
    }
  }

  lemma WorkerKeepsPlaces<G, K, E, R>(spec: Spec<G, K, E, R>, capacity: nat, s: State<G, E, R>, a: Action, w: nat,
                                      id: nat)
    requires Enabled(capacity, s, a) && Actor(a) == Some(w)
    ensures PlaceCount(Apply(spec, capacity, s, a), id) == PlaceCount(s, id)
    ensures PlaceSize(Apply(spec, capacity, s, a)) == PlaceSize(s)
  {
    var r := Apply(spec, capacity, s, a);
    HandUpdate(s.workers, w, r.workers[w], id);
    assert r.workers == s.workers[w := r.workers[w]];
    if a.Pop? {
      JobCountHead(s.mctsQueue, id);
    } else if a.Return? {
      ReturnKeepsPlaces(spec, capacity, s, w, id);
    } else if a.Store? {
      DoneCountSnoc(s.results, Done(s.workers[w].id, s.workers[w].result), id);
    }
  }

  lemma ReturnKeepsPlaces<G, K, E, R>(spec: Spec<G, K, E, R>, capacity: nat, s: State<G, E, R>, w: nat, id: nat)
    requires Enabled(capacity, s, Return(w))
    ensures PlaceCount(Apply(spec, capacity, s, Return(w)), id) == PlaceCount(s, id)
    ensures PlaceSize(Apply(spec, capacity, s, Return(w))) == PlaceSize(s)
  {
    HandUpdate(s.workers, w, Idle, id);
    TicketCountAppend(s.neuralQueue, [s.workers[w].ticket], id);
    TicketCountHead([s.workers[w].ticket], id);
  }

  /** The worker that takes a step, if one does. */
  function Actor(a: Action): Option<nat> {
    match a
    case Pop(w) => Some(w)
    case Tick(w) => Some(w)
    case Return(w) => Some(w)
    case Store(w) => Some(w)
    case Count(w) => Some(w)
    case CloseNeural(w) => Some(w)
    case CloseMcts(w) => Some(w)
    case Exit(w) => Some(w)
    case _ => None
  }

  /** No step loses or copies a game. */
  lemma StepKeepsPlaces<G, K, E, R>(spec: Spec<G, K, E, R>, capacity: nat, s: State<G, E, R>, a: Action, id: nat)
    requires Enabled(capacity, s, a)
    ensures PlaceCount(Apply(spec, capacity, s, a), id) == PlaceCount(s, id)
    ensures PlaceSize(Apply(spec, capacity, s, a)) == PlaceSize(s)
  {
    match Actor(a) {
      case None => NeuralKeepsPlaces(spec, capacity, s, a, id);
      case Some(w) => WorkerKeepsPlaces(spec, capacity, s, a, w, id);
    }
  }

  lemma StepKeepsPhase<G, K, E, R>(spec: Spec<G, K, E, R>, n: nat, s: State<G, E, R>, a: Action)
    requires Enabled(n, s, a) && Accounts(n, s)
    ensures var r := Apply(spec, n, s, a);
            && (r.remaining > 0 ==> !r.neuralClosed && !r.mctsClosed)
            && (r.mctsClosed ==> r.neuralClosed)
            && (r.neural.NeuralExited? ==> r.neuralClosed)
            && forall w :: 0 <= w < |r.workers| ==> InPhase(r, r.workers[w])
  {
  }

  lemma StepKeepsClosers<G, K, E, R>(spec: Spec<G, K, E, R>, n: nat, s: State<G, E, R>, a: Action)
    requires Enabled(n, s, a) && Accounts(n, s)
    ensures var r := Apply(spec, n, s, a);
            && (r.remaining == 0 && !r.neuralClosed ==> exists w :: 0 <= w < |r.workers| && r.workers[w].ClosingNeural?)
            && (r.neuralClosed && !r.mctsClosed ==> exists w :: 0 <= w < |r.workers| && r.workers[w].ClosingMcts?)
  {
    var r := Apply(spec, n, s, a);
    if r.remaining == 0 && !r.neuralClosed {
      if s.remaining == 0 {
        var w :| 0 <= w < |s.workers| && s.workers[w].ClosingNeural?;
        assert r.workers[w].ClosingNeural?;
      } else {
        assert r.workers[a.w].ClosingNeural?;
      }
    }
    if r.neuralClosed && !r.mctsClosed {
      if s.neuralClosed {
        var w :| 0 <= w < |s.workers| && s.workers[w].ClosingMcts?;
        assert r.workers[w].ClosingMcts?;
      } else {
        assert r.workers[a.w].ClosingMcts?;
      }
    }
  }

  lemma StepKeepsCount<G, K, E, R>(spec: Spec<G, K, E, R>, n: nat, s: State<G, E, R>, a: Action)
    requires Enabled(n, s, a) && Accounts(n, s)
    ensures var r := Apply(spec, n, s, a);
            r.remaining + |r.results| == n + CountingWorkers(r.workers)
  {
    match Actor(a) {
      case None =>
      case Some(w) => CountingUpdate(s.workers, w, Apply(spec, n, s, a).workers[w]);
    }
  }

  lemma {:induction false} PickedSize<G, K, E, R>(spec: Spec<G, K, E, R>, pending: seq<Ticket<G>>, pick: seq<bool>)
    requires |pick| == |pending|
    ensures |Picked(spec, pending, pick)| + |Left(pending, pick)| == |pending|
    ensures true in pick ==> Picked(spec, pending, pick) != []
  {
    if pending != [] {
      var n := |pending| - 1;
      PickedSize(spec, pending[..n], pick[..n]);
      assert pick == pick[..n] + [pick[n]];
    }
  }

  lemma StepKeepsAccounts<G, K, E, R>(spec: Spec<G, K, E, R>, n: nat, s: State<G, E, R>, a: Action)
    requires Enabled(n, s, a) && Accounts(n, s)
    ensures Accounts(n, Apply(spec, n, s, a))
  {
    forall id: nat ensures PlaceCount(Apply(spec, n, s, a), id) == One(id < n) {
      StepKeepsPlaces(spec, n, s, a, id);
      assert PlaceCount(s, id) == One(id < n);
    }
    StepKeepsPlaces(spec, n, s, a, 0);
    StepKeepsPhase(spec, n, s, a);
    StepKeepsClosers(spec, n, s, a);
    StepKeepsCount(spec, n, s, a);
    if a.NeuralSelect? {
      PickedSize(spec, s.pending, a.pick);
    }
  }

  lemma {:induction false} PickedGood<G(!new), K, E, R>(spec: Spec<G, K, E, R>, games: seq<G>, pending: seq<Ticket<G>>,
                                                        pick: seq<bool>)
    requires Sane(spec) && AllWaiting(spec, games) && |pick| == |pending| && GoodTickets(spec, games, pending)
    ensures GoodJobs(spec, games, Picked(spec, pending, pick))
    ensures GoodTickets(spec, games, Left(pending, pick))
  {
    if pending != [] {
      var n := |pending| - 1;
      PickedGood(spec, games, pending[..n], pick[..n]);
    }
  }

  /** A pass with the game's own evaluation leaves the solo result ahead unchanged. */
  lemma PassedGood<G(!new), K, E, R>(spec: Spec<G, K, E, R>, games: seq<G>, job: Job<G, E>)
    requires Sane(spec) && AllWaiting(spec, games) && GoodJob(spec, games, job)
    ensures GoodWorker(spec, games, Passed(spec, job)) && !Passed(spec, job).Holding?
  {
    assert Progresses(spec, job.game);
  }

  /** Batching, truncation and queueing only delay: every game keeps its solo result ahead. */
  lemma StepKeepsFaithful<G(!new), K, E, R>(spec: Spec<G, K, E, R>, games: seq<G>, capacity: nat, s: State<G, E, R>,
                                            a: Action)
    requires Sane(spec) && AllWaiting(spec, games) && Enabled(capacity, s, a) && Faithful(spec, games, s)
    ensures Faithful(spec, games, Apply(spec, capacity, s, a))
  {
    match a {
      case NeuralSelect(pick) => PickedGood(spec, games, s.pending, pick);
      case Tick(w) =>
        assert GoodWorker(spec, games, s.workers[w]);
        PassedGood(spec, games, s.workers[w].job);
      case Store(w) => assert GoodWorker(spec, games, s.workers[w]);
      case Return(w) => assert GoodWorker(spec, games, s.workers[w]);
      case _ =>
    }
  }

  // ----- no deadlock ----------------------------------------------------------------------------

  predicate AllExited<G, E, R>(s: State<G, E, R>) {
    s.neural.NeuralExited? && forall w :: 0 <= w < |s.workers| ==> s.workers[w].Exited?
  }

  predicate Busy<G, E, R>(w: Worker<G, E, R>) {
    !w.Idle? && !w.Exited?
  }

  lemma NeuralEnabled<G, E, R>(n: nat, s: State<G, E, R>) returns (a: Action)
    requires Accounts(n, s) && !s.neural.NeuralExited?
    requires s.neural.AtTop? ==> s.pending != [] || s.neuralQueue != [] || s.neuralClosed
    ensures Enabled(n, s, a)
  {
    match s.neural {
      case AtTop => a := if s.pending != [] then NeuralSkip else if s.neuralQueue != [] then NeuralPop else NeuralExit;
      case AtDrain => a := NeuralDrain;
      case AtSelect =>
        var pick := seq(|s.pending|, _ => true);
        assert pick[0];
        a := NeuralSelect(pick);
      case AtPush(ready) =>
        PushNeverBlocks(n, s, 0);
        if s.mctsClosed {
          ClosingDropsNothing(n, s);
        }
        a := NeuralPush;
    }
  }

  lemma BusyEnabled<G, E, R>(n: nat, s: State<G, E, R>, w: nat) returns (a: Action)
    requires Accounts(n, s) && w < |s.workers| && Busy(s.workers[w])
    ensures Enabled(n, s, a)
  {
    match s.workers[w] {
      case Holding(_) => a := Tick(w);
      case Returning(_) =>
        PushNeverBlocks(n, s, w);
        if s.neuralClosed {
          ClosingDropsNothing(n, s);
        }
        a := Return(w);
      case Storing(_, _) => a := Store(w);
      case Counting =>
        CountingPositive(s.workers, w);
        if s.remaining == 0 {
          AllDone(n, s);
        }
        a := Count(w);
      case ClosingNeural => a := CloseNeural(w);
      case ClosingMcts => a := CloseMcts(w);
    }
  }

  lemma {:induction false} QuietHands<G, E, R>(ws: seq<Worker<G, E, R>>)
    requires forall w :: 0 <= w < |ws| ==> !Busy(ws[w])
    ensures HandSize(ws) == 0 && CountingWorkers(ws) == 0
  {
    if ws != [] {
      assert !Busy(ws[|ws| - 1]);
      QuietHands(ws[..|ws| - 1]);
    }
  }

  /** While some thread has not finished, some thread can take a step. */
  lemma DeadlockFree<G, E, R>(n: nat, s: State<G, E, R>) returns (a: Action)
    requires Accounts(n, s) && |s.workers| > 0 && !AllExited(s)
    ensures Enabled(n, s, a)
  {
    if w: nat :| w < |s.workers| && Busy(s.workers[w]) {
      a := BusyEnabled(n, s, w);
    } else if !s.neural.NeuralExited?
              && (s.neural.AtTop? ==> s.pending != [] || s.neuralQueue != [] || s.neuralClosed) {
      a := NeuralEnabled(n, s);
    } else {
      QuietHands(s.workers);
      if s.mctsQueue != [] {
        if s.mctsClosed {
          ClosingDropsNothing(n, s);
        }
        assert InPhase(s, s.workers[0]) && !Busy(s.workers[0]);
        a := Pop(0);
      } else {
        AllQuiet(n, s);
        var w: nat :| w < |s.workers| && !s.workers[w].Exited?;
        assert !Busy(s.workers[w]);
        a := Exit(w);
      }
    }
  }

  /** With nothing in flight and nobody busy the run is over and both queues are closed. */
  lemma AllQuiet<G, E, R>(n: nat, s: State<G, E, R>)
    requires Accounts(n, s) && s.mctsQueue == []
    requires forall w :: 0 <= w < |s.workers| ==> !Busy(s.workers[w])
    requires s.neural.NeuralExited?
          || (s.neural.AtTop? && s.pending == [] && s.neuralQueue == [] && !s.neuralClosed)
    ensures s.neural.NeuralExited? && s.mctsClosed
  {
    QuietHands(s.workers);
    NoCloser(s);
  }

  lemma NoCloser<G, E, R>(s: State<G, E, R>)
    requires forall w :: 0 <= w < |s.workers| ==> !Busy(s.workers[w])
    ensures !exists w :: 0 <= w < |s.workers| && s.workers[w].ClosingNeural?
    ensures !exists w :: 0 <= w < |s.workers| && s.workers[w].ClosingMcts?
  {
  }

  // ----- termination ----------------------------------------------------------------------------

  function TicketWork<G, K, E, R>(spec: Spec<G, K, E, R>, q: seq<Ticket<G>>): nat {
    if q == [] then 0 else TicketWork(spec, q[..|q| - 1]) + 40 * spec.left(q[|q| - 1].game)
  }

  function JobWork<G, K, E, R>(spec: Spec<G, K, E, R>, q: seq<Job<G, E>>): nat {
    if q == [] then 0 else JobWork(spec, q[..|q| - 1]) + 40 * spec.left(q[|q| - 1].game)
  }

  function WorkerWork<G, K, E, R>(spec: Spec<G, K, E, R>, w: Worker<G, E, R>): nat {
    match w
    case Holding(job) => 40 * spec.left(job.game) + 8
    case Returning(ticket) => 40 * spec.left(ticket.game) + 28
    case Storing(_, _) => 20
    case Counting => 16
    case ClosingNeural => 12
    case ClosingMcts => 8
    case Idle => 1
    case Exited => 0
  }

  function HandWork<G, K, E, R>(spec: Spec<G, K, E, R>, ws: seq<Worker<G, E, R>>): nat {
    if ws == [] then 0 else HandWork(spec, ws[..|ws| - 1]) + WorkerWork(spec, ws[|ws| - 1])
  }

  function NeuralRank<G, E>(n: Neural<G, E>): nat {
    if n.AtTop? then 2 else if n.AtDrain? then 1 else 0
  }

  /** What is left to do: the games' own passes first, then how far along the loop each one is. */
  function Work<G, K, E, R>(spec: Spec<G, K, E, R>, s: State<G, E, R>): nat {
    TicketWork(spec, s.neuralQueue) + 24 * |s.neuralQueue| + TicketWork(spec, s.pending) + 20 * |s.pending|
    + JobWork(spec, Ready(s.neural)) + 16 * |Ready(s.neural)| + JobWork(spec, s.mctsQueue) + 12 * |s.mctsQueue|
    + HandWork(spec, s.workers) + NeuralRank(s.neural)
  }

  lemma {:induction false} TicketWorkAppend<G, K, E, R>(spec: Spec<G, K, E, R>, p: seq<Ticket<G>>, q: seq<Ticket<G>>)
    ensures TicketWork(spec, p + q) == TicketWork(spec, p) + TicketWork(spec, q)
  {
    if q == [] {
      assert p + q == p;
    } else {
      var n := |q| - 1;
      assert (p + q)[..|p + q| - 1] == p + q[..n];
      TicketWorkAppend(spec, p, q[..n]);
    }
  }

  lemma {:induction false} JobWorkAppend<G, K, E, R>(spec: Spec<G, K, E, R>, p: seq<Job<G, E>>, q: seq<Job<G, E>>)
    ensures JobWork(spec, p + q) == JobWork(spec, p) + JobWork(spec, q)
  {
    if q == [] {
      assert p + q == p;
    } else {
      var n := |q| - 1;
      assert (p + q)[..|p + q| - 1] == p + q[..n];
      JobWorkAppend(spec, p, q[..n]);
    }
  }

  lemma TicketWorkHead<G, K, E, R>(spec: Spec<G, K, E, R>, q: seq<Ticket<G>>)
    requires q != []
    ensures TicketWork(spec, q) == 40 * spec.left(q[0].game) + TicketWork(spec, q[1..])
    ensures TicketWork(spec, [q[0]]) == 40 * spec.left(q[0].game)
  {
    assert q == [q[0]] + q[1..];
    TicketWorkAppend(spec, [q[0]], q[1..]);
  }

  lemma JobWorkHead<G, K, E, R>(spec: Spec<G, K, E, R>, q: seq<Job<G, E>>)
    requires q != []
    ensures JobWork(spec, q) == 40 * spec.left(q[0].game) + JobWork(spec, q[1..])
  {
    assert q == [q[0]] + q[1..];
    JobWorkAppend(spec, [q[0]], q[1..]);
    assert JobWork(spec, [q[0]]) == 40 * spec.left(q[0].game);
  }

  lemma {:induction false} SplitWork<G, K, E, R>(spec: Spec<G, K, E, R>, pending: seq<Ticket<G>>, pick: seq<bool>)
    requires |pick| == |pending|
    ensures JobWork(spec, Picked(spec, pending, pick)) + TicketWork(spec, Left(pending, pick))
         == TicketWork(spec, pending)
  {
    if pending != [] {
      var n := |pending| - 1;
      SplitWork(spec, pending[..n], pick[..n]);
      var t := pending[n];
      if pick[n] {
        var before := Picked(spec, pending[..n], pick[..n]);
        assert (before + [Job(t.id, t.game, spec.evaluate(spec.key(t.game)))])[..|before|] == before;
      } else {
        var before := Left(pending[..n], pick[..n]);
        assert (before + [t])[..|before|] == before;
      }
    }
  }

  lemma {:induction false} HandWorkUpdate<G, K, E, R>(spec: Spec<G, K, E, R>, ws: seq<Worker<G, E, R>>, w: nat,
                                                      h: Worker<G, E, R>)
    requires w < |ws|
    ensures HandWork(spec, ws[w := h]) + WorkerWork(spec, ws[w]) == HandWork(spec, ws) + WorkerWork(spec, h)
  {
    var n := |ws| - 1;
    if w == n {
      assert ws[w := h][..n] == ws[..n];
    } else {
      assert ws[w := h][..n] == ws[..n][w := h];
      HandWorkUpdate(spec, ws[..n], w, h);
    }
  }

  lemma NeuralWorkFalls<G, K, E, R>(spec: Spec<G, K, E, R>, n: nat, s: State<G, E, R>, a: Action)
    requires Enabled(n, s, a) && Accounts(n, s) && Actor(a).None?
    ensures Work(spec, Apply(spec, n, s, a)) < Work(spec, s)
  {
    match a {
      case NeuralPop => TicketWorkHead(spec, s.neuralQueue);
      case NeuralSkip =>
      case NeuralDrain => TicketWorkAppend(spec, s.pending, s.neuralQueue);
      case NeuralSelect(pick) =>
        SplitWork(spec, s.pending, pick);
        PickedSize(spec, s.pending, pick);
      case NeuralPush => JobWorkAppend(spec, s.mctsQueue, s.neural.ready);
      case NeuralExit =>
    }
  }

  lemma PassedWorkFalls<G(!new), K, E, R>(spec: Spec<G, K, E, R>, games: seq<G>, job: Job<G, E>)
    requires Sane(spec) && AllWaiting(spec, games) && GoodJob(spec, games, job)
    ensures WorkerWork(spec, Passed(spec, job)) < WorkerWork<G, K, E, R>(spec, Holding(job))
  {
    assert Progresses(spec, job.game);
  }

  lemma ReturnWorkFalls<G, K, E, R>(spec: Spec<G, K, E, R>, n: nat, s: State<G, E, R>, w: nat)
    requires Enabled(n, s, Return(w))
    ensures Work(spec, Apply(spec, n, s, Return(w))) < Work(spec, s)
  {
    HandWorkUpdate(spec, s.workers, w, Idle);
    TicketWorkAppend(spec, s.neuralQueue, [s.workers[w].ticket]);
    TicketWorkHead(spec, [s.workers[w].ticket]);
  }

  lemma WorkerWorkFalls<G(!new), K, E, R>(spec: Spec<G, K, E, R>, games: seq<G>, n: nat, s: State<G, E, R>, a: Action,
                                          w: nat)
    requires Sane(spec) && AllWaiting(spec, games) && Faithful(spec, games, s)
    requires Enabled(n, s, a) && Accounts(n, s) && Actor(a) == Some(w)
    ensures Work(spec, Apply(spec, n, s, a)) < Work(spec, s)
  {
    if a.Return? {
      ReturnWorkFalls(spec, n, s, w);
    } else {
      HandWorkUpdate(spec, s.workers, w, Apply(spec, n, s, a).workers[w]);
      if a.Pop? {
        JobWorkHead(spec, s.mctsQueue);
      } else if a.Tick? {
        assert GoodWorker(spec, games, s.workers[w]);
        PassedWorkFalls(spec, games, s.workers[w].job);
      }
    }
  }

  /** Every step makes the remaining work smaller. */
  lemma WorkFalls<G(!new), K, E, R>(spec: Spec<G, K, E, R>, games: seq<G>, n: nat, s: State<G, E, R>, a: Action)
    requires Sane(spec) && AllWaiting(spec, games) && Faithful(spec, games, s)
    requires Enabled(n, s, a) && Accounts(n, s)
    ensures Work(spec, Apply(spec, n, s, a)) < Work(spec, s)
  {
    match Actor(a) {
      case None => NeuralWorkFalls(spec, n, s, a);
      case Some(w) => WorkerWorkFalls(spec, games, n, s, a, w);
    }
  }

  // ----- whole runs -----------------------------------------------------------------------------

  /** The state after a schedule; `None` when some step was not enabled. */
  function Run<G, K, E, R>(spec: Spec<G, K, E, R>, n: nat, s: State<G, E, R>,
                           schedule: seq<Action>): Option<State<G, E, R>>
    decreases |schedule|
  {
    if schedule == [] then Some(s)
    else if Enabled(n, s, schedule[0]) then Run(spec, n, Apply(spec, n, s, schedule[0]), schedule[1..])
    else None
  }

  ghost predicate Invariant<G(!new), K, E, R>(spec: Spec<G, K, E, R>, games: seq<G>, s: State<G, E, R>)
    requires Sane(spec) && AllWaiting(spec, games)
  {
    Accounts(|games|, s) && Faithful(spec, games, s)
  }

  lemma {:induction false} InitialCount<G>(q: seq<Ticket<G>>, n: nat, id: nat)
    requires |q| == n && forall i :: 0 <= i < n ==> q[i].id == i
    ensures TicketCount(q, id) == One(id < n)
  {
    if n > 0 {
      InitialCount(q[..n - 1], n - 1, id);
    }
  }

  lemma {:induction false} IdleHands<G, E, R>(ws: seq<Worker<G, E, R>>, id: nat)
    requires forall w :: 0 <= w < |ws| ==> ws[w].Idle?
    ensures HandCount(ws, id) == 0 && HandSize(ws) == 0 && CountingWorkers(ws) == 0
  {
    if ws != [] {
      IdleHands(ws[..|ws| - 1], id);
    }
  }

  lemma InitialInvariant<G(!new), K, E, R>(spec: Spec<G, K, E, R>, games: seq<G>, workers: nat)
    requires Sane(spec) && AllWaiting(spec, games) && games != []
    ensures Invariant(spec, games, Initial<G, E, R>(games, workers))
  {
    var s := Initial<G, E, R>(games, workers);
    forall id: nat ensures PlaceCount(s, id) == One(id < |games|) {
      InitialCount(s.neuralQueue, |games|, id);
      IdleHands(s.workers, id);
    }
    IdleHands(s.workers, 0);
  }

  lemma StepInvariant<G(!new), K, E, R>(spec: Spec<G, K, E, R>, games: seq<G>, s: State<G, E, R>, a: Action)
    requires Sane(spec) && AllWaiting(spec, games) && Invariant(spec, games, s) && Enabled(|games|, s, a)
    ensures Invariant(spec, games, Apply(spec, |games|, s, a))
    ensures |Apply(spec, |games|, s, a).workers| == |s.workers|
  {
    StepKeepsAccounts(spec, |games|, s, a);
    StepKeepsFaithful(spec, games, |games|, s, a);
  }

  /** Along every schedule the invariant holds, and a schedule is no longer than the work it does. */
  lemma {:induction false} RunInvariant<G(!new), K, E, R>(spec: Spec<G, K, E, R>, games: seq<G>, s: State<G, E, R>,
                                                          schedule: seq<Action>)
    requires Sane(spec) && AllWaiting(spec, games) && Invariant(spec, games, s)
    requires Run(spec, |games|, s, schedule).Some?
    ensures var r := Run(spec, |games|, s, schedule).value;
            Invariant(spec, games, r) && |r.workers| == |s.workers| && Work(spec, r) + |schedule| <= Work(spec, s)
    decreases |schedule|
  {
    if schedule != [] {
      WorkFalls(spec, games, |games|, s, schedule[0]);
      StepInvariant(spec, games, s, schedule[0]);
      RunInvariant(spec, games, Apply(spec, |games|, s, schedule[0]), schedule[1..]);
    }
  }

  /** After every schedule each game is in exactly one of the six places, once, and no other game is anywhere. */
  lemma ExactlyOnePlace<G(!new), K, E, R>(spec: Spec<G, K, E, R>, games: seq<G>, workers: nat, schedule: seq<Action>,
                                          id: nat)
    requires Sane(spec) && AllWaiting(spec, games) && games != []
    requires Run(spec, |games|, Initial<G, E, R>(games, workers), schedule).Some?
    ensures var s := Run(spec, |games|, Initial<G, E, R>(games, workers), schedule).value;
            TicketCount(s.neuralQueue, id) + TicketCount(s.pending, id) + JobCount(Ready(s.neural), id)
            + JobCount(s.mctsQueue, id) + HandCount(s.workers, id) + DoneCount(s.results, id)
            == if id < |games| then 1 else 0
  {
    InitialInvariant<G, K, E, R>(spec, games, workers);
    RunInvariant(spec, games, Initial<G, E, R>(games, workers), schedule);
    assert PlaceCount(Run(spec, |games|, Initial<G, E, R>(games, workers), schedule).value, id) == One(id < |games|);
  }

  /** Nothing can move any more. */
  ghost predicate Stuck<G, E, R>(n: nat, s: State<G, E, R>) {
    forall a :: !Enabled(n, s, a)
  }

  /** Exactly one result for each request, and it is the request's solo result. */
  ghost predicate Complete<G(!new), K, E, R>(spec: Spec<G, K, E, R>, games: seq<G>, results: seq<Done<R>>)
    requires Sane(spec) && AllWaiting(spec, games)
  {
    && |results| == |games|
    && (forall id: nat :: id < |games| ==> DoneCount(results, id) == 1)
    && (forall i :: 0 <= i < |results| ==> GoodResult(spec, games, results[i].id, results[i].result))
  }

  /**
   Scheduling independence. For every number of workers, every batch choice and every interleaving: the
   schedule is no longer than the initial work, it can only stop when every thread has exited, and then
   the results are a permutation of the requests, each the result of running that game alone.
   */
  lemma SchedulingIndependence<G(!new), K, E, R>(spec: Spec<G, K, E, R>, games: seq<G>, workers: nat,
                                                 schedule: seq<Action>)
    requires Sane(spec) && AllWaiting(spec, games) && games != [] && workers > 0
    requires Run(spec, |games|, Initial<G, E, R>(games, workers), schedule).Some?
    ensures |schedule| <= Work(spec, Initial<G, E, R>(games, workers))
    ensures var s := Run(spec, |games|, Initial<G, E, R>(games, workers), schedule).value;
            Stuck(|games|, s) ==> AllExited(s) && Complete(spec, games, s.results)
  {
    var start := Initial<G, E, R>(games, workers);
    InitialInvariant(spec, games, workers);
    RunInvariant(spec, games, start, schedule);
    var s := Run(spec, |games|, start, schedule).value;
    if Stuck(|games|, s) {
      if !AllExited(s) {
        var _ := DeadlockFree(|games|, s);
      }
      FinishedComplete(spec, games, s);
    }
  }

  lemma FinishedComplete<G(!new), K, E, R>(spec: Spec<G, K, E, R>, games: seq<G>, s: State<G, E, R>)
    requires Sane(spec) && AllWaiting(spec, games) && Invariant(spec, games, s) && s.neuralClosed
    ensures Complete(spec, games, s.results)
  {
    var n := |games|;
    ClosingDropsNothing(n, s);
    forall id: nat | id < n ensures DoneCount(s.results, id) == 1 {
      assert PlaceCount(s, id) == One(id < n);
      EmptyHands(s.workers, id);
    }
  }

  lemma {:induction false} EmptyHands<G, E, R>(ws: seq<Worker<G, E, R>>, id: nat)
    requires forall w :: 0 <= w < |ws| ==> !HasGame(ws[w])
    ensures HandCount(ws, id) == 0
  {
    if ws != [] {
      EmptyHands(ws[..|ws| - 1], id);
    }
  }
}
