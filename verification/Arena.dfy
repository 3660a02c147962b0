/**
 The arena of `src/c4a0/training_v2.py` (`_run_arena`): candidate and champion play each opening twice
 with colours exchanged, in batches whose results arrive in any order, and the paired gate decides.
 */
module Arenas {
  import opened ArenaStatistics
  import opened Board
  import Batching

  type Opening = seq<nat>

  /**
   Player 0's score of one game, by its id, its opening and the two models. The id matters: it seeds the
   draw among moves with equally many visits.
   */
  type PlayGame = (nat, Opening, nat, nat) -> real

  datatype Request = Request(id: nat, player0: nat, player1: nat, opening: Opening)

  datatype Done = Done(id: nat, player0: nat, score: real)

  ghost predicate Scores(play: PlayGame) {
    forall id, opening, a, b :: IsScore(play(id, opening, a, b))
  }

  /** The candidate's score on opening number `k`, as player 0 in game `2 k + 1` or as player 1 in game `2 k + 2`. */
  function PairScore(play: PlayGame, candidate: nat, champion: nat, opening: Opening, k: nat, asPlayer0: bool): real {
    if asPlayer0 then play(2 * k + 1, opening, candidate, champion)
    else 1.0 - play(2 * k + 2, opening, champion, candidate)
  }

  /** Scores `2 k` and `2 k + 1` are the candidate's on opening `k`, with colours exchanged. */
  predicate PairAt(play: PlayGame, candidate: nat, champion: nat, openings: seq<Opening>, scores: seq<real>, k: nat)
    requires k < |openings| && 2 * k + 1 < |scores|
  {
    && scores[2 * k] == PairScore(play, candidate, champion, openings[k], k, true)
    && scores[2 * k + 1] == PairScore(play, candidate, champion, openings[k], k, false)
  }

  /** The candidate's scores on the first `n` openings, two for each. */
  predicate PairScores(play: PlayGame, candidate: nat, champion: nat, openings: seq<Opening>, n: nat,
                       scores: seq<real>) {
    n <= |openings| && |scores| == 2 * n
    && forall k: nat :: k < n ==> PairAt(play, candidate, champion, openings, scores, k)
  }

  lemma PairScoresAre(play: PlayGame, candidate: nat, champion: nat, openings: seq<Opening>, n: nat, scores: seq<real>)
    requires Scores(play) && PairScores(play, candidate, champion, openings, n, scores)
    ensures AreScores(scores)
  {
    forall i | 0 <= i < 2 * n ensures IsScore(scores[i]) {
      var k := i / 2;
      assert i == 2 * k || i == 2 * k + 1;
      assert PairAt(play, candidate, champion, openings, scores, k);
      assert IsScore(play(2 * k + 1, openings[k], candidate, champion));
      assert IsScore(play(2 * k + 2, openings[k], champion, candidate));
    }
  }

  /**
   Exchanging the roles of candidate and champion exchanges the seeds of the two games as well. It turns
   the bin `b` of a pair into `4 - b` exactly when both ids give the two colourings the same total.
   */
  lemma RolesReversed(play: PlayGame, candidate: nat, champion: nat, openings: seq<Opening>, n: nat,
                      scores: seq<real>, reversed: seq<real>, k: nat)
    requires Scores(play) && k < n
    requires PairScores(play, candidate, champion, openings, n, scores)
    requires PairScores(play, champion, candidate, openings, n, reversed)
    ensures AreScores(scores) && AreScores(reversed)
    ensures PairBins(reversed)[k] == 4 - PairBins(scores)[k] <==> SameTotals(play, candidate, champion, openings[k], k)
  {
    PairScoresAre(play, candidate, champion, openings, n, scores);
    PairScoresAre(play, champion, candidate, openings, n, reversed);
    assert PairAt(play, candidate, champion, openings, scores, k);
    assert PairAt(play, champion, candidate, openings, reversed, k);
  }

  /** Player 0's total over both colourings is the same with the id of either game of the pair. */
  predicate SameTotals(play: PlayGame, candidate: nat, champion: nat, opening: Opening, k: nat) {
    play(2 * k + 1, opening, candidate, champion) + play(2 * k + 1, opening, champion, candidate)
    == play(2 * k + 2, opening, candidate, champion) + play(2 * k + 2, opening, champion, candidate)
  }

  /** Colours are fair when the draws do not depend on the id: then every bin is reflected. */
  lemma RolesReversedWithoutDraws(play: PlayGame, candidate: nat, champion: nat, openings: seq<Opening>, n: nat,
                                  scores: seq<real>, reversed: seq<real>)
    requires Scores(play) && forall i, j, opening, a, b :: play(i, opening, a, b) == play(j, opening, a, b)
    requires PairScores(play, candidate, champion, openings, n, scores)
    requires PairScores(play, champion, candidate, openings, n, reversed)
    ensures AreScores(scores) && AreScores(reversed)
    ensures forall k :: 0 <= k < n ==> PairBins(reversed)[k] == 4 - PairBins(scores)[k]
  {
    PairScoresAre(play, candidate, champion, openings, n, scores);
    PairScoresAre(play, champion, candidate, openings, n, reversed);
    forall k: nat | k < n ensures PairBins(reversed)[k] == 4 - PairBins(scores)[k] {
      RolesReversed(play, candidate, champion, openings, n, scores, reversed, k);
    }
  }

  // ----- one batch ------------------------------------------------------------------------------

  /** The results of a batch in the order of the game ids. */
  function BatchDone(play: PlayGame, candidate: nat, champion: nat, openings: seq<Opening>,
                     first: nat): (done: seq<Done>)
    ensures |done| == 2 * |openings|
    ensures forall i :: 0 <= i < |done| ==> done[i].id == first + i
  {
    seq(2 * |openings|, i requires 0 <= i < 2 * |openings| =>
      if i % 2 == 0 then Done(first + i, candidate, play(first + i, openings[i / 2], candidate, champion))
      else Done(first + i, champion, play(first + i, openings[i / 2], champion, candidate)))
  }

  /** The request loop: two games an opening, consecutive ids, colours exchanged. */
  method MakeRequests(candidate: nat, champion: nat, openings: seq<Opening>,
                      first: nat) returns (requests: seq<Request>)
    ensures |requests| == 2 * |openings|
    ensures forall i :: 0 <= i < |requests| ==>
      requests[i] == if i % 2 == 0 then Request(first + i, candidate, champion, openings[i / 2])
                     else Request(first + i, champion, candidate, openings[i / 2])
  {
    requests := [];
    for k := 0 to |openings|
      invariant |requests| == 2 * k
      invariant forall i :: 0 <= i < |requests| ==>
        requests[i] == if i % 2 == 0 then Request(first + i, candidate, champion, openings[i / 2])
                       else Request(first + i, champion, candidate, openings[i / 2])
    {
      requests := requests + [Request(first + 2 * k, candidate, champion, openings[k]),
                              Request(first + 2 * k + 1, champion, candidate, openings[k])];
    }
  }

  /** What the requests come to, in request order. */
  function Played(play: PlayGame, requests: seq<Request>): (done: seq<Done>)
    ensures |done| == |requests|
  {
    seq(|requests|, i requires 0 <= i < |requests| =>
      Done(requests[i].id, requests[i].player0,
           play(requests[i].id, requests[i].opening, requests[i].player0, requests[i].player1)))
  }

  /** The order in which games finish: any permutation. */
  ghost predicate Permutes(arrival: seq<Done> -> seq<Done>) {
    forall done :: multiset(arrival(done)) == multiset(done)
  }

  predicate ById(a: Done, b: Done) {
    a.id < b.id
  }

  predicate IncreasingIds(s: seq<Done>) {
    forall i, j :: 0 <= i < j < |s| ==> s[i].id < s[j].id
  }

  lemma LastElement(a: seq<Done>, b: seq<Done>)
    requires multiset(a) == multiset(b) && Batching.Ordered(a, ById) && IncreasingIds(b) && a != [] && b != []
    ensures a[|a| - 1] == b[|b| - 1]
  {
    var x, y := a[|a| - 1], b[|b| - 1];
    assert x in multiset(b) && y in multiset(a);
    var i :| 0 <= i < |b| && b[i] == x;
    var j :| 0 <= j < |a| && a[j] == y;
    assert j < |a| - 1 ==> !ById(x, y);
  }

  lemma InitMultiset(a: seq<Done>)
    requires a != []
    ensures multiset(a) == multiset(a[..|a| - 1]) + multiset{a[|a| - 1]}
  {
    assert a == a[..|a| - 1] + [a[|a| - 1]];
  }

  lemma CancelOne(x: multiset<Done>, y: multiset<Done>, d: Done)
    requires x + multiset{d} == y + multiset{d}
    ensures x == y
  {
    assert (x + multiset{d}) - multiset{d} == x;
    assert (y + multiset{d}) - multiset{d} == y;
  }

  /** A list sorted by id is determined by its elements when the ids differ. */
  lemma {:induction false} SortedUnique(a: seq<Done>, b: seq<Done>)
    requires multiset(a) == multiset(b) && Batching.Ordered(a, ById) && IncreasingIds(b)
    ensures a == b
    decreases |a|
  {
    assert |multiset(a)| == |a| && |multiset(b)| == |b|;
    if a != [] {
      LastElement(a, b);
      InitMultiset(a);
      InitMultiset(b);
      CancelOne(multiset(a[..|a| - 1]), multiset(b[..|b| - 1]), a[|a| - 1]);
      SortedUnique(a[..|a| - 1], b[..|b| - 1]);
      assert a == a[..|a| - 1] + [a[|a| - 1]];
      assert b == b[..|b| - 1] + [b[|b| - 1]];
    }
  }

  /** `sorted` by game id: whatever the arrival order, the results are back in request order. */
  method PlayInOrder(play: PlayGame, candidate: nat, champion: nat, openings: seq<Opening>, first: nat,
                     arrival: seq<Done> -> seq<Done>) returns (results: seq<Done>)
    requires Permutes(arrival)
    ensures results == BatchDone(play, candidate, champion, openings, first)
  {
    var requests := MakeRequests(candidate, champion, openings, first);
    var expected := Played(play, requests);
    assert expected == BatchDone(play, candidate, champion, openings, first);
    results := Batching.SortPositions(arrival(expected), ById);
    assert Batching.StrictOrder(ById);
    SortedUnique(results, expected);
  }

  /** The candidate's score of a game. */
  function CandidateScore(done: Done, candidate: nat): real {
    if done.player0 == candidate then done.score else 1.0 - done.score
  }

  datatype Tallies = Tallies(wins: nat, draws: nat, losses: nat)

  /** The counters of a score list. */
  function TalliesOf(scores: seq<real>): (t: Tallies)
    ensures t.wins + t.draws + t.losses == |scores|
  {
    if scores == [] then Tallies(0, 0, 0)
    else Counted(TalliesOf(scores[..|scores| - 1]), scores[|scores| - 1])
  }

  function Counted(t: Tallies, score: real): Tallies {
    if score == 1.0 then t.(wins := t.wins + 1)
    else if score == 0.5 then t.(draws := t.draws + 1)
    else t.(losses := t.losses + 1)
  }

  lemma TalliesSnoc(scores: seq<real>, score: real)
    ensures TalliesOf(scores + [score]) == Counted(TalliesOf(scores), score)
  {
    assert (scores + [score])[..|scores|] == scores;
  }

  /** One pair more. */
  lemma PairScoresStep(play: PlayGame, candidate: nat, champion: nat, openings: seq<Opening>, n: nat,
                       scores: seq<real>, s1: real, s2: real)
    requires PairScores(play, candidate, champion, openings, n, scores) && n < |openings|
    requires s1 == PairScore(play, candidate, champion, openings[n], n, true)
    requires s2 == PairScore(play, candidate, champion, openings[n], n, false)
    ensures PairScores(play, candidate, champion, openings, n + 1, scores + [s1] + [s2])
  {
    var more := scores + [s1] + [s2];
    forall k: nat | k < n + 1 ensures PairAt(play, candidate, champion, openings, more, k) {
      if k < n {
        assert PairAt(play, candidate, champion, openings, scores, k);
      }
    }
  }

  // ----- the whole match ------------------------------------------------------------------------

  /** Feeds one pair to the gate. */
  method UpdatePair(gate: PairedSprtGate, first: Done, second: Done, candidate: nat,
                    tallies: Tallies) returns (t: Tallies)
    requires gate.Valid() && IsScore(CandidateScore(first, candidate)) && IsScore(CandidateScore(second, candidate))
    requires tallies == TalliesOf(gate.scores)
    modifies gate
    ensures gate.Valid() && t == TalliesOf(gate.scores)
    ensures gate.scores == old(gate.scores) + [CandidateScore(first, candidate)] + [CandidateScore(second, candidate)]
  {
    var s1, s2 := CandidateScore(first, candidate), CandidateScore(second, candidate);
    TalliesSnoc(gate.scores, s1);
    TalliesSnoc(gate.scores + [s1], s2);
    var _ := gate.Update(s1);
    var _ := gate.Update(s2);
    t := Counted(Counted(tallies, s1), s2);
  }

  /** The candidate's two scores on opening `k` of a batch. */
  lemma BatchPair(play: PlayGame, candidate: nat, champion: nat, batch: seq<Opening>, first: nat, k: nat)
    requires Scores(play) && candidate != champion && k < |batch|
    ensures var results, id := BatchDone(play, candidate, champion, batch, first), first + 2 * k;
            && CandidateScore(results[2 * k], candidate) == play(id, batch[k], candidate, champion)
            && CandidateScore(results[2 * k + 1], candidate) == 1.0 - play(id + 1, batch[k], champion, candidate)
            && IsScore(CandidateScore(results[2 * k], candidate))
            && IsScore(CandidateScore(results[2 * k + 1], candidate))
  {
    assert (2 * k) / 2 == k && (2 * k + 1) / 2 == k && (2 * k) % 2 == 0 && (2 * k + 1) % 2 == 1;
    assert IsScore(play(first + 2 * k, batch[k], candidate, champion));
    assert IsScore(play(first + 2 * k + 1, batch[k], champion, candidate));
  }

  /** `first` and `second` are the two games on `opening`, which has number `k`. */
  predicate PairResults(play: PlayGame, candidate: nat, champion: nat, opening: Opening, k: nat, first: Done,
                        second: Done) {
    && CandidateScore(first, candidate) == PairScore(play, candidate, champion, opening, k, true)
    && CandidateScore(second, candidate) == PairScore(play, candidate, champion, opening, k, false)
    && IsScore(CandidateScore(first, candidate)) && IsScore(CandidateScore(second, candidate))
  }

  predicate BatchResults(play: PlayGame, candidate: nat, champion: nat, batch: seq<Opening>, from: nat,
                         results: seq<Done>) {
    && |results| == 2 * |batch|
    && forall k: nat {:trigger batch[k]} :: k < |batch| ==>
         PairResults(play, candidate, champion, batch[k], from + k, results[2 * k], results[2 * k + 1])
  }

  /** The batch that begins with opening number `from`, its results back in the order of the openings. */
  method PlayPairs(play: PlayGame, candidate: nat, champion: nat, batch: seq<Opening>, from: nat,
                   arrival: seq<Done> -> seq<Done>) returns (results: seq<Done>)
    requires Permutes(arrival) && Scores(play) && candidate != champion
    ensures BatchResults(play, candidate, champion, batch, from, results)
  {
    results := PlayInOrder(play, candidate, champion, batch, 1 + 2 * from, arrival);
    forall k: nat | k < |batch|
      ensures PairResults(play, candidate, champion, batch[k], from + k, results[2 * k], results[2 * k + 1])
    {
      BatchPair(play, candidate, champion, batch, 1 + 2 * from, k);
    }
  }

  /** Feeds the pair of opening `i` to the gate. */
  method ScorePair(gate: PairedSprtGate, play: PlayGame, candidate: nat, champion: nat, openings: seq<Opening>, i: nat,
                   first: Done, second: Done, tallies: Tallies) returns (t: Tallies)
    requires Fed(gate, play, candidate, champion, openings, i, tallies) && i < |openings|
    requires PairResults(play, candidate, champion, openings[i], i, first, second)
    modifies gate
    ensures Fed(gate, play, candidate, champion, openings, i + 1, t)
  {
    PairScoresStep(play, candidate, champion, openings, i, gate.scores,
                   CandidateScore(first, candidate), CandidateScore(second, candidate));
    t := UpdatePair(gate, first, second, candidate, tallies);
  }

  /** The gate has seen exactly the first `n` openings, and the counters agree with it. */
  ghost predicate Fed(gate: PairedSprtGate, play: PlayGame, candidate: nat, champion: nat, openings: seq<Opening>,
                      n: nat,
                      tallies: Tallies)
    reads gate
  {
    && gate.Valid()
    && PairScores(play, candidate, champion, openings, n, gate.scores)
    && tallies == TalliesOf(gate.scores)
  }

  lemma FedCounts(gate: PairedSprtGate, play: PlayGame, candidate: nat, champion: nat, openings: seq<Opening>, n: nat,
                  tallies: Tallies)
    requires Fed(gate, play, candidate, champion, openings, n, tallies)
    ensures gate.games == 2 * n && tallies.wins + tallies.draws + tallies.losses == gate.games && gate.maximum % 2 == 0
  {
  }

  /** The scoring loop over the results of one batch. */
  method FeedBatch(gate: PairedSprtGate, play: PlayGame, candidate: nat, champion: nat, openings: seq<Opening>,
                   from: nat, count: nat, results: seq<Done>, tallies: Tallies) returns (t: Tallies)
    requires Fed(gate, play, candidate, champion, openings, from, tallies) && from + count <= |openings|
    requires BatchResults(play, candidate, champion, openings[from..from + count], from, results)
    modifies gate
    ensures Fed(gate, play, candidate, champion, openings, from + count, t)
  {
    t := tallies;
    for k := 0 to count
      invariant Fed(gate, play, candidate, champion, openings, from + k, t)
    {
      PairOfBatch(play, candidate, champion, openings, from, count, results, k);
      t := ScorePair(gate, play, candidate, champion, openings, from + k, results[2 * k], results[2 * k + 1], t);
    }
  }

  /** One batch: `count` openings from `from` on. */
  method RunBatch(gate: PairedSprtGate, play: PlayGame, candidate: nat, champion: nat, openings: seq<Opening>,
                  from: nat, count: nat, arrival: seq<Done> -> seq<Done>, tallies: Tallies) returns (t: Tallies)
    requires Fed(gate, play, candidate, champion, openings, from, tallies)
    requires Scores(play) && candidate != champion && from + count <= |openings| && Permutes(arrival)
    modifies gate
    ensures Fed(gate, play, candidate, champion, openings, from + count, t)
  {
    var results := PlayPairs(play, candidate, champion, openings[from..from + count], from, arrival);
    t := FeedBatch(gate, play, candidate, champion, openings, from, count, results, tallies);
  }

  lemma PairOfBatch(play: PlayGame, candidate: nat, champion: nat, openings: seq<Opening>, from: nat, count: nat,
                    results: seq<Done>, k: nat)
    requires from + count <= |openings| && k < count
    requires BatchResults(play, candidate, champion, openings[from..from + count], from, results)
    ensures PairResults(play, candidate, champion, openings[from + k], from + k, results[2 * k], results[2 * k + 1])
  {
    var batch := openings[from..from + count];
    assert batch[k] == openings[from + k];
  }

  function Min(a: nat, b: nat): nat {
    if a < b then a else b
  }

  /** The candidate's scores on the first `n` openings. */
  function ScoresOf(play: PlayGame, candidate: nat, champion: nat, openings: seq<Opening>, n: nat): (scores: seq<real>)
    requires n <= |openings|
    ensures |scores| == 2 * n
  {
    if n == 0 then []
    else ScoresOf(play, candidate, champion, openings, n - 1)
         + [PairScore(play, candidate, champion, openings[n - 1], n - 1, true),
            PairScore(play, candidate, champion, openings[n - 1], n - 1, false)]
  }

  lemma {:induction false} ScoresAreThePairs(play: PlayGame, candidate: nat, champion: nat, openings: seq<Opening>,
                                             n: nat,
                                             scores: seq<real>)
    requires PairScores(play, candidate, champion, openings, n, scores)
    ensures scores == ScoresOf(play, candidate, champion, openings, n)
    decreases n
  {
    if n > 0 {
      var init := scores[..2 * n - 2];
      forall k: nat | k < n - 1 ensures PairAt(play, candidate, champion, openings, init, k) {
        assert PairAt(play, candidate, champion, openings, scores, k);
      }
      ScoresAreThePairs(play, candidate, champion, openings, n - 1, init);
      assert PairAt(play, candidate, champion, openings, scores, n - 1);
      assert scores == init + [scores[2 * n - 2], scores[2 * n - 1]];
    }
  }

  /** The verdict of the sequential test on a list of scores, under the settings of a gate. */
  function VerdictOn(gate: PairedSprtGate, scores: seq<real>): Decision
    requires AreScores(scores) && Admissible(gate.p0) && Admissible(gate.p1)
  {
    Verdict(|scores|, Ratio(gate.ln, Histogram(scores), gate.p0, gate.p1),
            gate.minimum, gate.maximum, gate.lower, gate.upper)
  }

  /** The verdict after the first `n` openings. */
  ghost function VerdictAt(gate: PairedSprtGate, play: PlayGame, candidate: nat, champion: nat, openings: seq<Opening>,
                           n: nat): Decision
    requires n <= |openings| && Scores(play) && Admissible(gate.p0) && Admissible(gate.p1)
  {
    ScoresAreScores(play, candidate, champion, openings, n);
    VerdictOn(gate, ScoresOf(play, candidate, champion, openings, n))
  }

  lemma {:induction false} ScoresAreScores(play: PlayGame, candidate: nat, champion: nat, openings: seq<Opening>,
                                           n: nat)
    requires n <= |openings| && Scores(play)
    ensures AreScores(ScoresOf(play, candidate, champion, openings, n))
  {
    if n > 0 {
      ScoresAreScores(play, candidate, champion, openings, n - 1);
      var opening := openings[n - 1];
      assert IsScore(play(2 * n - 1, opening, candidate, champion));
      assert IsScore(play(2 * n, opening, champion, candidate));
    }
  }

  /** The number of openings in the batch that starts at `index`. */
  function BatchAt(batchSize: nat, maximum: nat, total: nat, index: nat): nat
    requires 2 * index <= maximum && index <= total
  {
    Min(Min(batchSize, (maximum - 2 * index) / 2), total - index)
  }

  /** The openings played after `rounds` batches, when no batch ends the match. */
  function Boundary(batchSize: nat, maximum: nat, total: nat, rounds: nat): (index: nat)
    requires maximum % 2 == 0
    ensures 2 * index <= maximum && index <= total
  {
    if rounds == 0 then 0
    else
      var before := Boundary(batchSize, maximum, total, rounds - 1);
      before + BatchAt(batchSize, maximum, total, before)
  }

  /** The gate's verdict between batches. */
  method Judge(gate: PairedSprtGate, ghost play: PlayGame, ghost candidate: nat, ghost champion: nat,
               ghost openings: seq<Opening>, ghost n: nat, ghost tallies: Tallies) returns (decision: Decision)
    requires Fed(gate, play, candidate, champion, openings, n, tallies) && Scores(play)
    modifies gate`llr, gate`crossed
    ensures Fed(gate, play, candidate, champion, openings, n, tallies)
    ensures decision == VerdictAt(gate, play, candidate, champion, openings, n)
    ensures gate.llr == Ratio(gate.ln, gate.counts, gate.p0, gate.p1)
    ensures decision == Accepted ==> gate.games >= gate.minimum && gate.llr >= gate.upper
  {
    FedCounts(gate, play, candidate, champion, openings, n, tallies);
    ScoresAreThePairs(play, candidate, champion, openings, n, gate.scores);
    decision := gate.Decide();
  }

  /** A batch has at least one opening and fits; it is short only when openings or games run out. */
  lemma BatchFits(batchSize: nat, maximum: nat, total: nat, index: nat)
    requires batchSize > 0 && index < total && 2 * index < maximum && maximum % 2 == 0
    ensures var count := BatchAt(batchSize, maximum, total, index);
            && 0 < count <= batchSize && index + count <= total && 2 * (index + count) <= maximum
            && (count == batchSize || index + count == total || 2 * (index + count) == maximum)
  {
  }

  /** The size of the next batch, from the gate's count of games. */
  method NextBatch(gate: PairedSprtGate, ghost play: PlayGame, ghost candidate: nat, ghost champion: nat,
                   openings: seq<Opening>, index: nat, batchSize: nat, ghost tallies: Tallies) returns (count: nat)
    requires Fed(gate, play, candidate, champion, openings, index, tallies)
    requires batchSize > 0 && index < |openings| && gate.games < gate.maximum
    ensures 2 * index <= gate.maximum && count == BatchAt(batchSize, gate.maximum, |openings|, index)
    ensures 0 < count && index + count <= |openings| && 2 * (index + count) <= gate.maximum
  {
    FedCounts(gate, play, candidate, champion, openings, index, tallies);
    BatchFits(batchSize, gate.maximum, |openings|, index);
    count := Min(Min(batchSize, (gate.maximum - gate.games) / 2), |openings| - index);
  }

  /** One turn of the match loop: a batch that fits, then the verdict on everything played so far. */
  method Round(gate: PairedSprtGate, play: PlayGame, candidate: nat, champion: nat, openings: seq<Opening>, index: nat,
               batchSize: nat, arrival: seq<Done> -> seq<Done>, tallies: Tallies)
    returns (next: nat, t: Tallies, decision: Decision)
    requires Fed(gate, play, candidate, champion, openings, index, tallies) && Scores(play) && candidate != champion
    requires Permutes(arrival) && batchSize > 0 && index < |openings| && gate.games < gate.maximum
    modifies gate
    ensures Fed(gate, play, candidate, champion, openings, next, t) && gate.games <= gate.maximum
    ensures index < next && 2 * index <= gate.maximum
    ensures next == index + BatchAt(batchSize, gate.maximum, |openings|, index)
    ensures decision == VerdictAt(gate, play, candidate, champion, openings, next)
    ensures gate.llr == Ratio(gate.ln, gate.counts, gate.p0, gate.p1)
    ensures decision == Accepted ==> gate.games >= gate.minimum && gate.llr >= gate.upper
  {
    var count := NextBatch(gate, play, candidate, champion, openings, index, batchSize, tallies);
    t := RunBatch(gate, play, candidate, champion, openings, index, count, arrival, tallies);
    next := index + count;
    FedCounts(gate, play, candidate, champion, openings, next, t);
    decision := Judge(gate, play, candidate, champion, openings, next, t);
  }

  /**
   How a match ends after `rounds` batches: no earlier batch gave a verdict, and the last one did, or the
   openings were used up without one, which is a rejection.
   */
  ghost predicate Ended(gate: PairedSprtGate, play: PlayGame, candidate: nat, champion: nat, openings: seq<Opening>,
                        batchSize: nat, rounds: nat, decision: Decision)
    requires gate.maximum % 2 == 0 && Scores(play) && Admissible(gate.p0) && Admissible(gate.p1)
  {
    var n := Boundary(batchSize, gate.maximum, |openings|, rounds);
    var verdict := VerdictAt(gate, play, candidate, champion, openings, n);
    && Quiet(gate, play, candidate, champion, openings, batchSize, rounds)
    && decision == (if verdict == Undecided then Rejected else verdict)
    && (verdict == Undecided ==> n == |openings|)
  }

  /** None of the batches before the last one ended in a verdict. */
  ghost predicate Quiet(gate: PairedSprtGate, play: PlayGame, candidate: nat, champion: nat, openings: seq<Opening>,
                        batchSize: nat, rounds: nat)
    requires gate.maximum % 2 == 0 && Scores(play) && Admissible(gate.p0) && Admissible(gate.p1)
  {
    forall r: nat :: r < rounds ==>
      VerdictAt(gate, play, candidate, champion, openings,
                Boundary(batchSize, gate.maximum, |openings|, r)) == Undecided
  }

  /** Between batches: the gate has seen exactly the openings up to `index`, and this is its first verdict. */
  ghost predicate Standing(gate: PairedSprtGate, play: PlayGame, candidate: nat, champion: nat, openings: seq<Opening>,
                           batchSize: nat, rounds: nat, index: nat, tallies: Tallies, decision: Decision)
    requires Scores(play)
    reads gate
  {
    && Fed(gate, play, candidate, champion, openings, index, tallies) && gate.games <= gate.maximum
    && index == Boundary(batchSize, gate.maximum, |openings|, rounds)
    && Quiet(gate, play, candidate, champion, openings, batchSize, rounds)
    && decision == VerdictAt(gate, play, candidate, champion, openings, index)
    && (rounds > 0 ==> gate.llr == Ratio(gate.ln, gate.counts, gate.p0, gate.p1))
    && (decision == Accepted ==> gate.games >= gate.minimum && gate.llr >= gate.upper)
  }

  method Turn(gate: PairedSprtGate, play: PlayGame, candidate: nat, champion: nat, openings: seq<Opening>, index: nat,
              batchSize: nat, arrival: seq<Done> -> seq<Done>, tallies: Tallies, ghost rounds: nat)
    returns (next: nat, t: Tallies, decision: Decision)
    requires Scores(play) && candidate != champion && Permutes(arrival) && batchSize > 0
    requires Standing(gate, play, candidate, champion, openings, batchSize, rounds, index, tallies, Undecided)
    requires index < |openings| && gate.games < gate.maximum
    modifies gate
    ensures Standing(gate, play, candidate, champion, openings, batchSize, rounds + 1, next, t, decision)
    ensures index < next
  {
    QuietStep(gate, play, candidate, champion, openings, batchSize, rounds, index);
    next, t, decision := Round(gate, play, candidate, champion, openings, index, batchSize, arrival, tallies);
  }

  /**
   `_run_arena`. The gate has seen exactly the candidate's scores on a prefix of the openings, each
   opening twice with colours exchanged, whatever order the games finished in. The prefix ends at the
   first batch after which the test on those scores has a verdict, or with the openings.
   */
  method RunArena(gate: PairedSprtGate, play: PlayGame, candidate: nat, champion: nat, openings: seq<Opening>,
                  batchSize: nat, arrival: seq<Done> -> seq<Done>)
    returns (decision: Decision, tallies: Tallies, ghost rounds: nat)
    requires gate.Valid() && gate.scores == [] && Scores(play) && candidate != champion && batchSize > 0
    requires Permutes(arrival)
    modifies gate
    ensures decision != Undecided && gate.maximum % 2 == 0 && Admissible(gate.p0) && Admissible(gate.p1)
    ensures Ended(gate, play, candidate, champion, openings, batchSize, rounds, decision)
    ensures Fed(gate, play, candidate, champion, openings,
                Boundary(batchSize, gate.maximum, |openings|, rounds), tallies)
    ensures rounds > 0 ==> gate.llr == Ratio(gate.ln, gate.counts, gate.p0, gate.p1)
    ensures tallies.wins + tallies.draws + tallies.losses == gate.games <= gate.maximum
    ensures decision == Accepted ==> gate.games >= gate.minimum && gate.llr >= gate.upper
  {
    decision, tallies, rounds := Undecided, Tallies(0, 0, 0), 0;
    var index := 0;
    StandingAtStart(gate, play, candidate, champion, openings, batchSize);
    while decision == Undecided && index < |openings| && gate.games < gate.maximum
      invariant Standing(gate, play, candidate, champion, openings, batchSize, rounds, index, tallies, decision)
      decreases |openings| - index
    {
      index, tallies, decision := Turn(gate, play, candidate, champion, openings, index, batchSize, arrival, tallies,
                                       rounds);
      rounds := rounds + 1;
    }
    StandingAtEnd(gate, play, candidate, champion, openings, batchSize, rounds, index, tallies, decision);
    if decision == Undecided {
      decision := Rejected;
    }
  }

  lemma StandingAtStart(gate: PairedSprtGate, play: PlayGame, candidate: nat, champion: nat, openings: seq<Opening>,
                        batchSize: nat)
    requires gate.Valid() && gate.scores == [] && Scores(play)
    ensures Standing(gate, play, candidate, champion, openings, batchSize, 0, 0, Tallies(0, 0, 0), Undecided)
  {
    FinalVerdict(gate, play, candidate, champion, openings, 0);
    assert TalliesOf([]) == Tallies(0, 0, 0);
  }

  lemma StandingAtEnd(gate: PairedSprtGate, play: PlayGame, candidate: nat, champion: nat, openings: seq<Opening>,
                      batchSize: nat, rounds: nat, index: nat, tallies: Tallies, verdict: Decision)
    requires Scores(play)
    requires Standing(gate, play, candidate, champion, openings, batchSize, rounds, index, tallies, verdict)
    requires verdict != Undecided || index >= |openings| || gate.games >= gate.maximum
    ensures gate.maximum % 2 == 0 && Admissible(gate.p0) && Admissible(gate.p1)
    ensures Ended(gate, play, candidate, champion, openings, batchSize, rounds,
                  if verdict == Undecided then Rejected else verdict)
    ensures tallies.wins + tallies.draws + tallies.losses == gate.games <= gate.maximum
  {
    FedCounts(gate, play, candidate, champion, openings, index, tallies);
    FinalVerdict(gate, play, candidate, champion, openings, index);
  }

  lemma QuietStep(gate: PairedSprtGate, play: PlayGame, candidate: nat, champion: nat, openings: seq<Opening>,
                  batchSize: nat, rounds: nat, index: nat)
    requires gate.maximum % 2 == 0 && Scores(play) && Admissible(gate.p0) && Admissible(gate.p1)
    requires Quiet(gate, play, candidate, champion, openings, batchSize, rounds)
    requires index == Boundary(batchSize, gate.maximum, |openings|, rounds)
    requires VerdictAt(gate, play, candidate, champion, openings, index) == Undecided
    ensures Quiet(gate, play, candidate, champion, openings, batchSize, rounds + 1)
  {
  }

  /** Before the first game there is no verdict, and at the maximum there always is one. */
  lemma FinalVerdict(gate: PairedSprtGate, play: PlayGame, candidate: nat, champion: nat, openings: seq<Opening>,
                     n: nat)
    requires gate.Valid() && Scores(play) && n <= |openings|
    ensures n == 0 ==> VerdictAt(gate, play, candidate, champion, openings, n) == Undecided
    ensures 2 * n >= gate.maximum ==> VerdictAt(gate, play, candidate, champion, openings, n) != Undecided
  {
  }
}
