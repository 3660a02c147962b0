/**
 What an arena match of Arena.dfy decides in terms of its wins, draws and losses: an accepted candidate has
 scored more than its share under the null hypothesis, and a candidate rejected early has scored less than
 its share under the alternative.
 */
module MatchDirection {
  import opened ArenaStatistics
  import opened Arenas
  import opened GateDirection

  /** The candidate's points: a draw is half a win. */
  function PointsOf(t: Tallies): real {
    t.wins as real + 0.5 * (t.draws as real)
  }

  function ScoreSum(scores: seq<real>): real {
    if scores == [] then 0.0 else ScoreSum(scores[..|scores| - 1]) + scores[|scores| - 1]
  }

  lemma {:induction false} TalliesArePoints(scores: seq<real>)
    requires AreScores(scores)
    ensures PointsOf(TalliesOf(scores)) == ScoreSum(scores)
    decreases |scores|
  {
    if scores != [] {
      var n := |scores| - 1;
      assert IsScore(scores[n]);
      TalliesArePoints(scores[..n]);
    }
  }

  /** Twice the score of each pair, over all pairs. */
  function BinSum(counts: Counts): nat {
    counts[1] + 2 * counts[2] + 3 * counts[3] + 4 * counts[4]
  }

  lemma {:induction false} HistogramIsScore(scores: seq<real>)
    requires AreScores(scores) && |scores| % 2 == 0
    ensures BinSum(Histogram(scores)) as real == 2.0 * ScoreSum(scores)
    decreases |scores|
  {
    if scores == [] {
      assert PairBins(scores) == [];
    } else {
      var n := |scores| - 2;
      var first := scores[..n + 1];
      assert IsScore(scores[n]) && IsScore(scores[n + 1]);
      HistogramIsScore(scores[..n]);
      assert first[..n] == scores[..n] && scores == first + [scores[n + 1]] && first == scores[..n] + [scores[n]];
      SameCompletePairs(scores[..n], scores[n]);
      OnePairMore(first, scores[n + 1]);
      BumpedSum(Histogram(scores[..n]), Bin(scores[n], scores[n + 1]));
    }
  }

  lemma BumpedSum(counts: Counts, bin: nat)
    requires bin < 5
    ensures BinSum(Bump(counts, bin)) == BinSum(counts) + bin
  {
  }

  /** How far the points are above the share `mean` of the games, for half the games. */
  function Surplus(counts: Counts, mean: real): real {
    BinSum(counts) as real / 4.0 - Times(mean, Pairs(counts) as real)
  }

  lemma LeadIsSurplus(counts: Counts, mean: real)
    ensures Times(Lead(counts, mean), Mass(counts)) == Surplus(counts, mean) + (2.5 - 5.0 * mean) * EPSILON
  {
    SmoothedMean(counts);
    var m := Mean(Frequency(counts));
    assert (m - mean) * Mass(counts) == m * Mass(counts) - mean * Mass(counts);
    assert mean * Mass(counts) == mean * (Pairs(counts) as real) + 5.0 * mean * EPSILON;
  }

  lemma PositiveSurplus(pairs: real, gap: real, lead: real, surplus: real, blur: real)
    requires pairs >= 0.0 && gap >= 0.01 && lead < 1.0 && -2.5 * EPSILON < blur
    requires Times(lead, pairs + 5.0 * EPSILON) == surplus + blur && surplus >= 0.005
    ensures lead > 0.0 && Times(pairs, Times(gap, lead)) > 14.0 * EPSILON
  {
    var pl := pairs * lead;
    assert lead * (pairs + 5.0 * EPSILON) == pl + 5.0 * EPSILON * lead;
    assert pl > 0.004;
    if lead <= 0.0 {
      Product(pairs, lead);
      assert false;
    }
    ScaleLe(pl, 0.01, gap);
    assert pairs * (gap * lead) == pl * gap;
  }

  lemma NegativeSurplus(pairs: real, gap: real, lead: real, surplus: real, blur: real)
    requires pairs >= 0.0 && gap >= 0.01 && lead > -1.0 && blur < 2.5 * EPSILON
    requires Times(lead, pairs + 5.0 * EPSILON) == surplus + blur && surplus <= -0.005
    ensures lead < 0.0 && Times(pairs, Times(gap, lead)) < -14.0 * EPSILON
  {
    assert Times(-lead, pairs + 5.0 * EPSILON) == -Times(lead, pairs + 5.0 * EPSILON);
    PositiveSurplus(pairs, gap, -lead, -surplus, -blur);
    OppositeTimes(gap, lead);
    OppositeTimes(pairs, Times(gap, lead));
  }

  lemma SurplusDecides(counts: Counts, p0: real, p1: real)
    requires 0.01 <= p0 && p0 + 0.01 <= p1 <= 0.99
    ensures Surplus(counts, p1) >= 0.005 ==> Ahead(counts, p0, p1)
    ensures Surplus(counts, p0) <= -0.005 ==> Behind(counts, p0, p1)
  {
    LeadIsSurplus(counts, p0);
    LeadIsSurplus(counts, p1);
    MeanBounds(Frequency(counts));
    var pairs, gap := Pairs(counts) as real, p1 - p0;
    if Surplus(counts, p1) >= 0.005 {
      PositiveSurplus(pairs, gap, Lead(counts, p1), Surplus(counts, p1), (2.5 - 5.0 * p1) * EPSILON);
    }
    if Surplus(counts, p0) <= -0.005 {
      NegativeSurplus(pairs, gap, Lead(counts, p0), Surplus(counts, p0), (2.5 - 5.0 * p0) * EPSILON);
    }
  }

  function Games(t: Tallies): nat {
    t.wins + t.draws + t.losses
  }

  /** The points above the share `mean` of all games played. */
  function Excess(t: Tallies, mean: real): real {
    PointsOf(t) - Times(mean, Games(t) as real)
  }

  /** The tallies and the histogram are of the same games. */
  ghost predicate SameGames(t: Tallies, counts: Counts) {
    Games(t) == 2 * Pairs(counts) && BinSum(counts) as real == 2.0 * PointsOf(t)
  }

  lemma {:induction false} PairsOf(scores: seq<real>, counts: Counts)
    requires AreScores(scores) && |scores| % 2 == 0 && counts == Histogram(scores)
    ensures 2 * Pairs(counts) == |scores|
  {
  }

  lemma {:induction false} GamesOf(scores: seq<real>, t: Tallies)
    requires t == TalliesOf(scores)
    ensures Games(t) == |scores|
  {
  }

  lemma {:induction false} TalliesMatch(scores: seq<real>, t: Tallies, counts: Counts)
    requires AreScores(scores) && |scores| % 2 == 0 && t == TalliesOf(scores) && counts == Histogram(scores)
    ensures SameGames(t, counts)
  {
    TalliesArePoints(scores);
    HistogramIsScore(scores);
    PairsOf(scores, counts);
    GamesOf(scores, t);
  }

  lemma SurplusOfPoints(t: Tallies, counts: Counts, mean: real)
    requires SameGames(t, counts)
    ensures 2.0 * Surplus(counts, mean) == Excess(t, mean)
  {
    var pairs := Pairs(counts) as real;
    assert Games(t) as real == 2.0 * pairs;
    assert mean * (2.0 * pairs) == 2.0 * (mean * pairs);
  }

  /** The settings of every arena: a thousand pairs at most, and hypotheses at least 1% apart and from 0 and 1. */
  predicate ArenaSettings(gate: PairedSprtGate) {
    && gate.maximum <= 2000 && 0.01 <= gate.p0 && gate.p0 + 0.01 <= gate.p1 <= 0.99
    && gate.lower < 0.0 < gate.upper
  }

  /** The sign of the ratio on any scores. */
  lemma RatioFollowsPoints(ln: real -> real, scores: seq<real>, p0: real, p1: real)
    requires IsLog(ln) && 0.01 <= p0 && p0 + 0.01 <= p1 <= 0.99
    requires AreScores(scores) && |scores| % 2 == 0 && |scores| <= 2000
    ensures Excess(TalliesOf(scores), p1) >= 0.01 ==> Ratio(ln, Histogram(scores), p0, p1) > 0.0
    ensures Excess(TalliesOf(scores), p0) <= -0.01 ==> Ratio(ln, Histogram(scores), p0, p1) < 0.0
  {
    var counts := Histogram(scores);
    ArenasArePrecise(counts, p0);
    ArenasArePrecise(counts, p1);
    TalliesMatch(scores, TalliesOf(scores), counts);
    SurplusOfPoints(TalliesOf(scores), counts, p0);
    SurplusOfPoints(TalliesOf(scores), counts, p1);
    SurplusDecides(counts, p0, p1);
    RatioFollowsMean(ln, counts, p0, p1);
  }

  /** Acceptance needs more than the share `p0` of the points, early rejection less than the share `p1`. */
  lemma VerdictFollowsPoints(gate: PairedSprtGate, scores: seq<real>)
    requires IsLog(gate.ln) && ArenaSettings(gate) && AreScores(scores) && |scores| % 2 == 0 && |scores| <= 2000
    ensures VerdictOn(gate, scores) == Accepted ==> Excess(TalliesOf(scores), gate.p0) > -0.01
    ensures VerdictOn(gate, scores) == Rejected && |scores| < gate.maximum ==>
      Excess(TalliesOf(scores), gate.p1) < 0.01
  {
    RatioFollowsPoints(gate.ln, scores, gate.p0, gate.p1);
  }

  /**
   The whole match: an accepted candidate scored more than the share `p0` of its games, up to a hundredth of a
   point, and one rejected while openings and games were left scored less than the share `p1`.
   */
  lemma MatchFollowsPoints(gate: PairedSprtGate, play: PlayGame, candidate: nat, champion: nat, openings: seq<Opening>,
                           batchSize: nat, rounds: nat, decision: Decision)
    requires IsLog(gate.ln) && ArenaSettings(gate) && gate.maximum % 2 == 0 && Scores(play)
    requires Ended(gate, play, candidate, champion, openings, batchSize, rounds, decision)
    ensures var n := Boundary(batchSize, gate.maximum, |openings|, rounds);
            var tallies := TalliesOf(ScoresOf(play, candidate, champion, openings, n));
            && (decision == Accepted ==> Excess(tallies, gate.p0) > -0.01)
            && (decision == Rejected && n < |openings| && 2 * n < gate.maximum ==> Excess(tallies, gate.p1) < 0.01)
  {
    var n := Boundary(batchSize, gate.maximum, |openings|, rounds);
    ScoresAreScores(play, candidate, champion, openings, n);
    VerdictFollowsPoints(gate, ScoresOf(play, candidate, champion, openings, n));
  }
}
