/** Base demand scores: a weighted sum per approach, published to two decimals and ranked. */
module PriorityCalculation {
  import opened Rounding
  import opened Signals
  import opened StableSort

  datatype Weights = Weights(pce: real, queue: real, congestion: real)

  const DEFAULT_WEIGHTS := Weights(0.45, 0.35, 0.20)

  function Round4(x: real): real {
    RoundHalfEven(x * 10000.0) as real / 10000.0
  }

  function Normalize(w: Weights): Weights {
    var total := w.pce + w.queue + w.congestion;
    if total <= 0.0 then DEFAULT_WEIGHTS
    else Weights(Round4(w.pce / total), Round4(w.queue / total), Round4(w.congestion / total))
  }

  /** Normalized weights add up to one, within the rounding of three fourth decimals. */
  lemma NormalizedSum(w: Weights)
    ensures var n := Normalize(w); -0.00015 <= n.pce + n.queue + n.congestion - 1.0 <= 0.00015
  {
    var total := w.pce + w.queue + w.congestion;
    if total > 0.0 {
      assert w.pce / total + w.queue / total + w.congestion / total == total / total == 1.0;
      Round4Close(w.pce / total);
      Round4Close(w.queue / total);
      Round4Close(w.congestion / total);
    }
  }

  lemma Round4Close(x: real)
    ensures -0.00005 <= Round4(x) - x <= 0.00005
  {}

  /** One entry of the statistics dictionary, in its iteration order. */
  datatype Entry = Entry(lane: Lane, stats: LaneStats)

  function StatsMap(stats: PerLane<LaneStats>): map<Lane, LaneStats> {
    map l | l in FOUR_LANES :: stats.Get(l)
  }

  function Entries(stats: PerLane<LaneStats>): seq<Entry> {
    [Entry(North, stats.north), Entry(East, stats.east), Entry(South, stats.south), Entry(West, stats.west)]
  }

  function Contribution(weight: real, measure: real): real {
    weight * measure
  }

  function Total(e: Entry, w: Weights): real {
    Contribution(w.pce, e.stats.pce) + Contribution(w.queue, e.stats.queueSec)
    + Contribution(w.congestion, e.stats.congestion)
  }

  function BaseScore(e: Entry, w: Weights): PriorityScore {
    var pce := Contribution(w.pce, e.stats.pce);
    var queue := Contribution(w.queue, e.stats.queueSec);
    var congestion := Contribution(w.congestion, e.stats.congestion);
    PriorityScore(e.lane, Round2(Total(e, w)), 0,
      Breakdown(Round2(pce), Round2(queue), Round2(congestion), 0.0, e.stats.pce, e.stats.queueSec, e.stats.congestion))
  }

  function BaseScores(entries: seq<Entry>, w: Weights): (r: seq<PriorityScore>)
    ensures |r| == |entries|
    ensures forall i | 0 <= i < |entries| :: r[i] == BaseScore(entries[i], w)
  {
    seq(|entries|, i requires 0 <= i < |entries| => BaseScore(entries[i], w))
  }

  /** The ranking as a function of the four approaches' statistics. */
  function RankWith(w: Weights): PerLane<LaneStats> -> seq<PriorityScore> {
    (stats: PerLane<LaneStats>) => Ranked(SortDesc(BaseScores(Entries(stats), w), ScoreOf))
  }

  class PriorityCalculator {
    const weights: Weights

    constructor (weights: Weights)
      ensures this.weights == Normalize(weights)
    {
      this.weights := Normalize(weights);
    }

    method Calculate(entries: seq<Entry>) returns (r: PriorityResult)
      ensures r.scores == Ranked(SortDesc(BaseScores(entries, weights), ScoreOf))
      ensures |r.scores| == |entries|
      ensures r.highest == if entries == [] then None else Some(r.scores[0])
    {
      hide Round2, SortDesc, Contribution;
      var unranked: seq<PriorityScore> := [];
      var i := 0;
      while i < |entries|
        invariant 0 <= i <= |entries| && |unranked| == i
        invariant forall j | 0 <= j < i :: unranked[j] == BaseScore(entries[j], weights)
      {
        var stats := entries[i].stats;
        var pce := Contribution(weights.pce, stats.pce);
        var queue := Contribution(weights.queue, stats.queueSec);
        var congestion := Contribution(weights.congestion, stats.congestion);
        var total := pce + queue + congestion;
        var breakdown := Breakdown(Round2(pce), Round2(queue), Round2(congestion), 0.0,
                                   stats.pce, stats.queueSec, stats.congestion);
        unranked := unranked + [PriorityScore(entries[i].lane, Round2(total), 0, breakdown)];
        i := i + 1;
      }
      assert unranked == BaseScores(entries, weights);
      SortFacts(unranked, ScoreOf);
      var sorted := AssignRanks(SortDesc(unranked, ScoreOf));
      r := PriorityResult(sorted, if |sorted| > 0 then Some(sorted[0]) else None);
    }
  }

  lemma RankedDescending(xs: seq<PriorityScore>)
    requires Descending(xs, ScoreOf)
    ensures Descending(Ranked(xs), ScoreOf)
  {
    forall i, j | 0 <= i < j < |xs| ensures ScoreOf(Ranked(xs)[i]) >= ScoreOf(Ranked(xs)[j]) {
      assert ScoreOf(xs[i]) >= ScoreOf(xs[j]);
    }
  }

  /** Every published ranking is in descending order with two-decimal scores, and holds each entry once. */
  lemma CalculatedRanking(entries: seq<Entry>, w: Weights)
    ensures var sorted := SortDesc(BaseScores(entries, w), ScoreOf);
      && multiset(sorted) == multiset(BaseScores(entries, w))
      && Descending(Ranked(sorted), ScoreOf)
      && forall i | 0 <= i < |sorted| :: IsCents(Ranked(sorted)[i].score)
  {
    hide BaseScore, IsCents;
    var base := BaseScores(entries, w);
    var sorted := SortDesc(base, ScoreOf);
    SortFacts(base, ScoreOf);
    RankedDescending(sorted);
    forall i | 0 <= i < |sorted| ensures IsCents(sorted[i].score) {
      assert sorted[i] in sorted;
      var j :| 0 <= j < |base| && base[j] == sorted[i];
      BaseScoreCents(entries[j], w);
    }
  }

  /** Each weight keeps its share of the total, to four decimals; without a positive total the defaults are taken. */
  lemma NormalizedShares(w: Weights)
    ensures var n := Normalize(w); var total := w.pce + w.queue + w.congestion;
      if total <= 0.0 then n == DEFAULT_WEIGHTS
      else && -0.00005 <= n.pce - w.pce / total <= 0.00005 && -0.00005 <= n.queue - w.queue / total <= 0.00005
           && -0.00005 <= n.congestion - w.congestion / total <= 0.00005
  {
    var total := w.pce + w.queue + w.congestion;
    if total > 0.0 {
      Round4Close(w.pce / total);
      Round4Close(w.queue / total);
      Round4Close(w.congestion / total);
    }
  }

  lemma BaseScoreFacts(e: Entry, w: Weights)
    ensures var s := BaseScore(e, w); var sum := w.pce * e.stats.pce + w.queue * e.stats.queueSec
                                                 + w.congestion * e.stats.congestion;
      && s.lane == e.lane && -0.005 <= s.score - sum <= 0.005
      && s.breakdown.rawPce == e.stats.pce && s.breakdown.rawQueueSec == e.stats.queueSec
      && s.breakdown.rawCongestion == e.stats.congestion
  {
    hide Round2;
    Round2Facts(Total(e, w));
  }

  /**
   Every score of the ranking of the four approaches carries its own approach's measures, and is within half a hundredth
   of those measures weighted each with its own weight.
   */
  lemma RankedMeasures(w: Weights, stats: PerLane<LaneStats>, i: nat)
    requires i < |RankWith(w)(stats)|
    ensures var s := RankWith(w)(stats)[i]; var x := stats.Get(s.lane);
      && s.lane in FOUR_LANES && s.rank == i + 1
      && -0.005 <= s.score - (w.pce * x.pce + w.queue * x.queueSec + w.congestion * x.congestion) <= 0.005
      && s.breakdown.rawPce == x.pce && s.breakdown.rawQueueSec == x.queueSec
      && s.breakdown.rawCongestion == x.congestion
  {
    hide BaseScore, SortDesc;
    var entries := Entries(stats);
    var base := BaseScores(entries, w);
    var sorted := SortDesc(base, ScoreOf);
    SortFacts(base, ScoreOf);
    assert sorted[i] in sorted;
    var j :| 0 <= j < |base| && base[j] == sorted[i];
    BaseScoreFacts(entries[j], w);
    assert stats.Get(entries[j].lane) == entries[j].stats;
  }

  /** For weights that are not negative, an approach with at least as much of everything never scores less. */
  lemma DemandMonotone(less: Entry, more: Entry, w: Weights)
    requires w.pce >= 0.0 && w.queue >= 0.0 && w.congestion >= 0.0
    requires less.stats.pce <= more.stats.pce && less.stats.queueSec <= more.stats.queueSec
    requires less.stats.congestion <= more.stats.congestion
    ensures BaseScore(less, w).score <= BaseScore(more, w).score
  {
    hide Round2, Contribution;
    TermMonotone(w.pce, less.stats.pce, more.stats.pce);
    TermMonotone(w.queue, less.stats.queueSec, more.stats.queueSec);
    TermMonotone(w.congestion, less.stats.congestion, more.stats.congestion);
    Round2Monotone(Total(less, w), Total(more, w));
  }

  lemma TermMonotone(w: real, x: real, y: real)
    requires w >= 0.0 && x <= y
    ensures Contribution(w, x) <= Contribution(w, y)
  {
    assert w * (y - x) >= 0.0;
  }

  lemma BaseScoreCents(e: Entry, w: Weights)
    ensures IsCents(BaseScore(e, w).score)
  {
    hide Total, Round2, IsCents;
    Round2IsCents(Total(e, w));
  }
}
