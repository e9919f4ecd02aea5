/** Emergency pre-emption of the ranking: flagged lanes are boosted, re-sorted and re-ranked. */
module EmergencyRanking {
  import opened Rounding
  import opened Signals
  import opened StableSort
  import opened Scheduling

  /** The lanes whose statistics report an emergency vehicle. */
  function Flagged(stats: map<Lane, LaneStats>): set<Lane> {
    set l | l in stats && stats[l].hasPriority
  }

  function Boost(s: PriorityScore, flagged: set<Lane>, boost: real): PriorityScore {
    if s.lane in flagged then s.(score := Round2(s.score + boost), rank := 0) else s
  }

  function BoostAll(xs: seq<PriorityScore>, flagged: set<Lane>, boost: real): (r: seq<PriorityScore>)
    ensures |r| == |xs|
    ensures forall i | 0 <= i < |xs| :: r[i] == Boost(xs[i], flagged, boost)
  {
    seq(|xs|, i requires 0 <= i < |xs| => Boost(xs[i], flagged, boost))
  }

  class EmergencyOverride {
    const boostScore: real

    constructor (boostScore: real)
      ensures this.boostScore == boostScore
    {
      this.boostScore := boostScore;
    }

    method CheckAndOverride(result: PriorityResult, stats: map<Lane, LaneStats>) returns (r: PriorityResult)
      ensures result.scores == [] || Flagged(stats) == {} ==> r == result
      ensures result.scores != [] && Flagged(stats) != {} ==>
        r.scores == Ranked(SortDesc(BoostAll(result.scores, Flagged(stats), boostScore), ScoreOf))
        && r.scores != [] && r.highest == Some(r.scores[0])
    {
      var emergencyLanes := Flagged(stats);
      if result.scores == [] || emergencyLanes == {} {
        return result;
      }
      var overridden: seq<PriorityScore> := [];
      var i := 0;
      while i < |result.scores|
        invariant 0 <= i <= |result.scores| && |overridden| == i
        invariant forall j | 0 <= j < i :: overridden[j] == Boost(result.scores[j], emergencyLanes, boostScore)
      {
        var s := result.scores[i];
        if s.lane in emergencyLanes {
          s := s.(score := Round2(s.score + boostScore), rank := 0);
        }
        overridden := overridden + [s];
        i := i + 1;
      }
      assert overridden == BoostAll(result.scores, emergencyLanes, boostScore);
      SortFacts(overridden, ScoreOf);
      var sorted := AssignRanks(SortDesc(overridden, ScoreOf));
      r := PriorityResult(sorted, Some(sorted[0]));
    }
  }

  function IsFlagged(flagged: set<Lane>): PriorityScore -> bool {
    (s: PriorityScore) => s.lane in flagged
  }

  function IsPlain(flagged: set<Lane>): PriorityScore -> bool {
    (s: PriorityScore) => s.lane !in flagged
  }

  ghost predicate EmergencyFirst(xs: seq<PriorityScore>, flagged: set<Lane>) {
    forall i, j | 0 <= i < j < |xs| && xs[j].lane in flagged :: xs[i].lane in flagged
  }

  /** Every boosted score ends up above every score that is not boosted. */
  ghost predicate BoostSuffices(xs: seq<PriorityScore>, flagged: set<Lane>, boost: real) {
    forall f, u | 0 <= f < |xs| && 0 <= u < |xs| && xs[f].lane in flagged && xs[u].lane !in flagged ::
      Round2(xs[f].score + boost) > xs[u].score
  }

  lemma {:induction false} BoostCommutes(xs: seq<PriorityScore>, flagged: set<Lane>, boost: real)
    ensures Filter(BoostAll(xs, flagged, boost), IsFlagged(flagged))
            == BoostAll(Filter(xs, IsFlagged(flagged)), flagged, boost)
    ensures Filter(BoostAll(xs, flagged, boost), IsPlain(flagged)) == Filter(xs, IsPlain(flagged))
  {
    if xs != [] {
      BoostCommutes(xs[1..], flagged, boost);
      assert BoostAll(xs, flagged, boost)[1..] == BoostAll(xs[1..], flagged, boost);
    }
  }

  lemma {:induction false} FilterDescending(xs: seq<PriorityScore>, p: PriorityScore -> bool)
    requires Descending(xs, ScoreOf)
    ensures Descending(Filter(xs, p), ScoreOf)
  {
    SortSorted(xs, ScoreOf);
    FilterSort(xs, ScoreOf, p);
    SortFacts(Filter(xs, p), ScoreOf);
  }

  lemma BoostDescending(xs: seq<PriorityScore>, flagged: set<Lane>, boost: real)
    requires Descending(xs, ScoreOf) && forall i | 0 <= i < |xs| :: xs[i].lane in flagged
    ensures Descending(BoostAll(xs, flagged, boost), ScoreOf)
  {
    var ys := BoostAll(xs, flagged, boost);
    forall i, j | 0 <= i < j < |xs| ensures ScoreOf(ys[i]) >= ScoreOf(ys[j]) {
      assert ScoreOf(xs[i]) >= ScoreOf(xs[j]);
      Round2Monotone(xs[j].score + boost, xs[i].score + boost);
    }
  }

  /** A list in which one group precedes the rest is that group followed by the rest. */
  lemma {:induction false} SplitGroups(xs: seq<PriorityScore>, flagged: set<Lane>)
    requires EmergencyFirst(xs, flagged)
    ensures xs == Filter(xs, IsFlagged(flagged)) + Filter(xs, IsPlain(flagged))
  {
    if xs != [] {
      SplitGroups(xs[1..], flagged);
      if xs[0].lane !in flagged {
        assert forall i | 0 < i < |xs| :: xs[i].lane !in flagged;
        FilterAll(xs, IsFlagged(flagged));
        FilterAll(xs, IsPlain(flagged));
      }
    }
  }

  lemma BoostedComesFirst(xs: seq<PriorityScore>, flagged: set<Lane>, boost: real)
    requires BoostSuffices(xs, flagged, boost)
    ensures EmergencyFirst(SortDesc(BoostAll(xs, flagged, boost), ScoreOf), flagged)
  {
    var ys := BoostAll(xs, flagged, boost);
    var out := SortDesc(ys, ScoreOf);
    SortFacts(ys, ScoreOf);
    forall i, j | 0 <= i < j < |out| && out[j].lane in flagged ensures out[i].lane in flagged {
      assert out[i] in out && out[j] in out;
      var u :| 0 <= u < |ys| && ys[u] == out[i];
      var f :| 0 <= f < |ys| && ys[f] == out[j];
      assert ScoreOf(out[i]) >= ScoreOf(out[j]);
    }
  }

  /**
   The override of a descending ranking: when the boost suffices, the result is the flagged lanes,
   boosted, in their old order, followed by the others, untouched and in their old order.
   */
  lemma OverrideOrder(xs: seq<PriorityScore>, flagged: set<Lane>, boost: real)
    requires Descending(xs, ScoreOf) && BoostSuffices(xs, flagged, boost)
    ensures SortDesc(BoostAll(xs, flagged, boost), ScoreOf)
         == BoostAll(Filter(xs, IsFlagged(flagged)), flagged, boost) + Filter(xs, IsPlain(flagged))
  {
    var ys := BoostAll(xs, flagged, boost);
    var out := SortDesc(ys, ScoreOf);
    BoostedComesFirst(xs, flagged, boost);
    SplitGroups(out, flagged);
    BoostCommutes(xs, flagged, boost);
    FilterSort(ys, ScoreOf, IsFlagged(flagged));
    FilterSort(ys, ScoreOf, IsPlain(flagged));
    FilterDescending(xs, IsFlagged(flagged));
    FilterDescending(xs, IsPlain(flagged));
    FilterFacts(xs, IsFlagged(flagged));
    var first := Filter(xs, IsFlagged(flagged));
    forall i | 0 <= i < |first| ensures first[i].lane in flagged {
      assert first[i] in first;
    }
    BoostDescending(first, flagged, boost);
    SortSorted(BoostAll(first, flagged, boost), ScoreOf);
    SortSorted(Filter(xs, IsPlain(flagged)), ScoreOf);
  }

  /** So no approach without an emergency vehicle stands ahead of one that has one. */
  lemma EmergencyLeads(xs: seq<PriorityScore>, stats: map<Lane, LaneStats>, boost: real, i: nat, j: nat)
    requires BoostSuffices(xs, Flagged(stats), boost)
    requires i < j < |SortDesc(BoostAll(xs, Flagged(stats), boost), ScoreOf)|
    ensures var out := SortDesc(BoostAll(xs, Flagged(stats), boost), ScoreOf);
      out[j].lane in stats && stats[out[j].lane].hasPriority ==>
        out[i].lane in stats && stats[out[i].lane].hasPriority
  {
    hide SortDesc;
    BoostedComesFirst(xs, Flagged(stats), boost);
  }

  /** Scores in [0, boost) always meet the condition. */
  lemma OrdinaryScoresSuffice(xs: seq<PriorityScore>, flagged: set<Lane>, boost: real)
    requires IsCents(boost) && forall i | 0 <= i < |xs| :: 0.0 <= xs[i].score < boost
    ensures BoostSuffices(xs, flagged, boost)
  {
    forall f, u | 0 <= f < |xs| && 0 <= u < |xs| && xs[f].lane in flagged && xs[u].lane !in flagged
      ensures Round2(xs[f].score + boost) > xs[u].score
    {
      Round2Monotone(boost, xs[f].score + boost);
      Round2Cents(boost);
    }
  }

  function ScoreIs(k: real): PriorityScore -> bool {
    (s: PriorityScore) => s.score == k
  }

  lemma {:induction false} FilterKeepsFirst(xs: seq<PriorityScore>, flagged: set<Lane>, p: PriorityScore -> bool)
    requires EmergencyFirst(xs, flagged)
    ensures EmergencyFirst(Filter(xs, p), flagged)
  {
    if xs != [] {
      FilterKeepsFirst(xs[1..], flagged, p);
      var rest := Filter(xs[1..], p);
      FilterFacts(xs[1..], p);
      forall j | 0 <= j < |rest| && rest[j].lane in flagged ensures xs[0].lane in flagged {
        assert rest[j] in rest;
        var m :| 0 <= m < |xs[1..]| && xs[1..][m] == rest[j];
        assert xs[m + 1].lane in flagged;
      }
    }
  }

  /** Two entries that pass a test keep their order in the filtered list. */
  lemma {:induction false} FilterKeepsOrder(xs: seq<PriorityScore>, p: PriorityScore -> bool, i: nat, j: nat)
      returns (i': nat, j': nat)
    requires i < j < |xs| && p(xs[i]) && p(xs[j])
    ensures i' < j' < |Filter(xs, p)| && Filter(xs, p)[i'] == xs[i] && Filter(xs, p)[j'] == xs[j]
  {
    if i == 0 {
      FilterFacts(xs[1..], p);
      var rest := Filter(xs[1..], p);
      assert xs[1..][j - 1] in rest;
      var m :| 0 <= m < |rest| && rest[m] == xs[j];
      i', j' := 0, m + 1;
    } else {
      i', j' := FilterKeepsOrder(xs[1..], p, i - 1, j - 1);
      if p(xs[0]) {
        i', j' := i' + 1, j' + 1;
      }
    }
  }

  /** For a descending ranking the condition is exact: without it some flagged lane ends up behind an ordinary one. */
  lemma OverrideExact(xs: seq<PriorityScore>, flagged: set<Lane>, boost: real)
    requires Descending(xs, ScoreOf) && boost > 0.005
    ensures EmergencyFirst(SortDesc(BoostAll(xs, flagged, boost), ScoreOf), flagged)
            <==> BoostSuffices(xs, flagged, boost)
  {
    if BoostSuffices(xs, flagged, boost) {
      BoostedComesFirst(xs, flagged, boost);
    } else {
      var f, u :| 0 <= f < |xs| && 0 <= u < |xs| && xs[f].lane in flagged && xs[u].lane !in flagged
        && Round2(xs[f].score + boost) <= xs[u].score;
      BehindOrdinary(xs, flagged, boost, f, u);
    }
  }

  lemma HigherIsEarlier(xs: seq<PriorityScore>, i: nat, j: nat)
    requires Descending(xs, ScoreOf) && i < |xs| && j < |xs| && xs[i].score > xs[j].score
    ensures i < j
  {
    assert ScoreOf(xs[i]) > ScoreOf(xs[j]);
  }

  lemma BehindOrdinary(xs: seq<PriorityScore>, flagged: set<Lane>, boost: real, f: nat, u: nat)
    requires Descending(xs, ScoreOf) && boost > 0.005 && f < |xs| && u < |xs|
    requires xs[f].lane in flagged && xs[u].lane !in flagged && Round2(xs[f].score + boost) <= xs[u].score
    ensures !EmergencyFirst(SortDesc(BoostAll(xs, flagged, boost), ScoreOf), flagged)
  {
    hide EmergencyFirst, SortDesc, Descending;
    var ys := BoostAll(xs, flagged, boost);
    if ys[f].score < ys[u].score {
      StrictlyBehind(ys, flagged, f, u);
    } else {
      BoostRaises(xs[f].score, boost);
      HigherIsEarlier(xs, u, f);
      EquallyBehind(ys, flagged, f, u);
    }
  }

  lemma BoostRaises(score: real, boost: real)
    requires boost > 0.005
    ensures Round2(score + boost) > score
  {}

  /** A flagged entry with a lower score than an ordinary one is sorted behind it. */
  lemma StrictlyBehind(ys: seq<PriorityScore>, flagged: set<Lane>, f: nat, u: nat)
    requires f < |ys| && u < |ys| && ys[f].lane in flagged && ys[u].lane !in flagged && ys[f].score < ys[u].score
    ensures !EmergencyFirst(SortDesc(ys, ScoreOf), flagged)
  {
    hide SortDesc, Descending;
    var out := SortDesc(ys, ScoreOf);
    SortFacts(ys, ScoreOf);
    assert ys[f] in out && ys[u] in out;
    var i :| 0 <= i < |out| && out[i] == ys[u];
    var j :| 0 <= j < |out| && out[j] == ys[f];
    HigherIsEarlier(out, i, j);
  }

  /** A flagged entry listed after an ordinary one of the same score stays behind it. */
  lemma EquallyBehind(ys: seq<PriorityScore>, flagged: set<Lane>, f: nat, u: nat)
    requires u < f < |ys| && ys[f].lane in flagged && ys[u].lane !in flagged && ys[f].score == ys[u].score
    ensures !EmergencyFirst(SortDesc(ys, ScoreOf), flagged)
  {
    hide SortDesc, Filter;
    var out := SortDesc(ys, ScoreOf);
    var same := ScoreIs(ys[u].score);
    var i, j := FilterKeepsOrder(ys, same, u, f);
    FilterFacts(ys, same);
    SortSortedEqual(Filter(ys, same), ys[u].score);
    FilterSort(ys, ScoreOf, same);
    if EmergencyFirst(out, flagged) {
      FilterKeepsFirst(out, flagged, same);
    }
  }

  lemma SortSortedEqual(xs: seq<PriorityScore>, k: real)
    requires forall s | s in xs :: ScoreIs(k)(s)
    ensures SortDesc(xs, ScoreOf) == xs
  {
    forall i | 0 <= i < |xs| ensures ScoreOf(xs[i]) == k {
      assert xs[i] in xs;
    }
    SortSorted(xs, ScoreOf);
  }

  /** Given a descending ranking, the scheduler serves the first emergency lane in it that is fresh and occupied. */
  lemma SchedulerTakesFirst(cursor: Cursor, c: Call)
    requires Descending(c.scores, ScoreOf) && SeesEmergency(c)
    ensures Filter(c.scores, EmergencyTest(c)) != []
    ensures Choose(cursor, c) == Some(Filter(c.scores, EmergencyTest(c))[0])
  {
    EmergencyFilter(c);
    var xs := Filter(c.scores, EmergencyTest(c));
    FilterDescending(c.scores, EmergencyTest(c));
    FirstBestIs(xs, ScoreOf, 0);
  }
}
