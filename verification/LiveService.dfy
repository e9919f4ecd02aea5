/** Service at the live junction: how many turns until a waiting approach has its own, and what its ranking promises. */
module LiveService {
  import opened Rounding
  import opened Signals
  import opened StableSort
  import opened Scheduling
  import opened PriorityCalculation
  import opened EmergencyRanking
  import opened PhaseTimer
  import opened PhaseTimerRuns
  import IntersectionRuns

  // ----- runs from any state -----------------------------------------------------------------------

  function AfterFrom(t: Timer, events: seq<Event>): Timer
    decreases |events|
  {
    if events == [] then t else AfterFrom(Apply(t, events[0]), events[1..])
  }

  /** The approaches given a turn on the way. */
  function LanesFrom(t: Timer, events: seq<Event>): seq<Lane>
    decreases |events|
  {
    if events == [] then []
    else
      var turn := Opens(t, events[0]);
      (if turn.Some? then [turn.value.lane] else []) + LanesFrom(Apply(t, events[0]), events[1..])
  }

  /** What the scheduler was given each time. */
  function CallsFrom(t: Timer, events: seq<Event>): seq<Call>
    decreases |events|
  {
    if events == [] then []
    else
      var e := events[0];
      (if Opens(t, e).Some? then [SchedulerCall(e.k, e.policy)] else []) + CallsFrom(Apply(t, e), events[1..])
  }

  function LanesOf(log: seq<Turn>): seq<Lane> {
    seq(|log|, i requires 0 <= i < |log| => log[i].lane)
  }

  lemma ExtendLanes(log: seq<Turn>, t: Timer, e: Event)
    ensures LanesOf(Extend(log, t, e))
            == LanesOf(log) + if Opens(t, e).Some? then [Opens(t, e).value.lane] else []
  {
    hide Note, Opens;
    if log != [] {
      NoteKeepsGrant(log[|log| - 1], t, e);
    }
  }

  lemma LogOneMore(events: seq<Event>, e: Event)
    ensures After(events + [e]) == Apply(After(events), e)
    ensures Log(events + [e]) == Extend(Log(events), After(events), e)
  {
    hide Apply, Extend;
    assert (events + [e])[..|events|] == events;
  }

  lemma LanesMore(t: Timer, e: Event, rest: seq<Event>)
    ensures AfterFrom(t, [e] + rest) == AfterFrom(Apply(t, e), rest)
    ensures LanesFrom(t, [e] + rest)
            == (if Opens(t, e).Some? then [Opens(t, e).value.lane] else []) + LanesFrom(Apply(t, e), rest)
  {
    hide Apply, Opens;
    assert ([e] + rest)[1..] == rest;
  }

  lemma {:induction false} RunOn(before: seq<Event>, after: seq<Event>)
    ensures AfterFrom(After(before), after) == After(before + after)
    ensures LanesOf(Log(before + after)) == LanesOf(Log(before)) + LanesFrom(After(before), after)
    decreases |after|
  {
    hide Apply, Opens, Log, After, LanesOf, Extend, AfterFrom, LanesFrom;
    if after == [] {
      assert before + after == before;
      NoLanes(After(before));
    } else {
      var more := before + [after[0]];
      assert more + after[1..] == before + after && [after[0]] + after[1..] == after;
      LogOneMore(before, after[0]);
      ExtendLanes(Log(before), After(before), after[0]);
      LanesMore(After(before), after[0], after[1..]);
      RunOn(more, after[1..]);
    }
  }

  lemma NoLanes(t: Timer)
    ensures AfterFrom(t, []) == t && LanesFrom(t, []) == []
  {}

  /** What an event does to the cursor. */
  lemma CursorStep(t: Timer, e: Event)
    ensures var turn := Opens(t, e);
      Apply(t, e).cursor == if turn.Some? then NextCursor(t.cursor, SchedulerCall(e.k, e.policy)) else t.cursor
  {
    hide Choose, SchedulerCall, Changes, Advance;
  }

  /** The turns of a run are the scheduler's choices, made one after another with the cursor it left. */
  lemma {:induction false} LanesAreWinners(t: Timer, events: seq<Event>)
    ensures |LanesFrom(t, events)| == |CallsFrom(t, events)|
    ensures forall i | 0 <= i < |LanesFrom(t, events)| ::
      Winners(t.cursor, CallsFrom(t, events))[i] == Some(LanesFrom(t, events)[i])
    decreases |events|
  {
    hide Apply, Choose, NextCursor, SchedulerCall, Opens;
    if events != [] {
      var e, t' := events[0], Apply(t, events[0]);
      var rest := CallsFrom(t', events[1..]);
      LanesAreWinners(t', events[1..]);
      OpensIsChoice(t, e);
      CursorStep(t, e);
      if Opens(t, e).Some? {
        var c := SchedulerCall(e.k, e.policy);
        assert ([c] + rest)[1..] == rest;
      } else {
        assert [] + rest == rest;
        assert LanesFrom(t, events) == LanesFrom(t', events[1..]);
      }
    }
  }

  // ----- how many turns ----------------------------------------------------------------------------

  /** The step has a fresh frame of the approach, finds vehicles there, and ranks it. */
  ghost predicate Ready(k: Tick, policy: Policy, lane: Lane) {
    && lane in k.freshLanes && k.stats.Get(lane).rawCount > 0
    && exists s :: s in policy.rank(k.stats) && s.lane == lane
  }

  /** So does every step of the run that gives a turn. */
  ghost predicate AlwaysReady(t: Timer, events: seq<Event>, lane: Lane)
    decreases |events|
  {
    if events == [] then true
    else
      var e := events[0];
      (Opens(t, e).Some? ==> Ready(e.k, e.policy, lane)) && AlwaysReady(Apply(t, e), events[1..], lane)
  }

  lemma {:induction false} CallsWant(t: Timer, events: seq<Event>, lane: Lane)
    requires lane in FOUR_LANES && AlwaysReady(t, events, lane)
    ensures AlwaysWants(CallsFrom(t, events), lane)
    decreases |events|
  {
    hide Apply, Opens;
    if events != [] {
      CallsWant(Apply(t, events[0]), events[1..], lane);
    }
  }

  lemma FirstTurns(t: Timer, events: seq<Event>, lane: Lane, k: nat)
    requires lane in FOUR_LANES && AlwaysReady(t, events, lane)
    requires EmergencyCalls(CallsFrom(t, events)) <= k && |LanesFrom(t, events)| >= 3 * k + 4
    ensures lane in LanesFrom(t, events)[..3 * k + 4]
  {
    hide AlwaysWants, AlwaysReady, EmergencyCalls, CallsFrom, LanesFrom, Winners;
    var calls, lanes := CallsFrom(t, events), LanesFrom(t, events);
    CallsWant(t, events, lane);
    LanesAreWinners(t, events);
    BoundedService(t.cursor, calls, lane, k);
    WinnersPrefix(t.cursor, calls, 3 * k + 4);
    SomeWinner(Winners(t.cursor, calls)[..3 * k + 4], lanes[..3 * k + 4], lane);
  }

  /**
   At any point of any run, an approach that is fresh, occupied and ranked whenever a turn is given has one of the next
   3k + 4 turns, when at most k of the scheduler's calls see an emergency.
   */
  lemma NextTurns(before: seq<Event>, after: seq<Event>, lane: Lane, k: nat)
    requires lane in FOUR_LANES && AlwaysReady(After(before), after, lane)
    requires EmergencyCalls(CallsFrom(After(before), after)) <= k
    requires |Log(before + after)| >= |Log(before)| + 3 * k + 4
    ensures exists i :: |Log(before)| <= i < |Log(before)| + 3 * k + 4 && Log(before + after)[i].lane == lane
  {
    hide After, Log, AlwaysReady, EmergencyCalls, CallsFrom, LanesFrom;
    RunOn(before, after);
    FirstTurns(After(before), after, lane, k);
    var lanes := LanesFrom(After(before), after);
    var j :| 0 <= j < 3 * k + 4 && lanes[j] == lane;
    assert LanesOf(Log(before + after))[|Log(before)| + j] == lane;
  }

  /** Every turn goes to an approach with a fresh frame and vehicles in it. */
  lemma GrantIsOccupied(events: seq<Event>, j: nat, x: Turn)
    requires j < |events| && Grants(events, j, x)
    ensures x.lane in FOUR_LANES && x.lane in events[j].k.freshLanes && events[j].k.stats.Get(x.lane).rawCount > 0
  {
    hide Choose, After, Changes;
    ChosenHasDemand(After(events[..j]).cursor, SchedulerCall(events[j].k, events[j].policy));
  }

  // ----- the live ranking --------------------------------------------------------------------------

  /** Calculator and override together leave no approach out, so that part of being ready is always met. */
  lemma OverrideLists(w: Weights, boost: real, stats: PerLane<LaneStats>, lane: Lane)
    requires lane in FOUR_LANES
    ensures exists s :: s in OverrideRank(w, boost)(stats) && s.lane == lane
  {
    hide RankWith, SortDesc;
    var base, flagged := RankWith(w)(stats), Flagged(StatsMap(stats));
    IntersectionRuns.RankingLists(w, stats, lane);
    var i :| 0 <= i < |base| && base[i].lane == lane;
    if flagged == {} {
      assert base[i] in base;
    } else {
      var boosted := BoostAll(base, flagged, boost);
      var sorted := SortDesc(boosted, ScoreOf);
      SortFacts(boosted, ScoreOf);
      assert boosted[i] in sorted;
      var j :| 0 <= j < |sorted| && sorted[j] == boosted[i];
      assert Ranked(sorted)[j] in Ranked(sorted);
    }
  }

  /** In it an approach with an emergency vehicle never stands behind one without, if the boost exceeds every score. */
  lemma OverrideLeads(w: Weights, boost: real, stats: PerLane<LaneStats>, i: nat, j: nat)
    requires IsCents(boost) && forall m | 0 <= m < |RankWith(w)(stats)| :: 0.0 <= RankWith(w)(stats)[m].score < boost
    requires i < j < |OverrideRank(w, boost)(stats)|
    ensures var out := OverrideRank(w, boost)(stats);
      && out[i].lane in FOUR_LANES && out[j].lane in FOUR_LANES
      && (stats.Get(out[j].lane).hasPriority ==> stats.Get(out[i].lane).hasPriority)
  {
    hide RankWith, SortDesc, IsCents;
    var base, flagged := RankWith(w)(stats), Flagged(StatsMap(stats));
    OverrideLanes(w, boost, stats, i);
    OverrideLanes(w, boost, stats, j);
    if flagged == {} {
      NobodyFlagged(stats);
    } else {
      OrdinaryScoresSuffice(base, flagged, boost);
      EmergencyLeads(base, StatsMap(stats), boost, i, j);
    }
  }

  lemma NobodyFlagged(stats: PerLane<LaneStats>)
    ensures Flagged(StatsMap(stats)) == {} ==> forall lane | lane in FOUR_LANES :: !stats.Get(lane).hasPriority
  {
    forall lane | lane in FOUR_LANES ensures stats.Get(lane).hasPriority ==> lane in Flagged(StatsMap(stats)) {
    }
  }

  lemma OverrideLanes(w: Weights, boost: real, stats: PerLane<LaneStats>, i: nat)
    requires i < |OverrideRank(w, boost)(stats)|
    ensures OverrideRank(w, boost)(stats)[i].lane in FOUR_LANES
  {
    hide RankWith, SortDesc;
    var base, flagged := RankWith(w)(stats), Flagged(StatsMap(stats));
    if flagged == {} {
      RankedMeasures(w, stats, i);
    } else {
      var boosted := BoostAll(base, flagged, boost);
      var sorted := SortDesc(boosted, ScoreOf);
      SortFacts(boosted, ScoreOf);
      assert sorted[i] in sorted;
      var j :| 0 <= j < |boosted| && boosted[j] == sorted[i];
      RankedMeasures(w, stats, j);
    }
  }
}
