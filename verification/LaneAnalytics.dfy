/** The lane statistics exported from the confirmed vehicles of a camera. */
module LaneAnalytics {
  import opened Signals
  import opened StableSort
  import opened Rounding
  import opened VehicleTracking
  import opened VehicleRuns

  // ----- exported statistics -----------------------------------------------------------------------

  /** PCE weight of a vehicle class. */
  type Weighing = string -> real

  datatype Totals = Totals(pce: real, stopped: nat, queue: real, longest: real, priority: bool)

  datatype LaneExport = LaneExport(stats: LaneStats, stopped: nat, longestQueue: real, density: string, historical: nat)

  predicate Stopped(s: VehicleState) {
    s.isQueued || s.queueTime > 0.0
  }

  function Max(x: real, y: real): real { if x > y then x else y }

  function TotalsOf(vs: seq<VehicleState>, weight: Weighing): Totals {
    if vs == [] then Totals(0.0, 0, 0.0, 0.0, false)
    else
      var t, s := TotalsOf(vs[..|vs| - 1], weight), vs[|vs| - 1];
      var u := t.(pce := t.pce + weight(s.className), priority := t.priority || s.isPriority);
      if Stopped(s)
      then u.(stopped := t.stopped + 1, queue := t.queue + s.queueTime, longest := Max(s.queueTime, t.longest)) else u
  }

  function Round1(x: real): real {
    RoundHalfEven(x * 10.0) as real / 10.0
  }

  function Congestion(t: Totals): real {
    Round2(t.pce) + 0.2 * t.queue + 5.0 * t.stopped as real
  }

  function Density(index: real): string {
    if index < 8.0 then "LOW" else if index < 18.0 then "MEDIUM" else if index < 30.0 then "HIGH" else "CONGESTED"
  }

  function Export(m: Memory, lane: string, weight: Weighing): LaneExport {
    var vs := Group(m.states, lane);
    var t := TotalsOf(vs, weight);
    LaneExport(LaneStats(|vs|, Round2(t.pce), Round1(t.queue), Round2(Congestion(t)), t.priority),
               t.stopped, Round1(t.longest), Density(Congestion(t)), |HistoryOf(m.history, lane)|)
  }

  // ----- what the figures are ------------------------------------------------------------------------

  function Sum(vs: seq<VehicleState>, f: VehicleState -> real): real {
    if vs == [] then 0.0 else f(vs[0]) + Sum(vs[1..], f)
  }

  function WeightOf(weight: Weighing): VehicleState -> real {
    (s: VehicleState) => weight(s.className)
  }

  function QueueTimeOf(s: VehicleState): real {
    s.queueTime
  }

  lemma {:induction false} SumConcat(a: seq<VehicleState>, b: seq<VehicleState>, f: VehicleState -> real)
    ensures Sum(a + b, f) == Sum(a, f) + Sum(b, f)
  {
    if a == [] {
      assert a + b == b;
    } else {
      SumConcat(a[1..], b, f);
      assert (a + b)[1..] == a[1..] + b;
    }
  }

  /** The longest queue time of a stopped vehicle, or zero. */
  ghost predicate IsLongest(longest: real, vs: seq<VehicleState>) {
    && longest >= 0.0 && (forall i | 0 <= i < |vs| && Stopped(vs[i]) :: vs[i].queueTime <= longest)
    && (longest > 0.0 ==> exists i :: 0 <= i < |vs| && Stopped(vs[i]) && vs[i].queueTime == longest)
  }

  lemma LongestGrows(longest: real, vs: seq<VehicleState>, s: VehicleState)
    requires IsLongest(longest, vs)
    ensures IsLongest(if Stopped(s) then Max(s.queueTime, longest) else longest, vs + [s])
  {
    hide Stopped;
    var longer := vs + [s];
    assert longer[|vs|] == s;
    if longest > 0.0 {
      var i :| 0 <= i < |vs| && Stopped(vs[i]) && vs[i].queueTime == longest;
      assert longer[i] == vs[i];
    }
  }

  /** One pass adds up the weights of all vehicles, and the queue times of those that are or have been queued. */
  lemma {:induction false} TotalsAre(vs: seq<VehicleState>, weight: Weighing)
    ensures var t := TotalsOf(vs, weight); var stopped := Filter(vs, Stopped);
      && t.pce == Sum(vs, WeightOf(weight)) && t.stopped == |stopped| && t.queue == Sum(stopped, QueueTimeOf)
      && IsLongest(t.longest, vs) && (t.priority <==> exists i :: 0 <= i < |vs| && vs[i].isPriority)
  {
    hide Stopped;
    if vs != [] {
      var init, s := vs[..|vs| - 1], vs[|vs| - 1];
      TotalsAre(init, weight);
      LongestGrows(TotalsOf(init, weight).longest, init, s);
      assert init + [s] == vs;
      SumConcat(init, [s], WeightOf(weight));
      FilterConcat(init, [s], Stopped);
      SumConcat(Filter(init, Stopped), Filter([s], Stopped), QueueTimeOf);
      PriorityGrows(init, s);
    }
  }

  lemma PriorityGrows(vs: seq<VehicleState>, s: VehicleState)
    ensures (exists i :: 0 <= i < |vs + [s]| && (vs + [s])[i].isPriority)
            <==> s.isPriority || exists i :: 0 <= i < |vs| && vs[i].isPriority
  {
    assert (vs + [s])[|vs|] == s;
    if i :| 0 <= i < |vs| && vs[i].isPriority {
      assert (vs + [s])[i].isPriority;
    }
  }

  predicate IsTenths(x: real) {
    (x * 10.0).Floor as real == x * 10.0
  }

  lemma WholeIsTenths(x: real, k: int)
    requires x * 10.0 == k as real
    ensures IsTenths(x)
  {}

  lemma Round1Facts(x: real)
    ensures -0.05 <= Round1(x) - x <= 0.05 && IsTenths(Round1(x))
  {
    hide IsTenths;
    var k := RoundHalfEven(x * 10.0);
    hide RoundHalfEven;
    WholeIsTenths(Round1(x), k);
  }

  /**
   The exported figures of a lane, to their decimals: the PCE sum of its live vehicles, the queue time of the stopped
   ones, and the congestion index made of both with five for each stopped vehicle, which sets the density class.
   */
  lemma ExportFigures(m: Memory, lane: string, weight: Weighing)
    ensures var x, vs := Export(m, lane, weight), Group(m.states, lane);
      var stopped := Filter(vs, Stopped);
      var queue := Sum(stopped, QueueTimeOf);
      var index := x.stats.pce + 0.2 * queue + 5.0 * |stopped| as real;
      && x.stats.rawCount == |vs| && x.stopped == |stopped|
      && -0.005 <= x.stats.pce - Sum(vs, WeightOf(weight)) <= 0.005 && -0.05 <= x.stats.queueSec - queue <= 0.05
      && -0.005 <= x.stats.congestion - index <= 0.005
      && (x.density == "LOW" <==> index < 8.0) && (x.density == "MEDIUM" <==> 8.0 <= index < 18.0)
      && (x.density == "HIGH" <==> 18.0 <= index < 30.0) && (x.density == "CONGESTED" <==> index >= 30.0)
      && (x.stats.hasPriority <==> exists i :: 0 <= i < |vs| && vs[i].isPriority)
      && IsCents(x.stats.pce) && IsTenths(x.stats.queueSec) && IsCents(x.stats.congestion) && IsTenths(x.longestQueue)
      && x.historical == |HistoryOf(m.history, lane)|
      && exists longest :: IsLongest(longest, vs) && -0.05 <= x.longestQueue - longest <= 0.05
  {
    hide Group, TotalsOf, Round2, Round1, Filter, Sum, IsLongest, IsCents, IsTenths;
    var t := TotalsOf(Group(m.states, lane), weight);
    TotalsAre(Group(m.states, lane), weight);
    Round2Facts(t.pce);
    Round1Facts(t.queue);
    Round1Facts(t.longest);
    Round2Facts(Congestion(t));
  }

  /** A vehicle counts as stopped exactly when it is queued or has been in this lane. */
  lemma StoppedExactly(us: seq<Update>, i: nat)
    requires Clocked(us) && i < |Run(us).states|
    ensures var s := Run(us).states[i]; var trail := Trail(us, s.trackId);
      trail != [] && (Stopped(s) <==> SlowStretch(trail) || QueuedFor(trail) > 0.0)
  {
    hide Run, Trail, SlowStretch, QueuedFor;
    QueuedExactly(us, i);
    QueueTimeExactly(us, i);
  }

  /** The tracks that count for a lane. */
  ghost function LiveIn(us: seq<Update>, lane: string): set<int>
    requires us != []
  {
    set tid | tid in Seen(us[|us| - 1].detections) && Live(us, tid, lane)
  }

  lemma {:induction false} DistinctCount(vs: seq<VehicleState>)
    requires Distinct(vs)
    ensures |vs| == |Ids(vs)|
  {
    if vs == [] {
      assert Ids(vs) == {};
    } else {
      var init, last := vs[..|vs| - 1], vs[|vs| - 1];
      DistinctCount(init);
      IdsConcat(init, [last]);
      IdsOfOne(last);
      assert init + [last] == vs && last.trackId !in Ids(init);
    }
  }

  /** A lane's exported count is the number of tracks observed in it in the latest frame, and at least twice in all. */
  lemma LiveCountExactly(us: seq<Update>, lane: string, weight: Weighing)
    requires us != []
    ensures Export(Run(us), lane, weight).stats.rawCount == |LiveIn(us, lane)|
  {
    hide Run, TotalsOf, Filter, Live, Seen, Congestion, Density;
    var vs := Group(Run(us).states, lane);
    RunIsSound(us);
    SoundIsDistinct(Run(us));
    GroupDistinct(Run(us).states, lane);
    DistinctCount(vs);
    forall tid ensures tid in Ids(vs) <==> tid in LiveIn(us, lane) {
      LiveExactly(us, tid, lane);
      if Live(us, tid, lane) {
        LiveIsSeen(us, tid, lane);
      }
      assert tid in Ids(vs) <==> Has(vs, tid);
    }
    assert Ids(vs) == LiveIn(us, lane);
  }

  /** A lane reports an emergency exactly when one of those was a priority vehicle when its track was created. */
  lemma PriorityExactly(us: seq<Update>, lane: string, weight: Weighing)
    requires us != []
    ensures Export(Run(us), lane, weight).stats.hasPriority
            <==> exists tid :: Live(us, tid, lane) && Trail(us, tid) != [] && Trail(us, tid)[0].d.isPriority
  {
    hide Run, TotalsOf, Filter, Live, Seen, Congestion, Density, Trail;
    var states := Run(us).states;
    var vs := Group(states, lane);
    TotalsAre(vs, weight);
    FilterFacts(states, Counts(lane));
    if i :| 0 <= i < |vs| && vs[i].isPriority {
      assert vs[i] in vs;
      var j :| 0 <= j < |states| && states[j] == vs[i];
      StatePriority(us, j);
      LiveExactly(us, vs[i].trackId, lane);
      assert Has(vs, vs[i].trackId);
    }
    if tid :| Live(us, tid, lane) && Trail(us, tid) != [] && Trail(us, tid)[0].d.isPriority {
      LiveExactly(us, tid, lane);
      var i :| 0 <= i < |vs| && vs[i].trackId == tid;
      assert vs[i] in vs;
      var j :| 0 <= j < |states| && states[j] == vs[i];
      StatePriority(us, j);
    }
  }

  lemma StatePriority(us: seq<Update>, i: nat)
    requires i < |Run(us).states|
    ensures var s := Run(us).states[i]; var trail := Trail(us, s.trackId);
      trail != [] && s.isPriority == trail[0].d.isPriority
  {
    hide Run, Trail, Erase, Life;
    var s := Run(us).states[i];
    var trail := Trail(us, s.trackId);
    StateIsLife(us, s.trackId);
    assert trail != [] && Erase(s) == Erase(Life(s.trackId, trail));
    LifeKeeps(s.trackId, trail);
    ErasedFigures(s, Life(s.trackId, trail));
  }

  // ----- predictions and history ---------------------------------------------------------------------

  lemma {:induction false} GroupSame(a: seq<VehicleState>, b: seq<VehicleState>, lane: string)
    requires SameTracks(a, b)
    ensures SameTracks(Group(a, lane), Group(b, lane))
  {
    hide Core;
    if a != [] {
      SameId(a[0], b[0]);
      GroupSame(a[1..], b[1..], lane);
    }
  }

  lemma SameFigures(s: VehicleState, t: VehicleState)
    requires Core(s) == Core(t)
    ensures s.className == t.className && s.isPriority == t.isPriority && s.isQueued == t.isQueued
            && s.queueTime == t.queueTime
  {
    assert Core(s).className == Core(t).className && Core(s).isPriority == Core(t).isPriority;
    assert Core(s).isQueued == Core(t).isQueued && Core(s).queueTime == Core(t).queueTime;
  }

  lemma {:induction false} TotalsSame(a: seq<VehicleState>, b: seq<VehicleState>, weight: Weighing)
    requires SameTracks(a, b)
    ensures TotalsOf(a, weight) == TotalsOf(b, weight)
  {
    hide Core;
    if a != [] {
      SameFigures(a[|a| - 1], b[|b| - 1]);
      TotalsSame(a[..|a| - 1], b[..|b| - 1], weight);
    }
  }

  /** Nothing exported for any lane depends on the predictions in a run. */
  lemma PredictionsDoNotCount(us: seq<Update>, vs: seq<Update>, lane: string, weight: Weighing)
    requires SameEvidence(us, vs)
    ensures Export(Run(us), lane, weight) == Export(Run(vs), lane, weight)
  {
    hide Run, Group, TotalsOf, SameEvidence, SameTracks, Congestion, Density;
    PredictionsAreInert(us, vs);
    GroupSame(Run(us).states, Run(vs).states, lane);
    TotalsSame(Group(Run(us).states, lane), Group(Run(vs).states, lane), weight);
    assert |Group(Run(us).states, lane)| == |Group(Run(vs).states, lane)| by {
      SameLength(Group(Run(us).states, lane), Group(Run(vs).states, lane));
    }
  }

  lemma SameLength(a: seq<VehicleState>, b: seq<VehicleState>)
    requires SameTracks(a, b)
    ensures |a| == |b|
  {
  }

  lemma {:induction false} DistinctIds(vs: seq<VehicleState>, ids: set<int>)
    requires Distinct(vs) && forall i | 0 <= i < |vs| :: vs[i].trackId in ids
    ensures |vs| <= |ids|
  {
    if vs != [] {
      var last := vs[|vs| - 1].trackId;
      DistinctIds(vs[..|vs| - 1], ids - {last});
    }
  }

  lemma {:induction false} GroupDistinct(states: seq<VehicleState>, lane: string)
    requires Distinct(states)
    ensures Distinct(Group(states, lane))
  {
    if states != [] {
      var first, rest := states[0], Group(states[1..], lane);
      GroupDistinct(states[1..], lane);
      FilterFacts(states[1..], Counts(lane));
      forall i | 0 <= i < |rest| ensures rest[i].trackId != first.trackId {
        assert rest[i] in rest;
        var j :| 0 <= j < |states[1..]| && states[1..][j] == rest[i];
        assert states[j + 1] == rest[i];
      }
    }
  }

  /** A lane never reports more live vehicles than it has ever counted. */
  lemma LiveWithinHistory(us: seq<Update>, lane: string, weight: Weighing)
    ensures var x := Export(Run(us), lane, weight); x.stats.rawCount <= x.historical
  {
    hide Run, TotalsOf, Filter;
    RunIsSound(us);
    var m := Run(us);
    var live := Group(m.states, lane);
    GroupDistinct(m.states, lane);
    FilterFacts(m.states, Counts(lane));
    forall i | 0 <= i < |live| ensures live[i].trackId in HistoryOf(m.history, lane) {
      assert live[i] in live;
    }
    DistinctIds(live, HistoryOf(m.history, lane));
  }

  class AnalyticsExporter {
    const weight: Weighing

    constructor (weight: Weighing)
      ensures this.weight == weight
    {
      this.weight := weight;
    }

    /** The occupancy and congestion analyzers, one pass over the vehicles of a lane. */
    method Analyze(vs: seq<VehicleState>) returns (t: Totals)
      ensures t == TotalsOf(vs, weight)
    {
      var pce, stopped, queue, longest, priority := 0.0, 0, 0.0, 0.0, false;
      for i := 0 to |vs|
        invariant Totals(pce, stopped, queue, longest, priority) == TotalsOf(vs[..i], weight)
      {
        assert vs[..i + 1][..i] == vs[..i];
        var s := vs[i];
        pce := pce + weight(s.className);
        if s.isPriority {
          priority := true;
        }
        if s.isQueued || s.queueTime > 0.0 {
          stopped := stopped + 1;
          queue := queue + s.queueTime;
          if s.queueTime > longest {
            longest := s.queueTime;
          }
        }
      }
      assert vs[..|vs|] == vs;
      t := Totals(pce, stopped, queue, longest, priority);
    }

    method GenerateStats(manager: VehicleStateManager) returns (stats: map<string, LaneExport>)
      ensures stats.Keys == set l | l in LANE_NAMES
      ensures forall l | l in stats :: stats[l] == Export(manager.View(), l, weight)
    {
      hide Group, TotalsOf, Density;
      var grouped := manager.GetConfirmedVehiclesByLane();
      stats := map[];
      for i := 0 to |LANE_NAMES|
        modifies {}
        invariant stats.Keys == set l | l in LANE_NAMES[..i]
        invariant forall l | l in stats :: stats[l] == Export(manager.View(), l, weight)
      {
        var lane := LANE_NAMES[i];
        var vehicles := if lane in grouped then grouped[lane] else [];
        assert vehicles == Group(manager.activeStates, lane);
        var t := Analyze(vehicles);
        var index := Congestion(t);
        var historical := if lane in manager.historicalTracksCount then |manager.historicalTracksCount[lane]| else 0;
        stats := stats[lane :=
          LaneExport(LaneStats(|vehicles|, Round2(t.pce), Round1(t.queue), Round2(index), t.priority),
                     t.stopped, Round1(t.longest), Density(index), historical)];
        assert LANE_NAMES[..i + 1] == LANE_NAMES[..i] + [lane];
      }
      assert LANE_NAMES[..|LANE_NAMES|] == LANE_NAMES;
    }
  }
}
