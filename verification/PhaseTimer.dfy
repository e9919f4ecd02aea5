/** The live phase timer: when a green starts, is cut short, expires, or is pre-empted. */
module PhaseTimer {
  import opened Signals
  import opened StableSort
  import opened Scheduling
  import opened PriorityCalculation
  import opened EmergencyRanking
  import opened SignalPhases

  const ALL_RED_SEC := 2
  const EMPTY_LANE_RELEASE_SEC := 1.0

  datatype Active = Active(lane: Lane, green: int, yellow: int, emergency: bool)

  /** One pipeline step: the clock, the lanes with a frame in it, and the statistics it ends up with. */
  datatype Tick = Tick(now: real, observed: set<Lane>, stats: PerLane<LaneStats>, freshLanes: set<Lane>)

  datatype Timer = Timer(active: Option<Active>, start: real, emptySince: Option<real>, counter: nat, cursor: Cursor)

  /** How scores are ranked and greens timed, and the yellow time. */
  datatype Policy = Policy(
    rank: PerLane<LaneStats> -> seq<PriorityScore>,
    green: (PriorityScore, seq<PriorityScore>) -> int,
    yellow: int)

  const NO_PHASE := Timer(None, 0.0, None, 0, 0)

  function Elapsed(t: Timer, now: real): real {
    if t.start > 0.0 then now - t.start else 999.0
  }

  function AtLeastOne(n: int): int { if n > 1 then n else 1 }

  /** The running approach is seen in this step and seen empty. */
  predicate SeenEmpty(lane: Lane, k: Tick) {
    lane in k.observed && k.stats.Get(lane).rawCount == 0
  }

  /** The step on which an empty approach loses the rest of its green. */
  predicate Cuts(t: Timer, k: Tick) {
    && t.active.Some? && SeenEmpty(t.active.value.lane, k)
    && t.emptySince.Some? && k.now - t.emptySince.value >= EMPTY_LANE_RELEASE_SEC
    && Elapsed(t, k.now) < t.active.value.green as real
  }

  /** First part of a step: the empty-lane rule. */
  function Release(t: Timer, k: Tick): Timer {
    if t.active.None? then t
    else if Cuts(t, k) then
      t.(active := Some(t.active.value.(green := AtLeastOne(Elapsed(t, k.now).Floor))))
    else if SeenEmpty(t.active.value.lane, k) then
      t.(emptySince := if t.emptySince.None? then Some(k.now) else t.emptySince)
    else if t.active.value.lane in k.observed then t.(emptySince := None)
    else t
  }

  predicate RunsOut(t: Timer, now: real) {
    t.active.Some? ==> Expired(t.active.value.green, t.active.value.yellow, ALL_RED_SEC, Elapsed(t, now))
  }

  predicate AnyEmergency(stats: PerLane<LaneStats>) {
    stats.north.hasPriority || stats.east.hasPriority || stats.south.hasPriority || stats.west.hasPriority
  }

  predicate PreEmpts(t: Timer, k: Tick) {
    AnyEmergency(k.stats) && t.active.Some? && !t.active.value.emergency
  }

  function SchedulerCall(k: Tick, policy: Policy): Call {
    Call(policy.rank(k.stats), StatsMap(k.stats), k.freshLanes)
  }

  /** Second part of a step: the next phase, or none when nobody is eligible. */
  function Change(t: Timer, k: Tick, policy: Policy): Timer {
    var c := SchedulerCall(k, policy);
    match Choose(t.cursor, c)
    case None => Timer(None, t.start, t.emptySince, t.counter + 1, t.cursor)
    case Some(winner) =>
      Timer(Some(Active(winner.lane, policy.green(winner, c.scores), policy.yellow,
                        k.stats.Get(winner.lane).hasPriority)),
            k.now, None, t.counter + 1, NextCursor(t.cursor, c))
  }

  /** A step without frames does nothing while no phase runs. */
  predicate Skips(t: Timer, k: Tick) {
    k.observed == {} && t.active.None?
  }

  predicate Changes(t: Timer, k: Tick) {
    !Skips(t, k) && (RunsOut(Release(t, k), k.now) || PreEmpts(Release(t, k), k))
  }

  function Step(t: Timer, k: Tick, policy: Policy): Timer {
    if Changes(t, k) then Change(Release(t, k), k, policy) else Release(t, k)
  }

  /** STOP and RESTART drop the running phase. */
  function Reset(t: Timer): Timer {
    t.(active := None)
  }

  /** The colour reported with a step. */
  function SignalState(t: Timer, now: real): Phase {
    if t.active.None? then AllRed
    else Classify(t.active.value.lane, t.active.value.green, t.active.value.yellow, ALL_RED_SEC, now - t.start).phase
  }

  /** Calculator and emergency override in sequence. */
  function OverrideRank(w: Weights, boost: real): PerLane<LaneStats> -> seq<PriorityScore> {
    (stats: PerLane<LaneStats>) =>
      var base := RankWith(w)(stats);
      var flagged := Flagged(StatsMap(stats));
      if flagged == {} then base else Ranked(SortDesc(BoostAll(base, flagged, boost), ScoreOf))
  }

  class TrafficPipeline {
    const priorityCalculator: PriorityCalculator
    const emergencyOverride: EmergencyOverride
    const signalScheduler: SignalScheduler
    var phaseCounter: nat
    var activeDecision: Option<SignalDecision>
    var phaseStartTime: real
    var activeEmptySince: Option<real>

    constructor (weights: Weights, boost: real, minGreenSec: int, maxGreenSec: int, yellowSec: int)
      ensures fresh(signalScheduler) && View() == NO_PHASE
      ensures GetPolicy()
              == Policy(OverrideRank(Normalize(weights), boost), GreenWith(minGreenSec, maxGreenSec), yellowSec)
    {
      priorityCalculator := new PriorityCalculator(weights);
      emergencyOverride := new EmergencyOverride(boost);
      signalScheduler := new SignalScheduler(minGreenSec, maxGreenSec, yellowSec);
      phaseCounter := 0;
      activeDecision := None;
      phaseStartTime := 0.0;
      activeEmptySince := None;
    }

    ghost function GetPolicy(): Policy
      reads signalScheduler
    {
      Policy(OverrideRank(priorityCalculator.weights, emergencyOverride.boostScore),
             GreenWith(signalScheduler.minGreenSec, signalScheduler.maxGreenSec), signalScheduler.yellowSec)
    }

    ghost function View(): Timer
      reads this, signalScheduler
    {
      Timer(if activeDecision.None? then None
            else
              var d := activeDecision.value;
              Some(Active(d.greenLane, d.greenSec, d.yellowSec, d.reason == Emergency)),
            phaseStartTime, activeEmptySince, phaseCounter, signalScheduler.nextCycleIndex)
    }

    method ReleaseEmptyLane(k: Tick)
      modifies this
      ensures View() == Release(old(View()), k) && phaseStartTime == old(phaseStartTime)
      ensures activeDecision.None? <==> old(activeDecision).None?
    {
      if activeDecision.Some? {
        var d := activeDecision.value;
        var elapsed := if phaseStartTime > 0.0 then k.now - phaseStartTime else 999.0;
        if d.greenLane in k.observed && k.stats.Get(d.greenLane).rawCount == 0 {
          if activeEmptySince.None? {
            activeEmptySince := Some(k.now);
          } else if k.now - activeEmptySince.value >= EMPTY_LANE_RELEASE_SEC && elapsed < d.greenSec as real {
            activeDecision := Some(d.(greenSec := AtLeastOne(elapsed.Floor)));
          }
        } else if d.greenLane in k.observed {
          activeEmptySince := None;
        }
      }
    }

    method ChangePhase(k: Tick)
      modifies this, signalScheduler`nextCycleIndex
      ensures View() == Change(old(View()), k, old(GetPolicy())) && GetPolicy() == old(GetPolicy())
    {
      hide Choose, GreenTime, SortDesc, BaseScores, BoostAll, Advance;
      ghost var c := SchedulerCall(k, GetPolicy());
      phaseCounter := phaseCounter + 1;
      var base := priorityCalculator.Calculate(Entries(k.stats));
      var final := emergencyOverride.CheckAndOverride(base, StatsMap(k.stats));
      assert base.scores == RankWith(priorityCalculator.weights)(k.stats);
      assert final.scores == c.scores;
      ChosenIsListed(signalScheduler.nextCycleIndex, c);
      var eligible := signalScheduler.SelectEligible(final, StatsMap(k.stats), k.freshLanes);
      if eligible.None? {
        activeDecision := None;
        return;
      }
      var decision := signalScheduler.Schedule(eligible.value, phaseCounter);
      var d := decision.value;
      if k.stats.Get(d.greenLane).hasPriority {
        d := d.(reason := Emergency);
      }
      activeDecision := Some(d);
      phaseStartTime := k.now;
      activeEmptySince := None;
    }

    method ProcessStep(k: Tick) returns (signal: Phase)
      modifies this, signalScheduler`nextCycleIndex
      ensures View() == Step(old(View()), k, old(GetPolicy())) && GetPolicy() == old(GetPolicy())
      ensures signal == SignalState(View(), k.now)
    {
      hide Change;
      if k.observed == {} && activeDecision.None? {
        return AllRed;
      }
      ReleaseEmptyLane(k);
      var elapsed := if phaseStartTime > 0.0 then k.now - phaseStartTime else 999.0;
      var expired := activeDecision.None?
        || elapsed >= (activeDecision.value.greenSec + activeDecision.value.yellowSec + ALL_RED_SEC) as real;
      if expired || (AnyEmergency(k.stats) && activeDecision.value.reason != Emergency) {
        ChangePhase(k);
      }
      if activeDecision.None? {
        return AllRed;
      }
      var d := activeDecision.value;
      var shown := k.now - phaseStartTime;
      signal := if shown < d.greenSec as real then Green else if shown < (d.greenSec + d.yellowSec) as real then Yellow
      else AllRed;
    }

    method ResetPhase()
      modifies this`activeDecision
      ensures View() == Reset(old(View()))
    {
      activeDecision := None;
    }
  }
}
