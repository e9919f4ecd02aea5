/** The simulated junction: a countdown that steps GREEN, YELLOW, ALL_RED and asks the scheduler who is next. */
module Intersection {
  import opened Signals
  import opened StableSort
  import opened Scheduling
  import opened PriorityCalculation
  import opened SignalPhases

  datatype Camera = Healthy | Degraded | Offline

  /** How scores are ranked and greens timed, and the two clearance durations. */
  datatype Config = Config(
    rank: PerLane<LaneStats> -> seq<PriorityScore>,
    green: (PriorityScore, seq<PriorityScore>) -> int,
    yellow: int, allRed: int)

  /** A demand update; absent entries keep the old value. */
  datatype Demand = Demand(vehicles: Option<int>, pce: Option<real>, priority: Option<bool>)

  type Demands = map<Lane, Demand>

  /** What is known of the approaches. */
  datatype Road = Road(stalled: bool, cameras: PerLane<Camera>, stats: PerLane<LaneStats>)

  /** The cycle counter and the lanes served in the current cycle. */
  datatype Book = Book(cycles: nat, served: set<Lane>)

  datatype Sim = Sim(phase: Phase, active: Option<Lane>, remaining: real, cursor: Cursor, book: Book, road: Road)

  const IDLE := LaneStats(0, 0.0, 0.0, 0.0, false)

  const START := Sim(AllRed, None, 0.0, 0, Book(0, {}), Road(false, Same(Healthy), Same(IDLE)))

  function Updated(before: LaneStats, d: Demand): LaneStats {
    LaneStats(
      if d.vehicles.Some? then d.vehicles.value else before.rawCount,
      if d.pce.Some? then d.pce.value else before.pce,
      0.0, 0.0,
      if d.priority.Some? then d.priority.value else before.hasPriority)
  }

  function UpdatedAt(stats: PerLane<LaneStats>, demands: Demands, lane: Lane): LaneStats {
    if lane in demands then Updated(stats.Get(lane), demands[lane]) else stats.Get(lane)
  }

  function UpdateStats(stats: PerLane<LaneStats>, demands: Demands): PerLane<LaneStats> {
    PerLane(UpdatedAt(stats, demands, North), UpdatedAt(stats, demands, East),
            UpdatedAt(stats, demands, South), UpdatedAt(stats, demands, West))
  }

  function Informed(r: Road, demands: Demands): (r': Road)
    ensures r'.cameras == r.cameras && r'.stalled == r.stalled
  {
    r.(stats := UpdateStats(r.stats, demands))
  }

  predicate AllOffline(cameras: PerLane<Camera>) {
    cameras == Same(Offline)
  }

  predicate Holding(r: Road) {
    r.stalled || AllOffline(r.cameras)
  }

  function FreshLanes(cameras: PerLane<Camera>): set<Lane> {
    set l | l in FOUR_LANES && cameras.Get(l) != Offline
  }

  function SchedulerCall(r: Road, cfg: Config): Call {
    Call(cfg.rank(r.stats), StatsMap(r.stats), FreshLanes(r.cameras))
  }

  /** A repeated lane, or the fourth lane, ends a cycle. */
  function Enter(b: Book, lane: Lane): Book {
    if lane in b.served || |b.served| >= 4 then Book(b.cycles + 1, {lane})
    else if |b.served + {lane}| == 4 then Book(b.cycles + 1, {})
    else Book(b.cycles, b.served + {lane})
  }

  /** Clearance is over: give the next green, or stay at red. */
  function Select(cursor: Cursor, book: Book, road: Road, cfg: Config): Sim {
    var c := SchedulerCall(road, cfg);
    match Choose(cursor, c)
    case None => Sim(AllRed, None, 0.0, cursor, book, road)
    case Some(winner) =>
      Sim(Green, Some(winner.lane), cfg.green(winner, c.scores) as real,
          NextCursor(cursor, c), Enter(book, winner.lane), road)
  }

  /** The tick on which the stepper asks the scheduler. */
  predicate Selects(s: Sim, dt: real) {
    !Holding(s.road) && s.phase == AllRed && s.remaining - dt <= 0.0
  }

  function Step(s: Sim, cfg: Config, dt: real, demands: Demands): Sim {
    var road := Informed(s.road, demands);
    var left := s.remaining - dt;
    if Holding(s.road) then Sim(AllRed, None, 0.0, s.cursor, s.book, road)
    else if Selects(s, dt) then Select(s.cursor, s.book, road, cfg)
    else if left > 0.0 then s.(remaining := left, road := road)
    else if s.phase == Green then s.(phase := Yellow, remaining := cfg.yellow as real, road := road)
    else s.(phase := AllRed, remaining := cfg.allRed as real, road := road)
  }

  function Dropout(s: Sim, cfg: Config, lane: Lane, status: Camera): Sim {
    if lane !in FOUR_LANES then s
    else
      var road := s.road.(cameras := s.road.cameras.Put(lane, status));
      if s.active == Some(lane) && s.phase == Green then
        s.(phase := Yellow, remaining := cfg.yellow as real, road := road)
      else s.(road := road)
  }

  function Stall(s: Sim, stalled: bool): Sim {
    var road := s.road.(stalled := stalled);
    if stalled then Sim(AllRed, None, 0.0, s.cursor, s.book, road) else s.(road := road)
  }

  function Shows(s: Sim): Shown {
    var dark := s.phase == AllRed || s.active == None;
    Shown(if dark then AllRed else s.phase, if dark then None else s.active, s.remaining)
  }

  function SignalAt(s: Sim, lane: Lane): Phase {
    if s.phase != AllRed && s.active == Some(lane) then s.phase else AllRed
  }

  lemma LanesDecide<T>(a: PerLane<T>, b: PerLane<T>)
    requires forall l | l in FOUR_LANES :: a.Get(l) == b.Get(l)
    ensures a == b
  {
    assert a.Get(North) == b.Get(North) && a.Get(East) == b.Get(East) && a.Get(South) == b.Get(South)
           && a.Get(West) == b.Get(West);
  }

  class DigitalIntersection {
    const minGreenSec: int
    const maxGreenSec: int
    const yellowSec: int
    const allRedSec: int
    const simScheduler: SignalScheduler
    const simCalculator: PriorityCalculator
    var simPhaseState: Phase
    var simActiveLane: Option<Lane>
    var simRemainingSec: real
    var simCycleCount: nat
    var simLanesServedInCycle: set<Lane>
    var simAiStalled: bool
    var simCameraStatus: PerLane<Camera>
    var simStats: PerLane<LaneStats>

    ghost predicate Valid()
      reads this, simScheduler
    {
      simScheduler.minGreenSec == minGreenSec && simScheduler.maxGreenSec == maxGreenSec
    }

    ghost function Settings(): Config {
      Config(RankWith(simCalculator.weights), GreenWith(minGreenSec, maxGreenSec), yellowSec, allRedSec)
    }

    ghost function View(): Sim
      reads this, simScheduler
    {
      Sim(simPhaseState, simActiveLane, simRemainingSec, simScheduler.nextCycleIndex,
          Book(simCycleCount, simLanesServedInCycle), Road(simAiStalled, simCameraStatus, simStats))
    }

    constructor (minGreenSec: int, maxGreenSec: int, yellowSec: int, allRedSec: int)
      ensures Valid() && fresh(simScheduler) && View() == START
      ensures Settings()
              == Config(RankWith(Normalize(DEFAULT_WEIGHTS)), GreenWith(minGreenSec, maxGreenSec), yellowSec, allRedSec)
    {
      this.minGreenSec := minGreenSec;
      this.maxGreenSec := maxGreenSec;
      this.yellowSec := yellowSec;
      this.allRedSec := allRedSec;
      simScheduler := new SignalScheduler(minGreenSec, maxGreenSec, yellowSec);
      simCalculator := new PriorityCalculator(DEFAULT_WEIGHTS);
      simPhaseState := AllRed;
      simActiveLane := None;
      simRemainingSec := 0.0;
      simCycleCount := 0;
      simLanesServedInCycle := {};
      simAiStalled := false;
      simCameraStatus := START.road.cameras;
      simStats := START.road.stats;
    }

    method TriggerCameraDropout(lane: Lane, status: Camera)
      requires Valid()
      modifies this
      ensures Valid() && View() == Dropout(old(View()), Settings(), lane, status)
    {
      if lane in FOUR_LANES {
        simCameraStatus := simCameraStatus.Put(lane, status);
        if simActiveLane == Some(lane) && simPhaseState == Green {
          simPhaseState := Yellow;
          simRemainingSec := yellowSec as real;
        }
      }
    }

    method TriggerAiStall(stalled: bool)
      requires Valid()
      modifies this
      ensures Valid() && View() == Stall(old(View()), stalled)
    {
      simAiStalled := stalled;
      if stalled {
        simPhaseState := AllRed;
        simActiveLane := None;
        simRemainingSec := 0.0;
      }
    }

    method ApplyDemand(l: Lane, d: Demand)
      requires Valid() && l in FOUR_LANES
      modifies this`simStats
      ensures simStats == old(simStats).Put(l, Updated(old(simStats).Get(l), d))
    {
      var before := simStats.Get(l);
      var rawCount := if d.vehicles.Some? then d.vehicles.value else before.rawCount;
      var pce := if d.pce.Some? then d.pce.value else before.pce;
      var hasPriority := if d.priority.Some? then d.priority.value else before.hasPriority;
      simStats := simStats.Put(l, LaneStats(rawCount, pce, 0.0, 0.0, hasPriority));
    }

    method ApplyDemands(demands: Demands)
      requires Valid()
      modifies this`simStats
      ensures simStats == UpdateStats(old(simStats), demands)
    {
      hide Updated;
      var todo := demands.Keys;
      while todo != {}
        invariant todo <= demands.Keys
        invariant forall l | l in FOUR_LANES ::
          simStats.Get(l) == if l in todo then old(simStats).Get(l) else UpdatedAt(old(simStats), demands, l)
      {
        var l :| l in todo;
        if l in FOUR_LANES {
          ApplyDemand(l, demands[l]);
        }
        todo := todo - {l};
      }
      LanesDecide(simStats, UpdateStats(old(simStats), demands));
    }

    method StepSimulation(dt: real, demands: Demands)
      requires Valid()
      modifies this, simScheduler
      ensures Valid() && View() == Step(old(View()), Settings(), dt, demands)
    {
      hide Select;
      ApplyDemands(demands);
      if simAiStalled || AllOffline(simCameraStatus) {
        simPhaseState := AllRed;
        simActiveLane := None;
        simRemainingSec := 0.0;
        return;
      }
      if simPhaseState == Green {
        simRemainingSec := simRemainingSec - dt;
        if simRemainingSec <= 0.0 {
          simPhaseState := Yellow;
          simRemainingSec := yellowSec as real;
        }
      } else if simPhaseState == Yellow {
        simRemainingSec := simRemainingSec - dt;
        if simRemainingSec <= 0.0 {
          simPhaseState := AllRed;
          simRemainingSec := allRedSec as real;
        }
      } else {
        simRemainingSec := if simRemainingSec - dt > 0.0 then simRemainingSec - dt else 0.0;
        if simRemainingSec <= 0.0 {
          SelectNext();
        }
      }
    }

    /** Ask the scheduler, with the current scores and the cameras that are not offline. */
    method NextDecision() returns (decision: Option<SignalDecision>)
      requires Valid()
      modifies simScheduler`nextCycleIndex
      ensures var c := SchedulerCall(old(View().road), Settings());
        var chosen := Choose(old(simScheduler.nextCycleIndex), c);
        && simScheduler.nextCycleIndex == NextCursor(old(simScheduler.nextCycleIndex), c)
        && (decision.Some? <==> chosen.Some?)
        && (chosen.Some? ==> decision.value.greenLane == chosen.value.lane)
        && (chosen.Some? ==> decision.value.greenSec == Settings().green(chosen.value, c.scores))
    {
      hide Choose, GreenTime, SortDesc, NextCursor;
      ghost var c := SchedulerCall(View().road, Settings());
      var activeFresh := FreshLanes(simCameraStatus);
      var priority := simCalculator.Calculate(Entries(simStats));
      assert priority.scores == c.scores;
      ChosenIsListed(simScheduler.nextCycleIndex, c);
      var eligible := simScheduler.SelectEligible(priority, StatsMap(simStats), activeFresh);
      decision := None;
      if eligible.Some? {
        decision := simScheduler.Schedule(eligible.value, 1);
      }
    }

    method SelectNext()
      requires Valid() && simPhaseState == AllRed
      modifies this, simScheduler
      ensures Valid() && View() == Select(old(View().cursor), old(View().book), old(View().road), Settings())
    {
      hide Choose, SchedulerCall, RankWith, GreenWith, Advance;
      var decision := NextDecision();
      if decision.Some? {
        var lane := decision.value.greenLane;
        simActiveLane := Some(lane);
        simPhaseState := Green;
        simRemainingSec := decision.value.greenSec as real;
        if lane in simLanesServedInCycle || |simLanesServedInCycle| >= 4 {
          simCycleCount := simCycleCount + 1;
          simLanesServedInCycle := {lane};
        } else {
          simLanesServedInCycle := simLanesServedInCycle + {lane};
          if |simLanesServedInCycle| == 4 {
            simCycleCount := simCycleCount + 1;
            simLanesServedInCycle := {};
          }
        }
      } else {
        simActiveLane := None;
        simPhaseState := AllRed;
        simRemainingSec := 0.0;
      }
    }

    /** The signal of every approach; whatever the state, at most one is not red. */
    method BuildSignals() returns (signals: map<Lane, Phase>, shown: Shown, seconds: nat)
      ensures signals.Keys == FOUR_LANES && shown == Shows(View()) && seconds == Seconds(shown.remaining)
      ensures forall l | l in signals :: signals[l] == SignalAt(View(), l)
      ensures forall l, m | l in signals && m in signals && l != m :: signals[l] == AllRed || signals[m] == AllRed
    {
      signals := map[];
      var index := 0;
      while index < |CYCLE|
        invariant 0 <= index <= 4
        invariant forall l :: l in signals <==> exists i | 0 <= i < index :: CYCLE[i] == l
        invariant forall l | l in signals :: signals[l] == SignalAt(View(), l)
      {
        var lane := CYCLE[index];
        var signal := if simPhaseState == Green && simActiveLane == Some(lane) then Green
                      else if simPhaseState == Yellow && simActiveLane == Some(lane) then Yellow
                      else AllRed;
        signals := signals[lane := signal];
        index := index + 1;
      }
      assert forall l | l in FOUR_LANES :: CYCLE[Position(l)] == l;
      shown := if simPhaseState != AllRed && simActiveLane.Some?
        then Shown(simPhaseState, simActiveLane, simRemainingSec)
        else Shown(AllRed, None, simRemainingSec);
      seconds := Seconds(shown.remaining);
    }
  }
}
