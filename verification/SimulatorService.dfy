/** Service in the simulated junction: how many greens, and how much time, until a waiting approach has its own. */
module SimulatorService {
  import opened Rounding
  import opened Signals
  import opened Scheduling
  import opened SignalPhases
  import opened Intersection
  import opened IntersectionRuns

  // ----- runs from any state -----------------------------------------------------------------------

  function RunFrom(s: Sim, cfg: Config, events: seq<Event>): Sim
    decreases |events|
  {
    if events == [] then s else RunFrom(Apply(s, cfg, events[0]), cfg, events[1..])
  }

  /** The lanes given a green on the way. */
  function GrantsFrom(s: Sim, cfg: Config, events: seq<Event>): seq<Lane>
    decreases |events|
  {
    if events == [] then []
    else
      var s' := Apply(s, cfg, events[0]);
      (if IsGrant(s, s') then [s'.active.value] else []) + GrantsFrom(s', cfg, events[1..])
  }

  /** What the scheduler was given each time. */
  function CallsFrom(s: Sim, cfg: Config, events: seq<Event>): seq<Call>
    decreases |events|
  {
    if events == [] then []
    else
      var s' := Apply(s, cfg, events[0]);
      (if IsGrant(s, s') then [SchedulerCall(s'.road, cfg)] else []) + CallsFrom(s', cfg, events[1..])
  }

  lemma {:induction false} RunOn(cfg: Config, before: seq<Event>, after: seq<Event>)
    ensures RunFrom(Run(cfg, before), cfg, after) == Run(cfg, before + after)
    ensures Grants(cfg, before + after) == Grants(cfg, before) + GrantsFrom(Run(cfg, before), cfg, after)
    decreases |after|
  {
    hide Apply;
    if after == [] {
      assert before + after == before;
    } else {
      var more := before + [after[0]];
      assert more[..|before|] == before && more + after[1..] == before + after;
      RunOn(cfg, more, after[1..]);
      var s, s' := Run(cfg, before), Run(cfg, more);
      assert Grants(cfg, more) == Grants(cfg, before) + if IsGrant(s, s') then [s'.active.value] else [];
    }
  }

  /** A grant is the scheduler's choice, and moves the cursor as the choice does. */
  lemma GrantIsChoice(s: Sim, cfg: Config, e: Event)
    requires IsGrant(s, Apply(s, cfg, e))
    ensures var s' := Apply(s, cfg, e); var c := SchedulerCall(s'.road, cfg);
      && Choose(s.cursor, c).Some? && s'.active.value == Choose(s.cursor, c).value.lane
      && s'.cursor == NextCursor(s.cursor, c)
  {
    hide Choose, NextCursor, SchedulerCall, Informed;
    GreenEntry(s, cfg, e);
    TickToGreen(s, cfg, e.dt, e.demands);
    SelectFacts(s.cursor, s.book, Informed(s.road, e.demands), cfg);
  }

  lemma {:induction false} GrantsAreWinners(s: Sim, cfg: Config, events: seq<Event>)
    ensures |GrantsFrom(s, cfg, events)| == |CallsFrom(s, cfg, events)|
    ensures forall i | 0 <= i < |GrantsFrom(s, cfg, events)| ::
      Winners(s.cursor, CallsFrom(s, cfg, events))[i] == Some(GrantsFrom(s, cfg, events)[i])
    decreases |events|
  {
    hide Apply, Choose, NextCursor, SchedulerCall;
    if events != [] {
      var s' := Apply(s, cfg, events[0]);
      var rest := CallsFrom(s', cfg, events[1..]);
      GrantsAreWinners(s', cfg, events[1..]);
      if IsGrant(s, s') {
        var c := SchedulerCall(s'.road, cfg);
        GrantIsChoice(s, cfg, events[0]);
        assert ([c] + rest)[1..] == rest;
      } else {
        NoGrantKeepsBook(s, cfg, events[0]);
        assert [] + rest == rest;
        assert GrantsFrom(s, cfg, events) == GrantsFrom(s', cfg, events[1..]);
      }
    }
  }

  // ----- how many greens -----------------------------------------------------------------------------

  /** Online and occupied. */
  predicate InService(r: Road, lane: Lane) {
    r.cameras.Get(lane) != Offline && r.stats.Get(lane).rawCount > 0
  }

  /** The approach is online and occupied after every event. */
  predicate AlwaysInService(s: Sim, cfg: Config, events: seq<Event>, lane: Lane)
    decreases |events|
  {
    if events == [] then true
    else
      var s' := Apply(s, cfg, events[0]);
      InService(s'.road, lane) && AlwaysInService(s', cfg, events[1..], lane)
  }

  lemma {:induction false} CallsWant(s: Sim, cfg: Config, events: seq<Event>, lane: Lane)
    requires lane in FOUR_LANES && RanksAll(cfg) && AlwaysInService(s, cfg, events, lane)
    ensures AlwaysWants(CallsFrom(s, cfg, events), lane)
    decreases |events|
  {
    hide Apply, Wants, RanksAll, SchedulerCall;
    if events != [] {
      var s' := Apply(s, cfg, events[0]);
      CallsWant(s', cfg, events[1..], lane);
      InTheRunning(s'.road, cfg, lane);
    }
  }

  /** Only the calls on the way to the first greens matter. */
  lemma FirstGreens(s: Sim, cfg: Config, events: seq<Event>, lane: Lane, k: nat)
    requires lane in FOUR_LANES && RanksAll(cfg) && AlwaysInService(s, cfg, events, lane)
    requires EmergencyCalls(CallsFrom(s, cfg, events)) <= k && |GrantsFrom(s, cfg, events)| >= 3 * k + 4
    ensures lane in GrantsFrom(s, cfg, events)[..3 * k + 4]
  {
    hide AlwaysWants, AlwaysInService, EmergencyCalls, CallsFrom, GrantsFrom, RanksAll, Winners;
    var calls, grants := CallsFrom(s, cfg, events), GrantsFrom(s, cfg, events);
    CallsWant(s, cfg, events, lane);
    GrantsAreWinners(s, cfg, events);
    BoundedService(s.cursor, calls, lane, k);
    WinnersPrefix(s.cursor, calls, 3 * k + 4);
    SomeWinner(Winners(s.cursor, calls)[..3 * k + 4], grants[..3 * k + 4], lane);
  }

  lemma Slice(a: seq<Lane>, b: seq<Lane>, n: nat)
    requires n <= |b|
    ensures (a + b)[|a|..|a| + n] == b[..n]
  {
  }

  /**
   * An approach that stays online and occupied is among the next 3k + 4 greens, when at most k of the scheduler's calls
   * see an emergency, from whatever state and whatever else happens, stalls and dropouts included.
   */
  lemma NextGreens(cfg: Config, before: seq<Event>, after: seq<Event>, lane: Lane, k: nat)
    requires lane in FOUR_LANES && RanksAll(cfg) && AlwaysInService(Run(cfg, before), cfg, after, lane)
    requires EmergencyCalls(CallsFrom(Run(cfg, before), cfg, after)) <= k
    requires |Grants(cfg, before + after)| >= |Grants(cfg, before)| + 3 * k + 4
    ensures lane in Grants(cfg, before + after)[|Grants(cfg, before)|..|Grants(cfg, before)| + 3 * k + 4]
  {
    hide Run, Grants, AlwaysInService, EmergencyCalls, CallsFrom, GrantsFrom, RanksAll;
    RunOn(cfg, before, after);
    FirstGreens(Run(cfg, before), cfg, after, lane, k);
    Slice(Grants(cfg, before), GrantsFrom(Run(cfg, before), cfg, after), 3 * k + 4);
  }

  // ----- how much time -----------------------------------------------------------------------------

  /** Durations that are not negative, with greens of at most `longest`. */
  ghost predicate Bounded(cfg: Config, longest: int) {
    && cfg.yellow >= 0 && cfg.allRed >= 0
    && forall winner, scores :: 0 <= cfg.green(winner, scores) <= longest
  }

  /** The simulator's own green times, between its two bounds. */
  lemma GreenBounded(minSec: int, maxSec: int, rank: PerLane<LaneStats> -> seq<PriorityScore>, yellow: int, allRed: int)
    requires 0 <= minSec <= maxSec && yellow >= 0 && allRed >= 0
    ensures Bounded(Config(rank, GreenWith(minSec, maxSec), yellow, allRed), maxSec)
  {
    hide UnclampedGreen;
  }

  /** Time steps of at most `step` and no stall. */
  ghost predicate Steady(events: seq<Event>, step: real) {
    forall i | 0 <= i < |events| ::
      (events[i].Tick? ==> 0.0 <= events[i].dt <= step) && events[i] != SetStall(true)
  }

  function Elapsed(events: seq<Event>): real {
    if events == [] then 0.0 else (if events[0].Tick? then events[0].dt else 0.0) + Elapsed(events[1..])
  }

  /** At most this long until the next green, each phase overrunning by at most one step. */
  function Wait(s: Sim, cfg: Config, step: real): real {
    match s.phase
    case Green => s.remaining + (cfg.yellow + cfg.allRed) as real + 3.0 * step
    case Yellow => s.remaining + cfg.allRed as real + 2.0 * step
    case AllRed => s.remaining + step
  }

  /** The longest turn, clearance and overruns included. */
  function Cycle(cfg: Config, longest: int, step: real): real {
    (longest + cfg.yellow + cfg.allRed) as real + 3.0 * step
  }

  lemma WaitStep(s: Sim, cfg: Config, e: Event, lane: Lane, longest: int, step: real)
    requires lane in FOUR_LANES && RanksAll(cfg) && Bounded(cfg, longest) && Steady([e], step) && step >= 0.0
    requires s.remaining >= 0.0 && !s.road.stalled && s.road.cameras.Get(lane) != Offline
    requires InService(Apply(s, cfg, e).road, lane)
    ensures var s' := Apply(s, cfg, e);
      && s'.remaining >= 0.0 && !s'.road.stalled
      && Elapsed([e]) + Wait(s', cfg, step)
         <= Wait(s, cfg, step) + if IsGrant(s, s') then Cycle(cfg, longest, step) else 0.0
  {
    hide Select, Informed, RanksAll;
    assert [e][0] == e && Elapsed([e]) == if e.Tick? then e.dt else 0.0;
    if e.Tick? && Selects(s, e.dt) {
      SelectGrants(s, cfg, e, lane, longest);
    }
  }

  /** With an approach in service the end of clearance always gives a green. */
  lemma SelectGrants(s: Sim, cfg: Config, e: Event, lane: Lane, longest: int)
    requires lane in FOUR_LANES && RanksAll(cfg) && Bounded(cfg, longest)
    requires e.Tick? && Selects(s, e.dt) && InService(Apply(s, cfg, e).road, lane)
    ensures var s' := Apply(s, cfg, e);
      IsGrant(s, s') && 0.0 <= s'.remaining <= longest as real && s'.road.stalled == s.road.stalled
  {
    hide Choose, RanksAll, Informed;
    var road := Informed(s.road, e.demands);
    SelectFacts(s.cursor, s.book, road, cfg);
    InTheRunning(road, cfg, lane);
    ScanOrEmergency(s.cursor, SchedulerCall(road, cfg), lane);
  }

  lemma {:induction false} TimeBound(s: Sim, cfg: Config, events: seq<Event>, lane: Lane, longest: int, step: real)
    requires lane in FOUR_LANES && RanksAll(cfg) && Bounded(cfg, longest) && Steady(events, step) && step >= 0.0
    requires s.remaining >= 0.0 && !s.road.stalled && s.road.cameras.Get(lane) != Offline
    requires AlwaysInService(s, cfg, events, lane)
    ensures Elapsed(events) <= Wait(s, cfg, step) + |GrantsFrom(s, cfg, events)| as real * Cycle(cfg, longest, step)
    decreases |events|
  {
    hide Apply, Wait, Cycle, RanksAll, Bounded, GrantsFrom, IsGrant, Elapsed;
    GrantsStep(s, cfg, events);
    ElapsedStep(events);
    if events == [] {
      WaitIsPositive(s, cfg, step, longest);
    } else {
      var e, rest := events[0], events[1..];
      var s' := Apply(s, cfg, e);
      WaitStep(s, cfg, e, lane, longest, step);
      TimeBound(s', cfg, rest, lane, longest, step);
      OneMoreTime(|GrantsFrom(s', cfg, rest)| as real, Cycle(cfg, longest, step));
    }
  }

  lemma GrantsStep(s: Sim, cfg: Config, events: seq<Event>)
    ensures events == [] ==> GrantsFrom(s, cfg, events) == []
    ensures events != [] ==>
      var s' := Apply(s, cfg, events[0]);
      |GrantsFrom(s, cfg, events)| == |GrantsFrom(s', cfg, events[1..])| + if IsGrant(s, s') then 1 else 0
  {
    hide Apply;
  }

  lemma ElapsedStep(events: seq<Event>)
    ensures events == [] ==> Elapsed(events) == 0.0
    ensures events != [] ==> Elapsed(events) == Elapsed([events[0]]) + Elapsed(events[1..])
  {
    assert events != [] ==> [events[0]][1..] == [];
  }

  lemma WaitIsPositive(s: Sim, cfg: Config, step: real, longest: int)
    requires s.remaining >= 0.0 && step >= 0.0 && Bounded(cfg, longest)
    ensures Wait(s, cfg, step) >= 0.0
  {
  }

  lemma CycleNotNegative(cfg: Config, longest: int, step: real)
    requires Bounded(cfg, longest) && step >= 0.0
    ensures Cycle(cfg, longest, step) >= 0.0
  {
    var p := PriorityScore(North, 0.0, 0, Breakdown(0.0, 0.0, 0.0, 0.0, 0.0, 0.0, 0.0));
    assert cfg.green(p, []) >= 0;
  }

  lemma {:induction false} RemainingNotNegative(cfg: Config, events: seq<Event>, longest: int)
    requires Bounded(cfg, longest)
    ensures Run(cfg, events).remaining >= 0.0
  {
    hide Choose;
    if events != [] {
      RemainingNotNegative(cfg, events[..|events| - 1], longest);
    }
  }

  /** Fewer greens than this take less time than this. */
  lemma EnoughGreens(grants: nat, needed: nat, elapsed: real, first: real, cycle: real)
    requires elapsed <= first + grants as real * cycle && elapsed > first + (needed as real - 1.0) * cycle
    requires cycle >= 0.0
    ensures grants >= needed
  {
    if grants < needed {
      ProductNotNegative(needed as real - 1.0 - grants as real, cycle);
    }
  }

  lemma ProductNotNegative(x: real, y: real)
    requires x >= 0.0 && y >= 0.0
    ensures x * y >= 0.0
  {
  }

  /**
   * Without a stall, an approach that stays online and occupied has had its green once the clock has gone past the
   * present turn and 3k + 3 more of the longest kind, when at most k of the scheduler's calls see an emergency.
   */
  lemma GreenWithin(s: Sim, cfg: Config, events: seq<Event>, lane: Lane, k: nat, longest: int, step: real)
    requires lane in FOUR_LANES && RanksAll(cfg) && Bounded(cfg, longest) && Steady(events, step) && step >= 0.0
    requires s.remaining >= 0.0 && !s.road.stalled && InService(s.road, lane)
    requires AlwaysInService(s, cfg, events, lane) && EmergencyCalls(CallsFrom(s, cfg, events)) <= k
    requires Elapsed(events) > Wait(s, cfg, step) + (3 * k + 3) as real * Cycle(cfg, longest, step)
    ensures |GrantsFrom(s, cfg, events)| >= 3 * k + 4 && lane in GrantsFrom(s, cfg, events)[..3 * k + 4]
  {
    hide GrantsFrom, CallsFrom, AlwaysInService, EmergencyCalls, Wait, RanksAll, Cycle, Elapsed, Steady, Bounded;
    CycleNotNegative(cfg, longest, step);
    TimeBound(s, cfg, events, lane, longest, step);
    assert (3 * k + 3) as real == (3 * k + 4) as real - 1.0;
    var turn := Cycle(cfg, longest, step);
    EnoughGreens(|GrantsFrom(s, cfg, events)|, 3 * k + 4, Elapsed(events), Wait(s, cfg, step), turn);
    FirstGreens(s, cfg, events, lane, k);
  }

  /** So it is at every point of every run. */
  lemma GreenInTime(cfg: Config, before: seq<Event>, after: seq<Event>, lane: Lane, k: nat, longest: int, step: real)
    requires lane in FOUR_LANES && RanksAll(cfg) && Bounded(cfg, longest) && Steady(after, step) && step >= 0.0
    requires !Run(cfg, before).road.stalled && InService(Run(cfg, before).road, lane)
    requires AlwaysInService(Run(cfg, before), cfg, after, lane)
    requires EmergencyCalls(CallsFrom(Run(cfg, before), cfg, after)) <= k
    requires Elapsed(after) > Wait(Run(cfg, before), cfg, step) + (3 * k + 3) as real * Cycle(cfg, longest, step)
    ensures |Grants(cfg, before + after)| >= |Grants(cfg, before)| + 3 * k + 4
    ensures lane in Grants(cfg, before + after)[|Grants(cfg, before)|..|Grants(cfg, before)| + 3 * k + 4]
  {
    hide Run, Grants, GrantsFrom, CallsFrom, AlwaysInService, EmergencyCalls, Wait, RanksAll, Cycle, Elapsed, Steady;
    RemainingNotNegative(cfg, before, longest);
    GreenWithin(Run(cfg, before), cfg, after, lane, k, longest, step);
    RunOn(cfg, before, after);
    Slice(Grants(cfg, before), GrantsFrom(Run(cfg, before), cfg, after), 3 * k + 4);
  }
}
