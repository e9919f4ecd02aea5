/** What holds over every run of the simulated junction, whatever the demands, dropouts and stalls. */
module IntersectionRuns {
  import opened Signals
  import opened StableSort
  import opened Scheduling
  import opened PriorityCalculation
  import opened SignalPhases
  import opened Intersection

  datatype Event = Tick(dt: real, demands: Demands) | Drop(lane: Lane, status: Camera) | SetStall(stalled: bool)

  function Apply(s: Sim, cfg: Config, e: Event): (s': Sim)
  {
    match e
    case Tick(dt, demands) => Step(s, cfg, dt, demands)
    case Drop(lane, status) => Dropout(s, cfg, lane, status)
    case SetStall(stalled) => Stall(s, stalled)
  }

  function Run(cfg: Config, events: seq<Event>): (s: Sim)
  {
    if events == [] then START else Apply(Run(cfg, events[..|events| - 1]), cfg, events[|events| - 1])
  }

  predicate IsGrant(s: Sim, s': Sim) {
    s.phase == AllRed && s'.phase == Green && s'.active.Some?
  }

  /** The lanes that were given a green, in order. */
  function Grants(cfg: Config, events: seq<Event>): seq<Lane> {
    if events == [] then []
    else
      var before, after := Run(cfg, events[..|events| - 1]), Run(cfg, events);
      Grants(cfg, events[..|events| - 1]) + if IsGrant(before, after) then [after.active.value] else []
  }

  // ----- what the junction knows of its approaches -------------------------------------------------

  /** What the latest event that says anything about it said, or how it began. */
  function Reported<T>(events: seq<Event>, said: Event -> Option<T>, initial: T): T {
    if events == [] then initial
    else
      var latest := said(events[|events| - 1]);
      if latest.Some? then latest.value else Reported(events[..|events| - 1], said, initial)
  }

  function DemandIn(e: Event, lane: Lane): Demand {
    if e.Tick? && lane in e.demands then e.demands[lane] else Demand(None, None, None)
  }

  function StatusIn(e: Event, lane: Lane): Option<Camera> {
    if e.Drop? && e.lane == lane then Some(e.status) else None
  }

  function StallIn(e: Event): Option<bool> {
    if e.SetStall? then Some(e.stalled) else None
  }

  /** An event leaves of an approach what it reports, and what was known where it reports nothing. */
  lemma KnownAfter(s: Sim, cfg: Config, e: Event, lane: Lane)
    requires lane in FOUR_LANES
    ensures var was, now := s.road.stats.Get(lane), Apply(s, cfg, e).road.stats.Get(lane); var d := DemandIn(e, lane);
      && now.rawCount == (if d.vehicles.Some? then d.vehicles.value else was.rawCount)
      && now.pce == (if d.pce.Some? then d.pce.value else was.pce)
      && now.hasPriority == (if d.priority.Some? then d.priority.value else was.hasPriority)
      && (was.queueSec == was.congestion == 0.0 ==> now.queueSec == now.congestion == 0.0)
  {
    hide Select;
    if e.Tick? {
      SelectFacts(s.cursor, s.book, Informed(s.road, e.demands), cfg);
    }
  }

  lemma SeenAfter(s: Sim, cfg: Config, e: Event, lane: Lane)
    requires lane in FOUR_LANES
    ensures var road := Apply(s, cfg, e).road; var status, stall := StatusIn(e, lane), StallIn(e);
      && road.cameras.Get(lane) == (if status.Some? then status.value else s.road.cameras.Get(lane))
      && road.stalled == (if stall.Some? then stall.value else s.road.stalled)
  {
    hide Select, Informed;
    if e.Tick? {
      SelectFacts(s.cursor, s.book, Informed(s.road, e.demands), cfg);
    }
  }

  /** After every run each approach has the latest demand reported for it, its camera and the stall the last setting. */
  lemma {:induction false} RoadIsReported(cfg: Config, events: seq<Event>, lane: Lane)
    requires lane in FOUR_LANES
    ensures var road := Run(cfg, events).road; var stats := road.stats.Get(lane);
      && stats.rawCount == Reported(events, (e: Event) => DemandIn(e, lane).vehicles, 0)
      && stats.pce == Reported(events, (e: Event) => DemandIn(e, lane).pce, 0.0)
      && stats.hasPriority == Reported(events, (e: Event) => DemandIn(e, lane).priority, false)
      && stats.queueSec == 0.0 && stats.congestion == 0.0
      && road.cameras.Get(lane) == Reported(events, (e: Event) => StatusIn(e, lane), Healthy)
      && road.stalled == Reported(events, StallIn, false)
  {
    hide Apply, DemandIn, StatusIn, StallIn;
    if events != [] {
      var rest, e := events[..|events| - 1], events[|events| - 1];
      RoadIsReported(cfg, rest, lane);
      KnownAfter(Run(cfg, rest), cfg, e, lane);
      SeenAfter(Run(cfg, rest), cfg, e, lane);
    }
  }

  // ----- how a green is entered ------------------------------------------------------------------

  /** A select either books one lane that is not offline and has demand, or leaves the junction red. */
  lemma SelectFacts(cursor: Cursor, book: Book, road: Road, cfg: Config)
    ensures var s := Select(cursor, book, road, cfg);
      && s.road == road && (s.phase == Green || s.phase == AllRed)
      && (s.phase == Green ==>
            && s.active.Some? && s.active.value in FOUR_LANES
            && road.cameras.Get(s.active.value) != Offline && road.stats.Get(s.active.value).rawCount > 0
            && s.book == Enter(book, s.active.value) && s.cursor == Advance(cursor, s.active.value))
      && (s.phase == AllRed ==> s.remaining == 0.0 && s.book == book && s.cursor == cursor)
  {
    ChosenHasDemand(cursor, SchedulerCall(road, cfg));
  }

  lemma TickToGreen(s: Sim, cfg: Config, dt: real, demands: Demands)
    requires s.phase != Green && Step(s, cfg, dt, demands).phase == Green
    ensures Selects(s, dt) && !s.road.stalled
    ensures Step(s, cfg, dt, demands) == Select(s.cursor, s.book, Informed(s.road, demands), cfg)
  {
    hide Select, Informed;
  }

  /**
   Every green is entered from all-red, on a tick that finds no clearance time left, for a lane
   whose camera is not offline and which has demand.
   */
  lemma GreenEntry(s: Sim, cfg: Config, e: Event)
    requires s.phase != Green && Apply(s, cfg, e).phase == Green
    ensures var s' := Apply(s, cfg, e);
      && e.Tick? && s.phase == AllRed && s.remaining - e.dt <= 0.0 && IsGrant(s, s')
      && s'.active.value in FOUR_LANES && !s'.road.stalled && s'.road.cameras.Get(s'.active.value) != Offline
      && s'.road.stats.Get(s'.active.value).rawCount > 0
  {
    hide Select, Informed, Step;
    if e.Tick? {
      TickToGreen(s, cfg, e.dt, e.demands);
      SelectFacts(s.cursor, s.book, Informed(s.road, e.demands), cfg);
    }
  }

  /** What an event that grants nothing leaves alone. */
  lemma NoGrantKeepsBook(s: Sim, cfg: Config, e: Event)
    requires !IsGrant(s, Apply(s, cfg, e))
    ensures var s' := Apply(s, cfg, e);
      s'.book == s.book && s'.cursor == s.cursor
  {
    hide Select, Informed;
    if e.Tick? {
      SelectFacts(s.cursor, s.book, Informed(s.road, e.demands), cfg);
    }
  }

  lemma GrantBooks(s: Sim, cfg: Config, e: Event)
    requires IsGrant(s, Apply(s, cfg, e))
    ensures var s' := Apply(s, cfg, e); var lane := s'.active.value;
      && lane in FOUR_LANES && s'.book == Enter(s.book, lane)
      && s'.cursor == Advance(s.cursor, lane)
  {
    hide Select, Informed;
    GreenEntry(s, cfg, e);
    SelectFacts(s.cursor, s.book, Informed(s.road, e.demands), cfg);
  }

  // ----- holds, dropouts and the display ---------------------------------------------------------

  /** By the latest reports the detector is stalled or every camera is offline. */
  ghost predicate MustHold(events: seq<Event>) {
    Reported(events, StallIn, false)
    || forall lane | lane in FOUR_LANES :: Reported(events, (e: Event) => StatusIn(e, lane), Healthy) == Offline
  }

  lemma HoldingIsReported(cfg: Config, events: seq<Event>)
    ensures Holding(Run(cfg, events).road) <==> MustHold(events)
  {
    hide Run, Reported, StatusIn, StallIn;
    var road := Run(cfg, events).road;
    forall lane | lane in FOUR_LANES
      ensures road.cameras.Get(lane) == Reported(events, (e: Event) => StatusIn(e, lane), Healthy)
    {
      RoadIsReported(cfg, events, lane);
    }
    RoadIsReported(cfg, events, North);
    OfflineMeans(road.cameras);
  }

  lemma OfflineMeans(cameras: PerLane<Camera>)
    ensures AllOffline(cameras) <==> forall lane | lane in FOUR_LANES :: cameras.Get(lane) == Offline
  {
    if forall lane | lane in FOUR_LANES :: cameras.Get(lane) == Offline {
      assert cameras.Get(North) == cameras.Get(East) == cameras.Get(South) == cameras.Get(West) == Offline;
    }
  }

  /** A tick during a hold leaves the junction all red; without one a green that has time left goes on. */
  lemma HoldExactly(cfg: Config, events: seq<Event>, dt: real, demands: Demands)
    ensures var s := Run(cfg, events); var s' := Run(cfg, events + [Tick(dt, demands)]);
      && (MustHold(events) ==> s'.phase == AllRed && s'.active == None && s'.remaining == 0.0)
      && (s.phase == Green && s.remaining - dt > 0.0 ==> (s'.phase == Green <==> !MustHold(events)))
  {
    hide Select, MustHold, Informed;
    HoldingIsReported(cfg, events);
    assert (events + [Tick(dt, demands)])[..|events|] == events;
  }

  /** A dropout of the approach that is green starts its yellow at once; of any other it changes no light. */
  lemma DropExactly(cfg: Config, events: seq<Event>, lane: Lane, status: Camera)
    ensures var s := Run(cfg, events); var s' := Run(cfg, events + [Drop(lane, status)]);
      && s'.active == s.active
      && (if lane in FOUR_LANES && s.phase == Green && s.active == Some(lane)
          then s'.phase == Yellow && s'.remaining == cfg.yellow as real
          else s'.phase == s.phase && s'.remaining == s.remaining)
  {
    hide Step, Stall;
    assert (events + [Drop(lane, status)])[..|events|] == events;
  }

  /** The signal of each approach and the snapshot's phase, lane and time tell the same. */
  lemma SignalsMatchSnapshot(s: Sim, lane: Lane)
    ensures SignalAt(s, lane) == if Shows(s).lane == Some(lane) then Shows(s).phase else AllRed
    ensures Shows(s).remaining == s.remaining
  {}

  // ----- cycle accounting ------------------------------------------------------------------------

  ghost predicate Distinct(xs: seq<Lane>) {
    forall i, j | 0 <= i < j < |xs| :: xs[i] != xs[j]
  }

  ghost function Members(xs: seq<Lane>): set<Lane> {
    set l | l in xs
  }

  function Flatten(xss: seq<seq<Lane>>): seq<Lane> {
    if xss == [] then [] else Flatten(xss[..|xss| - 1]) + xss[|xss| - 1]
  }

  /** A segment of turns in which nobody is served twice. */
  ghost predicate Segment(xs: seq<Lane>) {
    Distinct(xs) && Members(xs) <= FOUR_LANES
  }

  /** The grants split into one finished segment for each counted cycle and a current one. */
  ghost predicate Ledger(closed: seq<seq<Lane>>, current: seq<Lane>, b: Book, grants: seq<Lane>) {
    && Flatten(closed) + current == grants && |closed| == b.cycles
    && (forall i | 0 <= i < |closed| :: closed[i] != [] && Segment(closed[i]))
    && Segment(current) && Members(current) == b.served && |current| <= 3
  }

  lemma {:induction false} DistinctSize(xs: seq<Lane>)
    requires Segment(xs)
    ensures |Members(xs)| == |xs| <= 4
  {
    if xs != [] {
      var rest := xs[..|xs| - 1];
      DistinctSize(rest);
      assert Members(xs) == Members(rest) + {xs[|xs| - 1]};
    }
    SubsetSize(Members(xs), FOUR_LANES);
  }

  lemma {:induction false} SubsetSize(a: set<Lane>, b: set<Lane>)
    requires a <= b
    ensures |a| <= |b|
  {
    if x :| x in a {
      SubsetSize(a - {x}, b - {x});
    }
  }

  lemma LedgerClose(closed: seq<seq<Lane>>, current: seq<Lane>, b: Book, grants: seq<Lane>, last: seq<Lane>,
                    rest: seq<Lane>, b': Book)
    requires Ledger(closed, current, b, grants) && last != [] && Segment(last) && Segment(rest) && |rest| <= 3
    requires current <= last && b'.cycles == b.cycles + 1 && b'.served == Members(rest)
    ensures Ledger(closed + [last], rest, b', grants + last[|current|..] + rest)
  {
    var closed' := closed + [last];
    assert closed'[..|closed|] == closed && last == current + last[|current|..];
  }

  lemma EmptySegment()
    ensures Segment([]) && Members([]) == {}
  {
  }

  lemma LongerSegment(current: seq<Lane>, lane: Lane)
    requires Segment(current) && lane in FOUR_LANES && lane !in Members(current)
    ensures Segment(current + [lane]) && Members(current + [lane]) == Members(current) + {lane}
    ensures |Members(current + [lane])| == |current| + 1 <= 4
  {
    assert forall i | 0 <= i < |current| :: current[i] in Members(current);
    assert Members(current + [lane]) == Members(current) + {lane};
    DistinctSize(current + [lane]);
  }

  /** A first turn in the current segment lengthens it, and finishes it when it is the fourth. */
  lemma LedgerFirstTurn(closed: seq<seq<Lane>>, current: seq<Lane>, b: Book, grants: seq<Lane>, lane: Lane)
      returns (closed': seq<seq<Lane>>, current': seq<Lane>)
    requires Ledger(closed, current, b, grants) && lane in FOUR_LANES && lane !in b.served
    ensures Ledger(closed', current', Enter(b, lane), grants + [lane])
  {
    hide Flatten, Segment, Members;
    DistinctSize(current);
    LongerSegment(current, lane);
    EmptySegment();
    var longer := current + [lane];
    if |longer| == 4 {
      LedgerClose(closed, current, b, grants, longer, [], Enter(b, lane));
      assert grants + longer[|current|..] + [] == grants + [lane];
      closed', current' := closed + [longer], [];
    } else {
      assert Flatten(closed) + longer == grants + [lane];
      closed', current' := closed, longer;
    }
  }

  lemma LedgerStep(closed: seq<seq<Lane>>, current: seq<Lane>, b: Book, grants: seq<Lane>, lane: Lane)
      returns (closed': seq<seq<Lane>>, current': seq<Lane>)
    requires Ledger(closed, current, b, grants) && lane in FOUR_LANES
    ensures Ledger(closed', current', Enter(b, lane), grants + [lane])
  {
    if lane in b.served {
      assert current != [];
      LedgerClose(closed, current, b, grants, current, [lane], Enter(b, lane));
      assert grants + current[|current|..] + [lane] == grants + [lane];
      closed', current' := closed + [current], [lane];
    } else {
      closed', current' := LedgerFirstTurn(closed, current, b, grants, lane);
    }
  }

  /** Over every run the cycle counter counts finished segments and lanes_served is the current one. */
  lemma {:induction false} CycleLedger(cfg: Config, events: seq<Event>)
      returns (closed: seq<seq<Lane>>, current: seq<Lane>)
    ensures Ledger(closed, current, Run(cfg, events).book, Grants(cfg, events))
  {
    hide Apply;
    if events == [] {
      closed, current := [], [];
    } else {
      var rest := events[..|events| - 1];
      var s, e := Run(cfg, rest), events[|events| - 1];
      var s' := Apply(s, cfg, e);
      closed, current := CycleLedger(cfg, rest);
      if IsGrant(s, s') {
        GrantBooks(s, cfg, e);
        closed, current := LedgerStep(closed, current, s.book, Grants(cfg, rest), s'.active.value);
      } else {
        NoGrantKeepsBook(s, cfg, e);
        assert Grants(cfg, events) == Grants(cfg, rest);
      }
    }
  }

  lemma {:induction false} FlattenSize(xss: seq<seq<Lane>>)
    requires forall i | 0 <= i < |xss| :: xss[i] != [] && Segment(xss[i])
    ensures |xss| <= |Flatten(xss)| <= 4 * |xss|
  {
    if xss != [] {
      FlattenSize(xss[..|xss| - 1]);
      DistinctSize(xss[|xss| - 1]);
    }
  }

  /** So the counter is never further from the number of greens than these bounds. */
  lemma {:induction false} CycleBounds(cfg: Config, events: seq<Event>)
    ensures var b := Run(cfg, events).book;
      |b.served| <= 3 && b.cycles + |b.served| <= |Grants(cfg, events)| <= 4 * b.cycles + |b.served|
  {
    var closed, current := CycleLedger(cfg, events);
    FlattenSize(closed);
    DistinctSize(current);
  }

  // ----- full demand: a strict rotation ------------------------------------------------------------

  /** All four lanes fresh, occupied and without an emergency. */
  ghost predicate Saturated(r: Road) {
    forall l | l in FOUR_LANES ::
      r.cameras.Get(l) != Offline && r.stats.Get(l).rawCount > 0 && !r.stats.Get(l).hasPriority
  }

  /** A ranking that leaves no approach out. */
  ghost predicate RanksAll(cfg: Config) {
    forall stats, l | l in FOUR_LANES :: Listed(cfg.rank(stats), l)
  }

  ghost predicate Listed(xs: seq<PriorityScore>, lane: Lane) {
    exists i :: 0 <= i < |xs| && xs[i].lane == lane
  }

  lemma RankingLists(w: Weights, stats: PerLane<LaneStats>, lane: Lane)
    requires lane in FOUR_LANES
    ensures Listed(RankWith(w)(stats), lane)
  {
    hide BaseScore;
    var base := BaseScores(Entries(stats), w);
    BaseLane(Entries(stats)[Position(lane)], w);
    SortFacts(base, ScoreOf);
    assert base[Position(lane)] in SortDesc(base, ScoreOf);
    var i :| 0 <= i < |base| && SortDesc(base, ScoreOf)[i] == base[Position(lane)];
    assert RankWith(w)(stats)[i].lane == lane;
  }

  /** The ranking of the priority calculator is one. */
  lemma CalculatorRanksAll(cfg: Config, w: Weights)
    requires cfg.rank == RankWith(w)
    ensures RanksAll(cfg)
  {
    forall stats, l | l in FOUR_LANES ensures Listed(cfg.rank(stats), l) {
      RankingLists(w, stats, l);
    }
  }

  lemma BaseLane(e: Entry, w: Weights)
    ensures BaseScore(e, w).lane == e.lane
  {}

  /** A fresh occupied lane is in the running. */
  lemma InTheRunning(r: Road, cfg: Config, lane: Lane)
    requires RanksAll(cfg)
    requires lane in FOUR_LANES && r.cameras.Get(lane) != Offline && r.stats.Get(lane).rawCount > 0
    ensures Wants(SchedulerCall(r, cfg), lane)
  {
    var c := SchedulerCall(r, cfg);
    assert Listed(c.scores, lane);
    var i :| 0 <= i < |c.scores| && c.scores[i].lane == lane;
    assert c.scores[i] in c.scores;
  }

  lemma SaturatedChoice(r: Road, cfg: Config, cursor: Cursor)
    requires RanksAll(cfg) && Saturated(r)
    ensures var chosen := Choose(cursor, SchedulerCall(r, cfg));
      chosen.Some? && chosen.value.lane == LaneAt(cursor)
  {
    var c := SchedulerCall(r, cfg);
    var lane := LaneAt(cursor);
    InTheRunning(r, cfg, lane);
    assert !SeesEmergency(c);
    NormalProgress(cursor, c, lane);
  }

  ghost predicate AlwaysSaturated(cfg: Config, events: seq<Event>) {
    forall i | 0 <= i < |events| && events[i].Tick? :: Saturated(Run(cfg, events[..i + 1]).road)
  }

  lemma SaturatedGrant(s: Sim, cfg: Config, e: Event)
    requires RanksAll(cfg)
    requires IsGrant(s, Apply(s, cfg, e)) && Saturated(Apply(s, cfg, e).road)
    ensures Apply(s, cfg, e).active == Some(LaneAt(s.cursor))
  {
    hide Informed, RanksAll, Saturated;
    GreenEntry(s, cfg, e);
    TickToGreen(s, cfg, e.dt, e.demands);
    SaturatedChoice(Informed(s.road, e.demands), cfg, s.cursor);
  }

  function FirstLanes(n: Cursor): set<Lane> {
    if n == 0 then {} else if n == 1 then {North} else if n == 2 then {North, East} else {North, East, South}
  }

  /** n whole cycles of four and the first lanes of the next one, all in clockwise order from North. */
  ghost predicate Rotating(b: Book, cursor: Cursor, grants: seq<Lane>) {
    && |grants| == 4 * b.cycles + cursor && b.served == FirstLanes(cursor) && |b.served| == cursor
    && forall i | 0 <= i < |grants| :: grants[i] == LaneAt(i % 4)
  }

  lemma RotatingStep(b: Book, cursor: Cursor, grants: seq<Lane>)
    requires Rotating(b, cursor, grants)
    ensures Rotating(Enter(b, LaneAt(cursor)), Turn(cursor, 1), grants + [LaneAt(cursor)])
  {
    var lane := LaneAt(cursor);
    assert lane !in b.served;
    assert |b.served + {lane}| == cursor + 1;
    assert |grants| % 4 == cursor;
  }

  /** Under permanent full demand the greens rotate clockwise and every counted cycle has exactly four. */
  lemma {:induction false} FullDemandRotation(cfg: Config, events: seq<Event>)
    requires RanksAll(cfg) && AlwaysSaturated(cfg, events)
    ensures Rotating(Run(cfg, events).book, Run(cfg, events).cursor, Grants(cfg, events))
  {
    hide Apply, Saturated, RanksAll, Enter;
    if events != [] {
      var rest := events[..|events| - 1];
      var s, e := Run(cfg, rest), events[|events| - 1];
      forall i | 0 <= i < |rest| && rest[i].Tick? ensures Saturated(Run(cfg, rest[..i + 1]).road) {
        assert rest[..i + 1] == events[..i + 1];
      }
      FullDemandRotation(cfg, rest);
      if IsGrant(s, Apply(s, cfg, e)) {
        GrantBooks(s, cfg, e);
        GreenEntry(s, cfg, e);
        assert events[..|events|] == events;
        SaturatedGrant(s, cfg, e);
        RotatingStep(s.book, s.cursor, Grants(cfg, rest));
      } else {
        NoGrantKeepsBook(s, cfg, e);
        assert Grants(cfg, events) == Grants(cfg, rest);
      }
    }
  }

  // ----- clearance ---------------------------------------------------------------------------------

  /**
   Time spent in each clearance phase since the last green; held: an all-red hold came in between; cut: one began while
   green or yellow was showing.
   */
  datatype Clock = Clock(seen: bool, held: bool, cut: bool, yellow: real, red: real)

  ghost function ClockAfter(cfg: Config, events: seq<Event>): Clock {
    if events == [] then Clock(false, false, false, 0.0, 0.0)
    else
      var rest := events[..|events| - 1];
      Wind(ClockAfter(cfg, rest), Run(cfg, rest), Run(cfg, events), events[|events| - 1])
  }

  ghost function Wind(c: Clock, s: Sim, s': Sim, e: Event): Clock {
    if IsGrant(s, s') then Clock(true, false, false, 0.0, 0.0)
    else if e == SetStall(true) || (e.Tick? && Holding(s.road)) then c.(held := true, cut := c.cut || s.phase != AllRed)
    else if e.Tick? && s.phase == Yellow then c.(yellow := c.yellow + e.dt)
    else if e.Tick? && s.phase == AllRed then c.(red := c.red + e.dt)
    else c
  }

  ghost predicate ClockAgrees(c: Clock, s: Sim, cfg: Config) {
    c.seen && !c.held ==>
      match s.phase
      case Green => c.yellow == 0.0 && c.red == 0.0
      case Yellow => s.remaining == cfg.yellow as real - c.yellow && c.red == 0.0
      case AllRed => c.yellow >= cfg.yellow as real && s.remaining >= cfg.allRed as real - c.red
  }

  lemma WindAgrees(c: Clock, s: Sim, cfg: Config, e: Event)
    requires ClockAgrees(c, s, cfg)
    ensures ClockAgrees(Wind(c, s, Apply(s, cfg, e), e), Apply(s, cfg, e), cfg)
  {
    hide Select, Informed;
    if e.Tick? {
      SelectFacts(s.cursor, s.book, Informed(s.road, e.demands), cfg);
    }
  }

  lemma {:induction false} ClockInvariant(cfg: Config, events: seq<Event>)
    ensures ClockAgrees(ClockAfter(cfg, events), Run(cfg, events), cfg)
  {
    hide Apply, Wind;
    if events != [] {
      var rest := events[..|events| - 1];
      ClockInvariant(cfg, rest);
      WindAgrees(ClockAfter(cfg, rest), Run(cfg, rest), cfg, events[|events| - 1]);
    }
  }

  /**
   Between two greens the junction shows yellow for at least yellow_sec and all-red for at least
   all_red_sec, also when a dropout forced the yellow, unless a stall or an all-cameras-offline
   hold came in between.
   */
  lemma TimedClearance(cfg: Config, events: seq<Event>, e: Event)
    requires IsGrant(Run(cfg, events), Run(cfg, events + [e]))
    ensures var c := ClockAfter(cfg, events);
      c.seen && !c.held ==> e.Tick? && c.yellow >= cfg.yellow as real && c.red + e.dt >= cfg.allRed as real
  {
    var s := Run(cfg, events);
    ClockInvariant(cfg, events);
    assert (events + [e])[..|events|] == events;
    GreenEntry(s, cfg, e);
  }

  /** Since the last green yellow has its full time at all-red, unless a hold cut it; before that it has not, yet. */
  ghost predicate YellowAgrees(c: Clock, s: Sim, cfg: Config) {
    c.seen ==>
      match s.phase
      case Green => c.yellow == 0.0 && !c.cut
      case Yellow => s.remaining == cfg.yellow as real - c.yellow > 0.0 && !c.cut
      case AllRed => c.yellow >= cfg.yellow as real <==> !c.cut
  }

  lemma WindYellow(c: Clock, s: Sim, cfg: Config, e: Event)
    requires YellowAgrees(c, s, cfg) && cfg.yellow > 0
    ensures YellowAgrees(Wind(c, s, Apply(s, cfg, e), e), Apply(s, cfg, e), cfg)
  {
    hide Select, Informed;
    if e.Tick? {
      SelectFacts(s.cursor, s.book, Informed(s.road, e.demands), cfg);
    }
  }

  lemma {:induction false} YellowInvariant(cfg: Config, events: seq<Event>)
    requires cfg.yellow > 0
    ensures YellowAgrees(ClockAfter(cfg, events), Run(cfg, events), cfg)
  {
    hide Apply, Wind;
    if events != [] {
      var rest := events[..|events| - 1];
      YellowInvariant(cfg, rest);
      WindYellow(ClockAfter(cfg, rest), Run(cfg, rest), cfg, events[|events| - 1]);
    }
  }

  /**
   And no other exception: between two greens yellow was shown for yellow_sec exactly when no stall and no
   all-cameras-offline hold began while green or yellow was showing.
   */
  lemma YellowExactly(cfg: Config, events: seq<Event>, e: Event)
    requires cfg.yellow > 0
    requires IsGrant(Run(cfg, events), Run(cfg, events + [e]))
    ensures var c := ClockAfter(cfg, events);
      c.seen ==> (c.yellow >= cfg.yellow as real <==> !c.cut)
  {
    YellowInvariant(cfg, events);
  }

  /** The exception is real: a stall and its release turn one green into the next with no clearance at all. */
  lemma StallSkipsClearance(s: Sim, cfg: Config, lane: Lane)
    requires RanksAll(cfg)
    requires s.phase == Green && lane in FOUR_LANES && s.road.cameras.Get(lane) != Offline
             && s.road.stats.Get(lane).rawCount > 0
    ensures var s' := Apply(Apply(Apply(s, cfg, SetStall(true)), cfg, SetStall(false)), cfg, Tick(0.0, map[]));
      s'.phase == Green && s'.active.Some?
  {
    hide Choose, RanksAll;
    var road := Informed(Stall(Stall(s, true), false).road, map[]);
    assert road.stats == s.road.stats;
    InTheRunning(road, cfg, lane);
    ScanOrEmergency(s.cursor, SchedulerCall(road, cfg), lane);
  }

  lemma ScanOrEmergency(cursor: Cursor, c: Call, lane: Lane)
    requires lane in FOUR_LANES && Wants(c, lane)
    ensures Choose(cursor, c).Some?
  {
    if SeesEmergency(c) {
      var _ := EmergencyWins(cursor, c);
    } else {
      NormalProgress(cursor, c, lane);
    }
  }

  // ----- the countdown refines the elapsed-time reading ----------------------------------------------

  /** One-second ticks. */
  function UnitRun(s: Sim, cfg: Config, ds: seq<Demands>): (s': Sim)
  {
    if ds == [] then s else Step(UnitRun(s, cfg, ds[..|ds| - 1]), cfg, 1.0, ds[|ds| - 1])
  }

  /** A state just after a green of g seconds was granted. */
  ghost predicate JustGranted(s: Sim, lane: Lane, g: int) {
    !Holding(s.road) && s.phase == Green && s.active == Some(lane) && s.remaining == g as real
  }

  /** Every grant starts such a green, with the time set for the scheduler's choice among the current scores. */
  lemma GrantIsTimed(s: Sim, cfg: Config, e: Event) returns (winner: PriorityScore)
    requires IsGrant(s, Apply(s, cfg, e))
    ensures var s' := Apply(s, cfg, e); var c := SchedulerCall(s'.road, cfg);
      && Choose(s.cursor, c) == Some(winner) && JustGranted(s', winner.lane, cfg.green(winner, cfg.rank(s'.road.stats)))
  {
    hide Choose, Informed, NextCursor;
    GreenEntry(s, cfg, e);
    TickToGreen(s, cfg, e.dt, e.demands);
    SelectFacts(s.cursor, s.book, Informed(s.road, e.demands), cfg);
    winner := Choose(s.cursor, SchedulerCall(Informed(s.road, e.demands), cfg)).value;
  }

  lemma MeasuredScore(w: Weights, x: LaneStats, score: real)
    requires x.queueSec == x.congestion == 0.0 && Contribution(w.pce, x.pce) > 0.005
    requires -0.005 <= score - (w.pce * x.pce + w.queue * x.queueSec + w.congestion * x.congestion)
    ensures score > 0.0
  {}

  /** What min and max make of a measured PCE score alone, before rounding. */
  function Timed(pce: real, minSec: int, maxSec: int): real {
    minSec as real + 0.0375 * Within(pce, 20.0) * (maxSec - minSec) as real
  }

  lemma MeasuredGreen(minSec: int, maxSec: int, w: Weights, stats: PerLane<LaneStats>, winner: PriorityScore)
    requires minSec <= maxSec && winner in RankWith(w)(stats)
    requires var x := stats.Get(winner.lane);
      x.queueSec == x.congestion == 0.0 && x.pce > 0.0 && Contribution(w.pce, x.pce) > 0.005
    ensures -0.5 <= GreenTime(minSec, maxSec, winner, RankWith(w)(stats)) as real
                    - Timed(stats.Get(winner.lane).pce, minSec, maxSec) <= 0.5
  {
    hide RankWith, GreenTime, Contribution;
    var scores := RankWith(w)(stats);
    var i :| 0 <= i < |scores| && scores[i] == winner;
    RankedMeasures(w, stats, i);
    MeasuredScore(w, stats.Get(winner.lane), winner.score);
    GreenOfLoad(minSec, maxSec, winner, scores);
  }

  /**
   In a run of the simulator the green an approach is given is set by the latest PCE score reported for it: 0.0375 of
   the range between the bounds for each unit up to twenty, to the nearest second.
   */
  lemma GreenOfReport(cfg: Config, events: seq<Event>, e: Event, w: Weights, minSec: int, maxSec: int)
    requires cfg.rank == RankWith(w) && cfg.green == GreenWith(minSec, maxSec) && minSec <= maxSec
    requires IsGrant(Run(cfg, events), Run(cfg, events + [e]))
    ensures var s, lane := Run(cfg, events + [e]), Run(cfg, events + [e]).active.value;
      var pce := Reported(events + [e], (e: Event) => DemandIn(e, lane).pce, 0.0);
      pce > 0.0 && Contribution(w.pce, pce) > 0.005 ==> -0.5 <= s.remaining - Timed(pce, minSec, maxSec) <= 0.5
  {
    hide Run, Choose, RankWith, GreenTime, Reported, DemandIn, Timed, Contribution;
    var s, all := Run(cfg, events), events + [e];
    RunOneMore(cfg, events, e);
    GreenEntry(s, cfg, e);
    var winner := GrantIsTimed(s, cfg, e);
    var road := Run(cfg, all).road;
    ChosenIsListed(s.cursor, SchedulerCall(road, cfg));
    RoadIsReported(cfg, all, winner.lane);
    if road.stats.Get(winner.lane).pce > 0.0 && Contribution(w.pce, road.stats.Get(winner.lane).pce) > 0.005 {
      MeasuredGreen(minSec, maxSec, w, road.stats, winner);
    }
  }

  lemma RunOneMore(cfg: Config, events: seq<Event>, e: Event)
    ensures Run(cfg, events + [e]) == Apply(Run(cfg, events), cfg, e)
  {
    hide Apply;
    assert (events + [e])[..|events|] == events;
  }

  /** Same display as the elapsed-time classifier, and the next tick selects exactly when its phase expires. */
  ghost predicate Agrees(s: Sim, cfg: Config, lane: Lane, g: int, k: nat) {
    && Shows(s) == Classify(lane, g, cfg.yellow, cfg.allRed, k as real)
    && (Selects(s, 1.0) <==> Expired(g, cfg.yellow, cfg.allRed, (k + 1) as real))
  }

  lemma {:induction false} CountdownState(s: Sim, cfg: Config, lane: Lane, g: int, ds: seq<Demands>)
    requires JustGranted(s, lane, g) && g >= 1 && cfg.yellow >= 1 && cfg.allRed >= 1
    requires |ds| < g + cfg.yellow + cfg.allRed
    ensures var s' := UnitRun(s, cfg, ds); var k := |ds|;
      && !Holding(s'.road) && s'.active == Some(lane)
      && s'.phase == (if k < g then Green else if k < g + cfg.yellow then Yellow else AllRed)
      && s'.remaining == (if k < g then g - k else if k < g + cfg.yellow then g + cfg.yellow - k
                          else g + cfg.yellow + cfg.allRed - k) as real
  {
    hide Select, Informed;
    if ds != [] {
      CountdownState(s, cfg, lane, g, ds[..|ds| - 1]);
    }
  }

  /** For positive durations the stepper is the classifier, tick by tick, until it selects again. */
  lemma Refinement(s: Sim, cfg: Config, lane: Lane, g: int, ds: seq<Demands>)
    requires JustGranted(s, lane, g) && g >= 1 && cfg.yellow >= 1 && cfg.allRed >= 1
    requires |ds| < g + cfg.yellow + cfg.allRed
    ensures Agrees(UnitRun(s, cfg, ds), cfg, lane, g, |ds|)
  {
    CountdownState(s, cfg, lane, g, ds);
  }

  function Quiet(k: nat): (ds: seq<Demands>)
    ensures |ds| == k && forall i | 0 <= i < k :: ds[i] == map[]
  {
    seq(k, i => map[])
  }

  /** A zero duration breaks the agreement: the two clocks are the same machine only when all three are positive. */
  lemma RefinementExact(s: Sim, cfg: Config, lane: Lane, g: int)
    requires JustGranted(s, lane, g) && g >= 0 && cfg.yellow >= 0 && cfg.allRed >= 0
    ensures (forall k: nat | k == 0 || k < g + cfg.yellow + cfg.allRed ::
               Agrees(UnitRun(s, cfg, Quiet(k)), cfg, lane, g, k))
       <==> (g >= 1 && cfg.yellow >= 1 && cfg.allRed >= 1)
  {
    if g >= 1 && cfg.yellow >= 1 && cfg.allRed >= 1 {
      forall k: nat | k == 0 || k < g + cfg.yellow + cfg.allRed
        ensures Agrees(UnitRun(s, cfg, Quiet(k)), cfg, lane, g, k)
      {
        Refinement(s, cfg, lane, g, Quiet(k));
      }
    } else {
      var k := Disagreement(s, cfg, lane, g);
    }
  }

  lemma {:induction false} GreenCountdown(s: Sim, cfg: Config, lane: Lane, g: int, k: nat)
    requires JustGranted(s, lane, g) && k <= g
    ensures var s' := UnitRun(s, cfg, Quiet(k));
      && !Holding(s'.road) && s'.active == Some(lane)
      && (k < g || k == 0 ==> s'.phase == Green && s'.remaining == (g - k) as real)
      && (k == g >= 1 ==> s'.phase == Yellow && s'.remaining == cfg.yellow as real)
  {
    hide Select, Informed;
    if k > 0 {
      assert Quiet(k)[..k - 1] == Quiet(k - 1);
      GreenCountdown(s, cfg, lane, g, k - 1);
    }
  }

  lemma {:induction false} YellowCountdown(s: Sim, cfg: Config, lane: Lane, g: int, k: nat)
    requires JustGranted(s, lane, g) && g >= 1 && g <= k < g + cfg.yellow
    ensures var s' := UnitRun(s, cfg, Quiet(k));
      !Holding(s'.road) && s'.active == Some(lane) && s'.phase == Yellow && s'.remaining == (g + cfg.yellow - k) as real
  {
    hide Select, Informed;
    if k == g {
      GreenCountdown(s, cfg, lane, g, k);
    } else {
      assert Quiet(k)[..k - 1] == Quiet(k - 1);
      YellowCountdown(s, cfg, lane, g, k - 1);
    }
  }

  lemma Disagreement(s: Sim, cfg: Config, lane: Lane, g: int) returns (k: nat)
    requires JustGranted(s, lane, g) && g >= 0 && cfg.yellow >= 0 && cfg.allRed >= 0
    requires g == 0 || cfg.yellow == 0 || cfg.allRed == 0
    ensures (k == 0 || k < g + cfg.yellow + cfg.allRed) && !Agrees(UnitRun(s, cfg, Quiet(k)), cfg, lane, g, k)
  {
    if g == 0 {
      k := 0;
    } else if cfg.yellow == 0 && cfg.allRed > 0 {
      k := g;
      GreenCountdown(s, cfg, lane, g, k);
    } else if cfg.yellow == 0 {
      k := g - 1;
      GreenCountdown(s, cfg, lane, g, k);
    } else {
      k := g + cfg.yellow - 1;
      YellowCountdown(s, cfg, lane, g, k);
    }
  }
}
