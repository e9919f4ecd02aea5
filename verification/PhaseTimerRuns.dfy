/** The log of turns over every run of the live phase timer. */
module PhaseTimerRuns {
  import opened Signals
  import opened Scheduling
  import opened SignalPhases
  import opened PhaseTimer

  /** A step under the bounds configured at the time, or STOP or RESTART. */
  datatype Event = Run(k: Tick, policy: Policy) | Stop(now: real)

  function TimeOf(e: Event): real {
    if e.Run? then e.k.now else e.now
  }

  function Apply(t: Timer, e: Event): Timer {
    match e
    case Run(k, policy) => Step(t, k, policy)
    case Stop(_) => Reset(t)
  }

  function After(events: seq<Event>): Timer {
    if events == [] then NO_PHASE else Apply(After(events[..|events| - 1]), events[|events| - 1])
  }

  datatype Ending = Running | RanOut | PreEmpted | Stopped

  /** An empty-lane cut: when, and the green it left. */
  datatype CutAt = CutAt(at: real, green: int)

  /** One green turn, from its grant to whatever ended it. */
  datatype Turn = Turn(
    lane: Lane, start: real, granted: int, yellow: int, emergency: bool,
    cut: Option<CutAt>, cuts: nat, ending: Ending, ended: real)

  function FinalGreen(x: Turn): int {
    if x.cut.Some? then x.cut.value.green else x.granted
  }

  function NoteCut(x: Turn, t: Timer, k: Tick): Turn {
    if Cuts(t, k) then x.(cut := Some(CutAt(k.now, Release(t, k).active.value.green)), cuts := x.cuts + 1) else x
  }

  function NoteEnd(x: Turn, t: Timer, k: Tick): Turn {
    if !Changes(t, k) then x
    else x.(ending := if RunsOut(Release(t, k), k.now) then RanOut else PreEmpted, ended := k.now)
  }

  /** The running turn after an event. */
  function Note(x: Turn, t: Timer, e: Event): Turn {
    match e
    case Run(k, _) => NoteEnd(NoteCut(x, t, k), t, k)
    case Stop(now) => x.(ending := Stopped, ended := now)
  }

  /** A turn granted by an event. */
  function Opens(t: Timer, e: Event): Option<Turn> {
    var a := Apply(t, e).active;
    if e.Run? && Changes(t, e.k) && a.Some? then
      Some(Turn(a.value.lane, e.k.now, a.value.green, a.value.yellow, a.value.emergency, None, 0, Running, 0.0))
    else None
  }

  function Extend(log: seq<Turn>, t: Timer, e: Event): seq<Turn> {
    var noted := if log != [] && t.active.Some? then log[|log| - 1 := Note(log[|log| - 1], t, e)] else log;
    var turn := Opens(t, e);
    if turn.Some? then noted + [turn.value] else noted
  }

  /** Every turn of a run, in order. */
  function Log(events: seq<Event>): seq<Turn> {
    if events == [] then []
    else
      var rest := events[..|events| - 1];
      Extend(Log(rest), After(rest), events[|events| - 1])
  }

  /** A clock that is positive and never goes back. */
  ghost predicate Clocked(events: seq<Event>) {
    && (forall i | 0 <= i < |events| :: TimeOf(events[i]) > 0.0)
    && (forall i, j | 0 <= i < j < |events| :: TimeOf(events[i]) <= TimeOf(events[j]))
  }

  /** What the timer promises of one turn. */
  ghost predicate GoodTurn(x: Turn) {
    && x.cuts == (if x.cut.Some? then 1 else 0)
    && (x.cut.Some? ==>
          && 1 <= x.cut.value.green < x.granted
          && x.cut.value.green as real <= x.cut.value.at - x.start < x.cut.value.green as real + 1.0)
    && (x.ending == RanOut ==> x.ended - x.start >= (FinalGreen(x) + x.yellow + ALL_RED_SEC) as real)
    && (x.ending == PreEmpted ==>
          !x.emergency && x.ended - x.start < (FinalGreen(x) + x.yellow + ALL_RED_SEC) as real)
  }

  /** A turn starts no earlier than the one before it ended. */
  ghost predicate Ordered(log: seq<Turn>) {
    forall i | 0 <= i < |log| - 1 :: log[i].ending != Running && log[i].ended <= log[i + 1].start
  }

  /** The running turn as the timer holds it. */
  ghost predicate IsRunning(x: Turn, t: Timer, now: real) {
    && t.active.Some? && x.ending == Running && x.start == t.start && 0.0 < t.start <= now
    && t.active.value == Active(x.lane, FinalGreen(x), x.yellow, x.emergency)
    && (x.cut.Some? ==> x.cut.value.green as real <= now - x.start)
    && (t.emptySince.Some? ==> x.start <= t.emptySince.value <= now)
  }

  ghost predicate Agrees(log: seq<Turn>, t: Timer, now: real) {
    && (forall i | 0 <= i < |log| :: GoodTurn(log[i]))
    && Ordered(log)
    && (t.active.Some? ==> log != [] && IsRunning(log[|log| - 1], t, now))
    && (t.active.None? && log != [] ==> log[|log| - 1].ending != Running && log[|log| - 1].ended <= now)
  }

  lemma ReleaseFacts(x: Turn, t: Timer, k: Tick, now: real)
    requires GoodTurn(x) && IsRunning(x, t, now) && now <= k.now
    ensures var y := NoteCut(x, t, k);
      && GoodTurn(y) && IsRunning(y, Release(t, k), k.now) && (Cuts(t, k) ==> x.cuts == 0)
  {}

  lemma NoteFacts(x: Turn, t: Timer, e: Event, now: real)
    requires GoodTurn(x) && IsRunning(x, t, now) && now <= TimeOf(e)
    ensures var y := Note(x, t, e); var t' := Apply(t, e);
      && GoodTurn(y) && y.start == x.start
      && (e.Run? && !Changes(t, e.k) ==> IsRunning(y, t', e.k.now))
      && (e.Stop? || Changes(t, e.k) ==> y.ending != Running && y.ended == TimeOf(e))
  {
    hide Change;
    if e.Run? {
      ReleaseFacts(x, t, e.k, now);
    }
  }

  lemma ChangeFacts(t: Timer, k: Tick, policy: Policy)
    ensures var t' := Change(t, k, policy);
      t'.active.Some? ==> t'.start == k.now && t'.emptySince == None
  {}

  lemma ExtendAgrees(log: seq<Turn>, t: Timer, e: Event, now: real)
    requires Agrees(log, t, now) && now <= TimeOf(e) && TimeOf(e) > 0.0
    ensures Agrees(Extend(log, t, e), Apply(t, e), TimeOf(e))
  {
    hide Change, Release, Note, GoodTurn, Cuts, RunsOut, PreEmpts;
    var t' := Apply(t, e);
    if t.active.Some? {
      NoteFacts(log[|log| - 1], t, e, now);
    }
    if e.Run? {
      ChangeFacts(Release(t, e.k), e.k, e.policy);
      NewTurnIsGood(t, e);
      if t.active.None? && !Changes(t, e.k) {
        ReleaseIdle(t, e.k);
      }
    }
  }

  lemma ReleaseIdle(t: Timer, k: Tick)
    requires t.active.None?
    ensures Release(t, k) == t
  {}

  lemma NewTurnIsGood(t: Timer, e: Event)
    ensures Opens(t, e).Some? ==> GoodTurn(Opens(t, e).value)
  {}

  ghost function Now(events: seq<Event>): real {
    if events == [] then 0.0 else TimeOf(events[|events| - 1])
  }

  /** Over every run the log is in order and every turn in it is a good one. */
  lemma {:induction false} LogInvariant(events: seq<Event>)
    requires Clocked(events)
    ensures Agrees(Log(events), After(events), Now(events))
  {
    hide Apply, Extend, Agrees;
    if events == [] {
      EmptyAgrees();
    } else {
      var rest := events[..|events| - 1];
      LogInvariant(rest);
      ExtendAgrees(Log(rest), After(rest), events[|events| - 1], Now(rest));
    }
  }

  lemma EmptyAgrees()
    ensures Agrees(Log([]), After([]), Now([]))
  {}

  /**
   After a turn that ran out, the next green starts no sooner than green + yellow + all-red after
   this one started, with whatever green was left; an empty lane cut it at most once, to at least
   one second and less than granted, and the next green comes more than yellow + all-red - 1
   seconds after that cut.
   */
  lemma GreenSpacing(events: seq<Event>, i: nat)
    requires Clocked(events) && i + 1 < |Log(events)| && Log(events)[i].ending == RanOut
    ensures var x, next := Log(events)[i], Log(events)[i + 1];
      && next.start - x.start >= (FinalGreen(x) + x.yellow + ALL_RED_SEC) as real
      && x.cuts <= 1
      && (x.cut.Some? ==>
            && 1 <= x.cut.value.green < x.granted
            && next.start - x.cut.value.at > (x.yellow + ALL_RED_SEC) as real - 1.0)
  {
    hide Log;
    LogInvariant(events);
  }

  /** Turns end otherwise only by an emergency elsewhere, during a turn that is not itself one, or by STOP. */
  lemma {:induction false} OnlyInterruptions(events: seq<Event>, i: nat)
    requires i < |Log(events)|
    requires forall j | 0 <= j < |events| :: events[j].Run? && !AnyEmergency(events[j].k.stats)
    ensures Log(events)[i].ending == Running || Log(events)[i].ending == RanOut
  {
    hide Apply, Release, NoteCut;
    if events != [] {
      var rest, e := events[..|events| - 1], events[|events| - 1];
      var log := Log(rest);
      assert e.Run? && !AnyEmergency(e.k.stats);
      if i < |log| {
        OnlyInterruptions(rest, i);
      }
      NoteCutKeepsEnding(log, After(rest), e.k);
    }
  }

  lemma NoteCutKeepsEnding(log: seq<Turn>, t: Timer, k: Tick)
    ensures forall i | 0 <= i < |log| :: NoteCut(log[i], t, k).ending == log[i].ending
  {}

  /** The clearance left after a cut: yellow + all-red less the fraction of a second already begun. */
  lemma CutClearance(t: Timer, k: Tick, start: real)
    requires Cuts(t, k) && t.start == start > 0.0 && t.emptySince.value >= start
    ensures var a := Release(t, k).active.value; var due := start + (a.green + a.yellow + ALL_RED_SEC) as real;
      && due - k.now > (a.yellow + ALL_RED_SEC) as real - 1.0
      && (due - k.now >= (a.yellow + ALL_RED_SEC) as real <==> (k.now - start).Floor as real == k.now - start)
      && SignalState(Release(t, k), k.now) != Green
  {}

  /** Of the turns the timer itself ended, exactly those that ran out had their green, yellow and all-red in full. */
  lemma ClearanceByEnding(events: seq<Event>, i: nat)
    requires Clocked(events) && i < |Log(events)| && ByTimer(Log(events)[i])
    ensures InFull(Log(events)[i]) <==> Log(events)[i].ending == RanOut
  {
    hide Log;
    LogInvariant(events);
  }

  /** A turn that the timer itself ended. */
  predicate ByTimer(x: Turn) {
    x.ending == RanOut || x.ending == PreEmpted
  }

  /** Green, with whatever was left of it, yellow and all-red all had their time. */
  predicate InFull(x: Turn) {
    x.ended - x.start >= (FinalGreen(x) + x.yellow + ALL_RED_SEC) as real
  }

  /** An emergency is reported during a turn that is not an emergency's and has not run out. */
  predicate CutsOff(t: Timer, k: Tick) {
    PreEmpts(Release(t, k), k) && !RunsOut(Release(t, k), k.now)
  }

  /**
   The guard, before the step: with these statistics a running turn changes only by running out, whenever the step comes
   and whatever is observed, exactly when the turn is an emergency's already or no approach reports one.
   */
  lemma EmergencyGuard(t: Timer, stats: PerLane<LaneStats>)
    requires t.active.Some? && t.start > 0.0 && t.active.value.green > 0 && t.active.value.yellow >= 0
    ensures (forall k: Tick | k.stats == stats && k.now >= t.start && Changes(t, k) :: RunsOut(Release(t, k), k.now))
            <==> t.active.value.emergency || !AnyEmergency(stats)
  {
    if !t.active.value.emergency && AnyEmergency(stats) {
      var k := Tick(t.start, {}, stats, {});
      assert Release(t, k) == t && CutsOff(t, k);
      assert Changes(t, k) && !RunsOut(Release(t, k), k.now);
    }
  }

  /** From time `now` on no emergency reported anywhere ends this turn before its time. */
  ghost predicate Protected(t: Timer, now: real) {
    forall k: Tick | k.now >= now && AnyEmergency(k.stats) && Changes(t, k) :: RunsOut(Release(t, k), k.now)
  }

  /**
   A turn just granted is safe from every later emergency exactly when the step that granted it found an emergency at
   the approach it was granted to.
   */
  lemma ProtectedExactly(t: Timer, k: Tick, policy: Policy)
    requires Changes(t, k) && k.now > 0.0
    requires var a := Step(t, k, policy).active; a.Some? && a.value.green > 0 && a.value.yellow >= 0
    ensures var t' := Step(t, k, policy);
      Protected(t', k.now) <==> k.stats.Get(t'.active.value.lane).hasPriority
  {
    hide Choose, SchedulerCall;
    var t' := Step(t, k, policy);
    if !t'.active.value.emergency {
      var urgent := Same(LaneStats(0, 0.0, 0.0, 0.0, true));
      var k2 := Tick(k.now, {}, urgent, {});
      assert Release(t', k2) == t' && Changes(t', k2) && !RunsOut(Release(t', k2), k2.now);
    }
  }

  /** Every turn that the timer itself ended. */
  ghost predicate AllInFull(log: seq<Turn>) {
    forall i | 0 <= i < |log| && ByTimer(log[i]) :: InFull(log[i])
  }

  ghost predicate SomePreEmpted(log: seq<Turn>) {
    exists i :: 0 <= i < |log| && log[i].ending == PreEmpted
  }

  ghost predicate SomeCutOff(events: seq<Event>) {
    exists j :: 0 <= j < |events| && events[j].Run? && CutsOff(After(events[..j]), events[j].k)
  }

  lemma ExtendPreEmpted(log: seq<Turn>, t: Timer, e: Event)
    requires t.active.Some? ==> log != [] && log[|log| - 1].ending == Running
    ensures SomePreEmpted(Extend(log, t, e)) <==> SomePreEmpted(log) || (e.Run? && CutsOff(t, e.k))
  {
    hide Release, Apply, RunsOut, NoteCut;
    var n := |log| - 1;
    var after := Extend(log, t, e);
    if e.Run? {
      NoteCutKeepsEnding(log, t, e.k);
      ReleaseKeepsActive(t, e.k);
    }
    assert forall i | 0 <= i < n :: after[i] == log[i];
    if SomePreEmpted(log) {
      var i :| 0 <= i < |log| && log[i].ending == PreEmpted;
      assert after[i].ending == PreEmpted;
    }
    if e.Run? && CutsOff(t, e.k) {
      assert after[n].ending == PreEmpted;
    }
  }

  lemma ReleaseKeepsActive(t: Timer, k: Tick)
    ensures Release(t, k).active.Some? <==> t.active.Some?
  {}

  lemma {:induction false} PreEmptedMeansCutOff(events: seq<Event>)
    requires Clocked(events)
    ensures SomePreEmpted(Log(events)) <==> SomeCutOff(events)
  {
    hide Apply, Extend, CutsOff;
    if events != [] {
      var n := |events| - 1;
      PreEmptedMeansCutOff(events[..n]);
      LogInvariant(events[..n]);
      ExtendPreEmpted(Log(events[..n]), After(events[..n]), events[n]);
      assert forall j | 0 <= j < n :: events[..n][..j] == events[..j];
      if SomeCutOff(events[..n]) {
        var j :| 0 <= j < n && events[..n][j].Run? && CutsOff(After(events[..n][..j]), events[..n][j].k);
        assert events[j].Run? && CutsOff(After(events[..j]), events[j].k);
      }
    }
  }

  /**
   Over a whole run every turn the timer ended had its green, yellow and all-red in full exactly when no step saw an
   emergency during a turn that was not an emergency's and had not run out.
   */
  lemma ClearanceExactly(events: seq<Event>)
    requires Clocked(events)
    ensures AllInFull(Log(events)) <==> !SomeCutOff(events)
  {
    hide Log, InFull, SomeCutOff;
    PreEmptedMeansCutOff(events);
    var log := Log(events);
    forall i | 0 <= i < |log| && ByTimer(log[i]) ensures InFull(log[i]) <==> log[i].ending == RanOut {
      ClearanceByEnding(events, i);
    }
    if SomePreEmpted(log) {
      var i :| 0 <= i < |log| && log[i].ending == PreEmpted;
      assert ByTimer(log[i]) && !InFull(log[i]);
    }
  }

  /** Pre-empted while it is green, an approach loses the light to another one on the spot: green follows green. */
  lemma PreEmptionHasNoClearance(t: Timer, k: Tick, policy: Policy)
    requires PreEmpts(Release(t, k), k) && !RunsOut(Release(t, k), k.now) && SignalState(t, k.now) == Green
    requires Choose(t.cursor, SchedulerCall(k, policy)).Some? && k.now > 0.0
    requires Choose(t.cursor, SchedulerCall(k, policy)).value.lane != t.active.value.lane
    requires policy.green(Choose(t.cursor, SchedulerCall(k, policy)).value, policy.rank(k.stats)) > 0
    ensures var t' := Step(t, k, policy);
      && t'.active.Some? && t'.active.value.lane != t.active.value.lane && t'.start == k.now
      && SignalState(t', k.now) == Green
  {}

  const FOUR_PLAIN := [PlainScore(North), PlainScore(East), PlainScore(South), PlainScore(West)]

  /** All four approaches busy, ranked as listed, ten seconds of green for each. */
  const BUSY_POLICY := Policy((_: PerLane<LaneStats>) => FOUR_PLAIN, (_: PriorityScore, _: seq<PriorityScore>) => 10, 3)

  function BusyTick(now: real, urgent: Option<Lane>): Tick {
    var stats := Same(PLAIN);
    Tick(now, {North}, if urgent == Some(East) then stats.(east := PLAIN.(hasPriority := true)) else stats, FOUR_LANES)
  }

  const PRE_EMPTION := [Run(BusyTick(1.0, None), BUSY_POLICY), Run(BusyTick(3.0, Some(East)), BUSY_POLICY)]

  lemma BusyChoice(cursor: Cursor, now: real, urgent: Option<Lane>)
    requires urgent.None? || urgent == Some(East)
    ensures Choose(cursor, SchedulerCall(BusyTick(now, urgent), BUSY_POLICY)).Some?
    ensures Choose(cursor, SchedulerCall(BusyTick(now, urgent), BUSY_POLICY)).value.lane
            == if urgent.Some? then East else LaneAt(cursor)
  {
    hide Choose;
    FullCallFacts(cursor, urgent);
    var c := SchedulerCall(BusyTick(now, urgent), BUSY_POLICY);
    assert c.stats == FullCall(urgent).stats;
    assert c == FullCall(urgent);
  }

  /** It happens: two seconds into a green of ten, East takes it from North in the same instant. */
  lemma PreEmptionHappens()
    ensures Clocked(PRE_EMPTION)
    ensures var log := Log(PRE_EMPTION);
      && |log| == 2 && log[0].lane == North && log[1].lane == East
      && log[0].ending == PreEmpted && log[1].start == log[0].ended == log[0].start + 2.0
      && FinalGreen(log[0]) == 10
  {
    hide Choose, SchedulerCall;
    var e1, e2 := PRE_EMPTION[0], PRE_EMPTION[1];
    BusyChoice(0, 1.0, None);
    var t1 := Apply(NO_PHASE, e1);
    BusyChoice(t1.cursor, 3.0, Some(East));
    assert PRE_EMPTION[..1] == [e1] && PRE_EMPTION[..1][..0] == [];
    assert After([e1]) == t1;
    assert |Log([e1])| == 1;
  }

  function EmptyTick(now: real): Tick {
    BusyTick(now, None).(stats := Same(PLAIN).(north := PLAIN.(rawCount := 0)))
  }

  /** North is granted ten seconds, found empty at 2.5 and again at 4.5, and due to end at 9.0. */
  const EARLY_CUT := [Run(BusyTick(1.0, None), BUSY_POLICY), Run(EmptyTick(2.5), BUSY_POLICY),
                      Run(EmptyTick(4.5), BUSY_POLICY), Run(BusyTick(9.0, None), BUSY_POLICY)]

  /** A cut with half a second gone: three and a half seconds of green count as three, and clearance loses the half. */
  lemma CutHappens()
    ensures Clocked(EARLY_CUT)
    ensures var log := Log(EARLY_CUT);
      && |log| == 2 && log[0].lane == North && log[0].ending == RanOut
      && log[0].cut == Some(CutAt(4.5, 3)) && log[0].start == 1.0
      && log[1].start == log[0].ended == 9.0
      && log[1].start - log[0].cut.value.at == (log[0].yellow + ALL_RED_SEC) as real - 0.5
  {
    hide Choose, SchedulerCall;
    var e1, e2, e3, e4 := EARLY_CUT[0], EARLY_CUT[1], EARLY_CUT[2], EARLY_CUT[3];
    BusyChoice(0, 1.0, None);
    var t1 := Apply(NO_PHASE, e1);
    var t2 := Apply(t1, e2);
    var t3 := Apply(t2, e3);
    BusyChoice(t3.cursor, 9.0, None);
    assert EARLY_CUT[..3] == [e1, e2, e3] && [e1, e2, e3][..2] == [e1, e2] && [e1, e2][..1] == [e1] && [e1][..0] == [];
    assert After([e1]) == t1 && |Log([e1])| == 1;
    assert After([e1, e2]) == t2 && |Log([e1, e2])| == 1;
    assert After([e1, e2, e3]) == t3 && |Log([e1, e2, e3])| == 1;
  }

  // ----- when the scheduler is asked ---------------------------------------------------------------

  /**
   Over every run a step asks the scheduler exactly when it has a frame and nothing runs, or a turn runs that is over by
   then, with the green that is left of it, or that is not an emergency's while some approach reports one.
   */
  lemma AsksExactly(events: seq<Event>, k: Tick)
    requires Clocked(events)
    ensures var t := After(events);
      Changes(t, k) <==>
        if t.active.None? then k.observed != {}
        else
          var a := Release(t, k).active.value;
          k.now >= t.start + (a.green + a.yellow + 2) as real
          || (!t.active.value.emergency && exists lane :: lane in FOUR_LANES && k.stats.Get(lane).hasPriority)
  {
    hide After;
    LogInvariant(events);
    EmergencyMeans(k.stats);
  }

  lemma EmergencyMeans(stats: PerLane<LaneStats>)
    ensures AnyEmergency(stats) <==> exists lane :: lane in FOUR_LANES && stats.Get(lane).hasPriority
  {
    if AnyEmergency(stats) {
      assert stats.Get(North).hasPriority || stats.Get(East).hasPriority || stats.Get(South).hasPriority
             || stats.Get(West).hasPriority;
    }
  }

  /** The steps of a run that asked it. */
  ghost function Asked(events: seq<Event>): set<nat> {
    set j | 0 <= j < |events| && events[j].Run? && Changes(After(events[..j]), events[j].k)
  }

  lemma AskedOneMore(events: seq<Event>)
    requires events != []
    ensures var n := |events| - 1; var t, e := After(events[..n]), events[n];
      && n !in Asked(events[..n])
      && Asked(events) == Asked(events[..n]) + if e.Run? && Changes(t, e.k) then {n} else {}
  {
    hide After, Changes;
    var n := |events| - 1;
    assert forall j | 0 <= j < n :: events[..n][..j] == events[..j];
  }

  lemma CounterStep(t: Timer, e: Event)
    ensures Apply(t, e).counter == t.counter + if e.Run? && Changes(t, e.k) then 1 else 0
  {
    hide Changes, Choose, SchedulerCall;
  }

  /** The phase counter numbers them. */
  lemma {:induction false} CounterIsAsked(events: seq<Event>)
    ensures After(events).counter == |Asked(events)|
  {
    hide Asked, Changes, Apply;
    if events == [] {
      NothingAsked();
    } else {
      CounterIsAsked(events[..|events| - 1]);
      AskedOneMore(events);
      CounterStep(After(events[..|events| - 1]), events[|events| - 1]);
    }
  }

  lemma NothingAsked()
    ensures Asked([]) == {}
  {}

  // ----- where the turns in the log come from --------------------------------------------------------

  /** The event with which turn x of a run begins: a step that changes the phase and finds somebody eligible. */
  ghost predicate Grants(events: seq<Event>, j: nat, x: Turn)
    requires j < |events|
  {
    && events[j].Run? && Changes(After(events[..j]), events[j].k)
    && var k, policy := events[j].k, events[j].policy; var c := SchedulerCall(k, policy);
       var winner := Choose(After(events[..j]).cursor, c);
    && winner.Some? && x.lane == winner.value.lane && x.start == k.now
    && x.granted == policy.green(winner.value, c.scores) && x.yellow == policy.yellow
    && x.emergency == k.stats.Get(x.lane).hasPriority
  }

  lemma OpensIsChoice(t: Timer, e: Event)
    ensures var turn := Opens(t, e);
      && (turn.Some? <==> e.Run? && Changes(t, e.k) && Choose(t.cursor, SchedulerCall(e.k, e.policy)).Some?)
      && (turn.Some? ==>
            var c := SchedulerCall(e.k, e.policy); var winner := Choose(t.cursor, c).value;
            && turn.value.lane == winner.lane && turn.value.start == e.k.now && turn.value.yellow == e.policy.yellow
            && turn.value.granted == e.policy.green(winner, c.scores)
            && turn.value.emergency == e.k.stats.Get(winner.lane).hasPriority)
  {
    hide Choose, SchedulerCall;
  }

  /** What the end of a turn leaves as it was granted. */
  predicate SameGrant(x: Turn, y: Turn) {
    && x.lane == y.lane && x.start == y.start && x.granted == y.granted && x.yellow == y.yellow
    && x.emergency == y.emergency
  }

  lemma NoteKeepsGrant(x: Turn, t: Timer, e: Event)
    ensures SameGrant(x, Note(x, t, e))
  {
    hide Changes, RunsOut, Release, Cuts;
  }

  /** Each turn of the log was granted by a step of the run, as the scheduler chose there. */
  lemma {:induction false} GrantOf(events: seq<Event>, i: nat) returns (j: nat)
    requires i < |Log(events)|
    ensures j < |events| && Grants(events, j, Log(events)[i]) && |Log(events[..j])| == i
  {
    hide Note, Opens, Apply, After, Choose, SchedulerCall;
    var n := |events| - 1;
    var rest, e := events[..n], events[n];
    var log, t := Log(rest), After(rest);
    if i < |log| {
      j := GrantOf(rest, i);
      assert rest[..j] == events[..j];
      NoteKeepsGrant(log[|log| - 1], t, e);
    } else {
      j := n;
      OpensIsChoice(t, e);
    }
  }

  /** And each such step of the run has its turn in the log, at the next place. */
  lemma {:induction false} GrantIsLogged(events: seq<Event>, j: nat)
    requires j < |events| && events[j].Run? && Changes(After(events[..j]), events[j].k)
    requires Choose(After(events[..j]).cursor, SchedulerCall(events[j].k, events[j].policy)).Some?
    ensures var i := |Log(events[..j])|; i < |Log(events)| && Grants(events, j, Log(events)[i])
    decreases |events|
  {
    hide Note, Opens, Apply, After, Choose, SchedulerCall;
    var n := |events| - 1;
    var rest, e := events[..n], events[n];
    OpensIsChoice(After(rest), e);
    if j < n {
      assert rest[..j] == events[..j];
      GrantIsLogged(rest, j);
      NoteKeepsGrant(Log(rest)[|Log(rest)| - 1], After(rest), e);
    }
  }

  /**
   A step that grants a green to an approach at which it finds an emergency gives it a turn that nothing but STOP ends
   before its green, yellow and all-red are over.
   */
  lemma EmergencyKeepsItsTurn(events: seq<Event>, j: nat)
    requires Clocked(events) && j < |events| && events[j].Run? && Changes(After(events[..j]), events[j].k)
    requires var winner := Choose(After(events[..j]).cursor, SchedulerCall(events[j].k, events[j].policy));
      winner.Some? && events[j].k.stats.Get(winner.value.lane).hasPriority
    ensures var i := |Log(events[..j])|;
      i < |Log(events)| && Grants(events, j, Log(events)[i]) && (ByTimer(Log(events)[i]) ==> InFull(Log(events)[i]))
  {
    hide Log, Choose, SchedulerCall;
    GrantIsLogged(events, j);
    LogInvariant(events);
  }

  // ----- what a cut rests on -------------------------------------------------------------------------

  /** Event m saw the lane empty, and no later event up to n saw it occupied. */
  ghost predicate EmptyFrom(events: seq<Event>, lane: Lane, m: nat, n: nat) {
    && m < n <= |events| && events[m].Run? && SeenEmpty(lane, events[m].k)
    && forall i | m <= i < n && events[i].Run? && lane in events[i].k.observed :: SeenEmpty(lane, events[i].k)
  }

  /** From event m on the same turn has been running. */
  ghost predicate SameTurn(events: seq<Event>, m: nat) {
    forall i | m <= i < |events| :: events[i].Run? && !Changes(After(events[..i]), events[i].k)
  }

  lemma EmptySinceStep(t: Timer, e: Event)
    requires Apply(t, e).active.Some? && Apply(t, e).emptySince.Some?
    ensures e.Run? && !Changes(t, e.k) && t.active.Some?
    ensures var t' := Apply(t, e); var lane := t.active.value.lane;
      && t'.active.value.lane == lane && (lane in e.k.observed ==> SeenEmpty(lane, e.k))
      && (if t.emptySince.Some? then t'.emptySince == t.emptySince
          else SeenEmpty(lane, e.k) && t'.emptySince == Some(e.k.now))
  {
    hide Change;
    if e.Run? {
      ChangeFacts(Release(t, e.k), e.k, e.policy);
    }
  }

  lemma {:induction false} EmptySinceMeans(events: seq<Event>) returns (m: nat)
    ensures var t := After(events);
      t.active.Some? && t.emptySince.Some? ==>
        && EmptyFrom(events, t.active.value.lane, m, |events|) && TimeOf(events[m]) == t.emptySince.value
        && SameTurn(events, m)
  {
    hide Apply, Changes, SeenEmpty;
    m := 0;
    if events != [] {
      var rest, e := events[..|events| - 1], events[|events| - 1];
      m := EmptySinceMeans(rest);
      if After(events).active.Some? && After(events).emptySince.Some? {
        EmptySinceStep(After(rest), e);
        if After(rest).emptySince.None? {
          m := |rest|;
        }
        assert forall i | m <= i < |rest| :: events[..i] == rest[..i];
      }
    }
  }

  /** A cut follows two empty sightings at least a second apart with no occupied one from the first on. */
  lemma CutEvidence(events: seq<Event>, k: Tick, policy: Policy) returns (m: nat)
    requires Cuts(After(events), k)
    ensures var lane := After(events).active.value.lane;
      && EmptyFrom(events + [Run(k, policy)], lane, m, |events| + 1) && m < |events|
      && k.now - TimeOf(events[m]) >= EMPTY_LANE_RELEASE_SEC
  {
    m := EmptySinceMeans(events);
  }

  lemma ReleaseEmpty(t: Timer, k: Tick, at: real)
    requires t.active.Some? && SeenEmpty(t.active.value.lane, k)
    requires if t.emptySince.Some? then t.emptySince.value <= at else k.now <= at
    ensures var since := Release(t, k).emptySince; since.Some? && since.value <= at
  {}

  lemma EmptySinceIsPast(events: seq<Event>)
    requires Clocked(events)
    ensures var t := After(events); t.active.Some? && t.emptySince.Some? ==> t.emptySince.value <= Now(events)
  {
    hide After, Log;
    LogInvariant(events);
  }

  lemma EmptySinceStays(t: Timer, k: Tick, lane: Lane, at: real)
    requires t.active.Some? && t.active.value.lane == lane && (lane in k.observed ==> SeenEmpty(lane, k))
    requires if t.emptySince.Some? then t.emptySince.value <= at else lane in k.observed && k.now <= at
    ensures var since := Release(t, k).emptySince; since.Some? && since.value <= at
  {
    hide Release;
    if lane in k.observed {
      ReleaseEmpty(t, k, at);
    } else {
      UnseenKeeps(t, k);
    }
  }

  lemma {:induction false} EmptySinceBound(events: seq<Event>, lane: Lane, m: nat)
    requires Clocked(events) && EmptyFrom(events, lane, m, |events|) && SameTurn(events, m)
    requires After(events).active.Some? && After(events).active.value.lane == lane
    ensures After(events).emptySince.Some? && After(events).emptySince.value <= TimeOf(events[m])
  {
    hide Change, Release, Changes;
    var n := |events| - 1;
    var rest, k := events[..n], events[n].k;
    var t := After(rest);
    assert !Changes(t, k) && After(events) == Release(t, k);
    ReleaseKeepsLane(t, k);
    if m < n {
      assert forall i | m <= i < n :: rest[..i] == events[..i];
      EmptySinceBound(rest, lane, m);
    } else {
      EmptySinceIsPast(rest);
    }
    EmptySinceStays(t, k, lane, TimeOf(events[m]));
  }

  lemma ReleaseKeepsLane(t: Timer, k: Tick)
    ensures Release(t, k).active.Some? <==> t.active.Some?
    ensures t.active.Some? ==> Release(t, k).active.value.lane == t.active.value.lane
  {}

  lemma UnseenKeeps(t: Timer, k: Tick)
    requires t.active.Some? && t.active.value.lane !in k.observed
    ensures Release(t, k) == t
  {}

  /** The running turn has been found empty by time `at`, with no occupied sighting since. */
  ghost predicate EmptyBy(events: seq<Event>, lane: Lane, at: real) {
    exists m: nat | m < |events| ::
      EmptyFrom(events, lane, m, |events|) && SameTurn(events, m) && TimeOf(events[m]) <= at
  }

  lemma EmptySinceExactly(events: seq<Event>, at: real)
    requires Clocked(events) && After(events).active.Some?
    ensures var t := After(events);
      EmptyBy(events, t.active.value.lane, at) <==> t.emptySince.Some? && t.emptySince.value <= at
  {
    hide SameTurn, After;
    var t := After(events);
    var lane := t.active.value.lane;
    if t.emptySince.Some? && t.emptySince.value <= at {
      var m := EmptySinceMeans(events);
      assert m < |events| && EmptyFrom(events, lane, m, |events|) && SameTurn(events, m) && TimeOf(events[m]) <= at;
    }
    if EmptyBy(events, lane, at) {
      var m: nat :| m < |events| && EmptyFrom(events, lane, m, |events|) && SameTurn(events, m)
                    && TimeOf(events[m]) <= at;
      EmptySinceBound(events, lane, m);
    }
  }

  /**
   A step cuts the green short exactly when it finds the approach empty before the green is over and the same turn has
   been found empty a second or more before, with no occupied sighting between.
   */
  lemma CutsExactly(events: seq<Event>, k: Tick)
    requires Clocked(events)
    ensures var t := After(events);
      Cuts(t, k) <==>
        && t.active.Some? && SeenEmpty(t.active.value.lane, k) && k.now - t.start < t.active.value.green as real
        && EmptyBy(events, t.active.value.lane, k.now - EMPTY_LANE_RELEASE_SEC)
  {
    hide After, EmptyBy;
    LogInvariant(events);
    if After(events).active.Some? {
      EmptySinceExactly(events, k.now - EMPTY_LANE_RELEASE_SEC);
    }
  }
}
