/** Vehicle lifecycles per camera: confirmation, motion, queueing, lane changes and expiry. */
module VehicleTracking {
  import opened Signals
  import opened StableSort

  /** The square of QUEUE_MOTION_THRESHOLD_PX_SEC: speeds are kept squared, so that no square root is needed. */
  const SLOW_SPEED_SQUARED := 225.0
  const CONSECUTIVE_QUEUE_FRAMES := 10
  const MIN_CONFIRMATION_FRAMES := 2
  const TRACK_REMOVAL_GRACE_SEC := 1.8
  const TRACK_EXPIRATION_TIMEOUT_SEC := 4.0

  datatype Detection = Detection(trackId: Option<int>, predicted: bool, className: string, lane: string,
                                 cx: int, cy: int, isPriority: bool)

  datatype VehicleState = VehicleState(
    trackId: int, className: string, lane: string, cx: int, cy: int,
    firstSeen: real, lastSeen: real, enteredFrame: int, lastSeenFrame: int,
    speedSquared: real, timeInLane: real, queueTime: real, slowFrames: nat, seenFrames: nat,
    isQueued: bool, isAlive: bool, isConfirmed: bool, isPriority: bool,
    observed: bool, lastObservationFrame: int, lastPredictionFrame: Option<int>)

  /** The detections of one detector frame, with its number and time. */
  datatype Update = Frame(detections: seq<Detection>, frame: int, now: real)

  function LaneName(d: Detection): (name: string)
    ensures name != "" && (name == d.lane || (d.lane == "" && name == "Unknown"))
  {
    if d.lane == "" then "Unknown" else d.lane
  }

  // ----- one vehicle -----------------------------------------------------------------------------

  function Created(tid: int, d: Detection, frame: int, now: real): VehicleState {
    VehicleState(tid, d.className, LaneName(d), d.cx, d.cy, now, now, frame, frame,
                 0.0, 0.0, 0.0, 0, 1, false, true, false, d.isPriority, true, frame, None)
  }

  function SpeedSquared(dx: int, dy: int, dt: real): real
    requires dt > 0.0
  {
    (dx * dx + dy * dy) as real / (dt * dt)
  }

  function NextSpeed(s: VehicleState, d: Detection, dt: real): real {
    if dt > 0.0 then SpeedSquared(d.cx - s.cx, d.cy - s.cy, dt) else s.speedSquared
  }

  function Add(total: real, dt: real): real {
    if dt > 0.0 then total + dt else total
  }

  function Slow(count: nat, speedSquared: real): nat {
    if speedSquared < SLOW_SPEED_SQUARED then count + 1 else if count > 0 then count - 1 else 0
  }

  function Observe(s: VehicleState, d: Detection, frame: int, now: real): VehicleState {
    var dt, switched := now - s.lastSeen, s.lane != LaneName(d);
    var speed := NextSpeed(s, d, dt);
    var slow := Slow(if switched then 0 else s.slowFrames, speed);
    var queued := slow >= CONSECUTIVE_QUEUE_FRAMES;
    var queue := if switched then 0.0 else s.queueTime;
    s.(lane := LaneName(d), cx := d.cx, cy := d.cy, lastSeen := now, lastSeenFrame := frame, speedSquared := speed,
       timeInLane := if switched then 0.0 else Add(s.timeInLane, dt),
       queueTime := if queued then Add(queue, dt) else queue,
       slowFrames := slow, isQueued := queued, seenFrames := s.seenFrames + 1,
       isConfirmed := s.isConfirmed || s.seenFrames + 1 >= MIN_CONFIRMATION_FRAMES,
       isAlive := true, observed := true, lastObservationFrame := frame)
  }

  function Project(s: VehicleState, frame: int): VehicleState {
    s.(observed := false, lastPredictionFrame := Some(frame))
  }

  // ----- the tracks of one camera ------------------------------------------------------------------

  /** Active states in the order of the dictionary, and the tracks ever counted for each lane. */
  datatype Memory = Memory(states: seq<VehicleState>, history: map<string, set<int>>)

  const LANE_NAMES := ["North", "South", "East", "West"]

  const NO_TRACKS := Memory([], map["North" := {}, "South" := {}, "East" := {}, "West" := {}])

  function HistoryOf(history: map<string, set<int>>, lane: string): set<int> {
    if lane in history then history[lane] else {}
  }

  function Find(states: seq<VehicleState>, tid: int): (i: nat)
    ensures i <= |states| && (i < |states| ==> states[i].trackId == tid)
    ensures forall j | 0 <= j < i :: states[j].trackId != tid
  {
    if states == [] || states[0].trackId == tid then 0 else 1 + Find(states[1..], tid)
  }

  function Store(m: Memory, i: nat, s: VehicleState): Memory
    requires i <= |m.states|
  {
    Memory(if i < |m.states| then m.states[i := s] else m.states + [s],
           if s.isConfirmed then m.history[s.lane := HistoryOf(m.history, s.lane) + {s.trackId}] else m.history)
  }

  function Feed(m: Memory, d: Detection, frame: int, now: real): Memory {
    if d.trackId.None? then m
    else
      var i := Find(m.states, d.trackId.value);
      if d.predicted then
        if i < |m.states| then m.(states := m.states[i := Project(m.states[i], frame)]) else m
      else Store(m, i, if i < |m.states| then Observe(m.states[i], d, frame, now)
                 else Created(d.trackId.value, d, frame, now))
  }

  function FeedAll(m: Memory, ds: seq<Detection>, frame: int, now: real): Memory
    decreases |ds|
  {
    if ds == [] then m else FeedAll(Feed(m, ds[0], frame, now), ds[1..], frame, now)
  }

  function Seen(ds: seq<Detection>): set<int> {
    if ds == [] then {}
    else (if ds[0].trackId.Some? && !ds[0].predicted then {ds[0].trackId.value} else {}) + Seen(ds[1..])
  }

  predicate IsStale(s: VehicleState, now: real) {
    now - s.lastSeen > TRACK_EXPIRATION_TIMEOUT_SEC || now - s.lastSeen > TRACK_REMOVAL_GRACE_SEC
  }

  /** The state after the purge, if it survives. */
  function Kept(s: VehicleState, seen: set<int>, now: real): seq<VehicleState> {
    if s.trackId in seen then [s] else if IsStale(s, now) then [] else [s.(isAlive := false)]
  }

  function Purge(states: seq<VehicleState>, seen: set<int>, now: real): seq<VehicleState> {
    if states == [] then [] else Purge(states[..|states| - 1], seen, now) + Kept(states[|states| - 1], seen, now)
  }

  function Next(m: Memory, u: Update): Memory {
    var fed := FeedAll(m, u.detections, u.frame, u.now);
    fed.(states := Purge(fed.states, Seen(u.detections), u.now))
  }

  function Run(us: seq<Update>): Memory {
    if us == [] then NO_TRACKS else Next(Run(us[..|us| - 1]), us[|us| - 1])
  }

  // ----- invariants after every update -------------------------------------------------------------

  ghost predicate Consistent(s: VehicleState) {
    && (s.isQueued <==> s.slowFrames >= CONSECUTIVE_QUEUE_FRAMES)
    && (s.isConfirmed <==> s.seenFrames >= MIN_CONFIRMATION_FRAMES) && s.seenFrames >= 1
    && 0.0 <= s.queueTime <= s.timeInLane
  }

  ghost predicate Distinct(states: seq<VehicleState>) {
    forall i, j | 0 <= i < j < |states| :: states[i].trackId != states[j].trackId
  }

  /** A confirmed vehicle is in the history of the lane it is in. */
  ghost predicate Recorded(s: VehicleState, history: map<string, set<int>>) {
    s.isConfirmed ==> s.trackId in HistoryOf(history, s.lane)
  }

  ghost predicate Sound(m: Memory) {
    && Distinct(m.states)
    && (forall i | 0 <= i < |m.states| :: Consistent(m.states[i]))
    && forall i | 0 <= i < |m.states| :: Recorded(m.states[i], m.history)
  }

  /** Alive means observed in this frame; nobody retained has been away longer than the grace period. */
  ghost predicate Current(s: VehicleState, seen: set<int>, now: real) {
    && (s.isAlive <==> s.trackId in seen) && (s.isAlive ==> s.lastSeen == now)
    && now - s.lastSeen <= TRACK_REMOVAL_GRACE_SEC
  }

  lemma ObserveKeeps(s: VehicleState, d: Detection, frame: int, now: real)
    requires Consistent(s)
    ensures Consistent(Observe(s, d, frame, now))
  {
    hide NextSpeed;
  }

  lemma StoreKeeps(m: Memory, i: nat, s: VehicleState)
    requires Sound(m) && i <= |m.states| && Consistent(s)
    requires i == Find(m.states, s.trackId)
    ensures Sound(Store(m, i, s))
  {
    hide Consistent, Find;
    var m' := Store(m, i, s);
    forall j | 0 <= j < |m'.states| ensures Recorded(m'.states[j], m'.history) {
      if j != i {
        assert m'.states[j] == m.states[j] && Recorded(m.states[j], m.history);
      }
    }
  }

  /** The tracks observed so far in this frame. */
  ghost predicate Touched(states: seq<VehicleState>, seen: set<int>, now: real) {
    forall i | 0 <= i < |states| && states[i].trackId in seen :: states[i].isAlive && states[i].lastSeen == now
  }

  lemma FeedKeeps(m: Memory, d: Detection, frame: int, now: real, seen: set<int>)
    requires Sound(m) && Touched(m.states, seen, now)
    ensures Sound(Feed(m, d, frame, now)) && Touched(Feed(m, d, frame, now).states, seen + Seen([d]), now)
  {
    hide Observe, Consistent, Recorded, Sound;
    if d.trackId.Some? {
      var i := Find(m.states, d.trackId.value);
      if d.predicted {
        if i < |m.states| {
          ProjectKeeps(m, i, frame);
        }
      } else if i < |m.states| {
        var s := Observe(m.states[i], d, frame, now);
        StateIn(m, i);
        ObserveKeeps(m.states[i], d, frame, now);
        ObserveTouches(m.states[i], d, frame, now);
        StoreKeeps(m, i, s);
        TouchStore(m, i, s, seen, now);
      } else {
        CreatedKeeps(d.trackId.value, d, frame, now);
        StoreKeeps(m, i, Created(d.trackId.value, d, frame, now));
        TouchStore(m, i, Created(d.trackId.value, d, frame, now), seen, now);
      }
    }
  }

  lemma TouchStore(m: Memory, i: nat, s: VehicleState, seen: set<int>, now: real)
    requires Sound(m) && Touched(m.states, seen, now) && i == Find(m.states, s.trackId) && s.isAlive
             && s.lastSeen == now
    ensures Touched(Store(m, i, s).states, seen + {s.trackId}, now)
  {
    hide Find;
  }

  lemma ObserveTouches(s: VehicleState, d: Detection, frame: int, now: real)
    ensures var t := Observe(s, d, frame, now);
      t.trackId == s.trackId && t.lane == LaneName(d) && t.isAlive && t.lastSeen == now
  {
  }

  lemma CreatedKeeps(tid: int, d: Detection, frame: int, now: real)
    ensures Consistent(Created(tid, d, frame, now))
  {
  }

  lemma StateIn(m: Memory, i: nat)
    requires Sound(m) && i < |m.states|
    ensures Consistent(m.states[i]) && Recorded(m.states[i], m.history)
  {
  }

  lemma ProjectKeeps(m: Memory, i: nat, frame: int)
    requires Sound(m) && i < |m.states|
    ensures Sound(m.(states := m.states[i := Project(m.states[i], frame)]))
  {
    var m' := m.(states := m.states[i := Project(m.states[i], frame)]);
    forall j | 0 <= j < |m'.states| ensures Consistent(m'.states[j]) && Recorded(m'.states[j], m'.history) {
      StateIn(m, j);
    }
  }

  lemma {:induction false} FeedAllKeeps(m: Memory, ds: seq<Detection>, frame: int, now: real, seen: set<int>)
    requires Sound(m) && Touched(m.states, seen, now)
    ensures Sound(FeedAll(m, ds, frame, now)) && Touched(FeedAll(m, ds, frame, now).states, seen + Seen(ds), now)
    decreases |ds|
  {
    hide Feed, Sound, Touched;
    if ds == [] {
      assert seen + {} == seen;
    } else {
      FeedKeeps(m, ds[0], frame, now, seen);
      FeedAllKeeps(Feed(m, ds[0], frame, now), ds[1..], frame, now, seen + Seen([ds[0]]));
      assert (seen + Seen([ds[0]])) + Seen(ds[1..]) == seen + Seen(ds);
    }
  }

  lemma FeedSound(m: Memory, d: Detection, frame: int, now: real)
    requires Sound(m)
    ensures Sound(Feed(m, d, frame, now))
  {
    hide Sound, Feed;
    FeedKeeps(m, d, frame, now, {});
  }

  ghost function Ids(states: seq<VehicleState>): set<int> {
    set i | 0 <= i < |states| :: states[i].trackId
  }

  lemma {:induction false} PurgeKeeps(m: Memory, seen: set<int>, now: real)
    requires Sound(m) && Touched(m.states, seen, now)
    ensures var m' := m.(states := Purge(m.states, seen, now));
      && Sound(m') && Ids(m'.states) <= Ids(m.states)
      && forall i | 0 <= i < |m'.states| :: Current(m'.states[i], seen, now)
    decreases |m.states|
  {
    hide Consistent, Recorded;
    if m.states != [] {
      var init := m.(states := m.states[..|m.states| - 1]);
      PurgeKeeps(init, seen, now);
      var s := m.states[|m.states| - 1];
      KeptKeeps(s, m.history, seen, now);
      assert s.trackId !in Ids(init.states);
      assert Ids(init.states) <= Ids(m.states) && s.trackId in Ids(m.states);
      PurgeIds(Purge(init.states, seen, now), Kept(s, seen, now), s.trackId);
    }
  }

  lemma PurgeIds(front: seq<VehicleState>, last: seq<VehicleState>, tid: int)
    requires Distinct(front) && tid !in Ids(front) && |last| <= 1 && (last != [] ==> last[0].trackId == tid)
    ensures Distinct(front + last) && Ids(front + last) <= Ids(front) + {tid}
  {
    forall i | 0 <= i < |front| ensures front[i].trackId != tid {
      assert front[i].trackId in Ids(front);
    }
  }

  lemma KeptKeeps(s: VehicleState, history: map<string, set<int>>, seen: set<int>, now: real)
    requires Consistent(s) && Recorded(s, history) && (s.trackId in seen ==> s.isAlive && s.lastSeen == now)
    ensures forall i | 0 <= i < |Kept(s, seen, now)| ::
      Consistent(Kept(s, seen, now)[i]) && Recorded(Kept(s, seen, now)[i], history)
      && Current(Kept(s, seen, now)[i], seen, now)
    ensures |Kept(s, seen, now)| <= 1 && (Kept(s, seen, now) != [] ==> Kept(s, seen, now)[0].trackId == s.trackId)
  {
  }

  lemma {:induction false} RunIsSound(us: seq<Update>)
    ensures Sound(Run(us))
  {
    hide Sound, Next;
    if us == [] {
      EmptyIsSound();
    } else {
      RunIsSound(us[..|us| - 1]);
      NextKeeps(Run(us[..|us| - 1]), us[|us| - 1]);
    }
  }

  lemma EmptyIsSound()
    ensures Sound(NO_TRACKS)
  {
  }

  lemma NextKeeps(m: Memory, u: Update)
    requires Sound(m)
    ensures Sound(Next(m, u))
    ensures forall i | 0 <= i < |Next(m, u).states| :: Current(Next(m, u).states[i], Seen(u.detections), u.now)
  {
    hide Sound;
    FeedAllKeeps(m, u.detections, u.frame, u.now, {});
    assert {} + Seen(u.detections) == Seen(u.detections);
    PurgeKeeps(FeedAll(m, u.detections, u.frame, u.now), Seen(u.detections), u.now);
  }

  /** After every update of every run. */
  lemma VehicleInvariant(us: seq<Update>, i: nat)
    requires us != [] && i < |Run(us).states|
    ensures var s, u := Run(us).states[i], us[|us| - 1];
      && (s.isAlive <==> s.trackId in Seen(u.detections)) && u.now - s.lastSeen <= TRACK_REMOVAL_GRACE_SEC
      && 0.0 <= s.queueTime <= s.timeInLane
      && (s.isQueued <==> s.slowFrames >= CONSECUTIVE_QUEUE_FRAMES)
      && (s.isConfirmed <==> s.seenFrames >= MIN_CONFIRMATION_FRAMES)
      && (s.isConfirmed ==> s.trackId in HistoryOf(Run(us).history, s.lane))
  {
    hide Next;
    RunIsSound(us[..|us| - 1]);
    NextKeeps(Run(us[..|us| - 1]), us[|us| - 1]);
  }

  function Counts(lane: string): VehicleState -> bool {
    (s: VehicleState) => s.isAlive && s.isConfirmed && s.lane == lane
  }

  /** The vehicles that count for a lane, in the order of the active states. */
  function Group(states: seq<VehicleState>, lane: string): seq<VehicleState> {
    Filter(states, Counts(lane))
  }

  // ----- the manager -------------------------------------------------------------------------------

  class VehicleStateManager {
    var activeStates: seq<VehicleState>
    var historicalTracksCount: map<string, set<int>>

    constructor ()
      ensures View() == NO_TRACKS
    {
      activeStates, historicalTracksCount := NO_TRACKS.states, NO_TRACKS.history;
    }

    ghost function View(): Memory
      reads this
    {
      Memory(activeStates, historicalTracksCount)
    }

    method ObserveAgain(i: nat, d: Detection, frame: int, now: real)
      requires i < |activeStates|
      modifies this`activeStates
      ensures activeStates == old(activeStates)[i := Observe(old(activeStates)[i], d, frame, now)]
    {
      hide SpeedSquared;
      var s := activeStates[i];
      var dt := now - s.lastSeen;
      var timeInLane, queueTime, slowFrames, speed := s.timeInLane, s.queueTime, s.slowFrames, s.speedSquared;
      if s.lane != LaneName(d) {
        timeInLane, queueTime, slowFrames := 0.0, 0.0, 0;
      } else if dt > 0.0 {
        timeInLane := timeInLane + dt;
      }
      if dt > 0.0 {
        speed := SpeedSquared(d.cx - s.cx, d.cy - s.cy, dt);
      }
      if speed < SLOW_SPEED_SQUARED {
        slowFrames := slowFrames + 1;
      } else if slowFrames > 0 {
        slowFrames := slowFrames - 1;
      }
      var isQueued := slowFrames >= CONSECUTIVE_QUEUE_FRAMES;
      if isQueued && dt > 0.0 {
        queueTime := queueTime + dt;
      }
      var isConfirmed := s.isConfirmed;
      if s.seenFrames + 1 >= MIN_CONFIRMATION_FRAMES {
        isConfirmed := true;
      }
      activeStates := activeStates[i :=
        s.(lane := LaneName(d), cx := d.cx, cy := d.cy, lastSeen := now, lastSeenFrame := frame, speedSquared := speed,
           timeInLane := timeInLane, queueTime := queueTime, slowFrames := slowFrames, isQueued := isQueued,
           seenFrames := s.seenFrames + 1, isConfirmed := isConfirmed,
           isAlive := true, observed := true, lastObservationFrame := frame)];
    }

    method Accept(d: Detection, frame: int, now: real)
      modifies this
      ensures View() == Feed(old(View()), d, frame, now)
    {
      hide Observe, Created, Find;
      if d.trackId.None? {
        return;
      }
      var tid := d.trackId.value;
      var i := Find(activeStates, tid);
      if d.predicted {
        if i < |activeStates| {
          activeStates := activeStates[i := activeStates[i].(observed := false, lastPredictionFrame := Some(frame))];
        }
        return;
      }
      if i == |activeStates| {
        activeStates := activeStates + [Created(tid, d, frame, now)];
      } else {
        ObserveTouches(activeStates[i], d, frame, now);
        ObserveAgain(i, d, frame, now);
      }
      CreatedLane(tid, d, frame, now);
      if activeStates[i].isConfirmed {
        var lane := LaneName(d);
        historicalTracksCount := historicalTracksCount[lane := HistoryOf(historicalTracksCount, lane) + {tid}];
      }
    }

    method PurgeStaleTracks(seen: set<int>, now: real)
      requires Distinct(activeStates)
      modifies this`activeStates
      ensures activeStates == Purge(old(activeStates), seen, now)
    {
      ghost var before := activeStates;
      var stale: set<int> := {};
      for i := 0 to |activeStates|
        invariant |activeStates| == |before|
        invariant forall j | i <= j < |before| :: activeStates[j] == before[j]
        invariant forall j | 0 <= j < i ::
          activeStates[j] == (if before[j].trackId in seen then before[j] else before[j].(isAlive := false))
        invariant forall j | 0 <= j < |before| ::
          before[j].trackId in stale <==> j < i && before[j].trackId !in seen && IsStale(before[j], now)
      {
        var s := activeStates[i];
        if s.trackId !in seen {
          activeStates := activeStates[i := s.(isAlive := false)];
          if now - s.lastSeen > TRACK_EXPIRATION_TIMEOUT_SEC || now - s.lastSeen > TRACK_REMOVAL_GRACE_SEC {
            stale := stale + {s.trackId};
          }
        }
      }
      var kept := [];
      for i := 0 to |activeStates|
        invariant kept == Purge(before[..i], seen, now)
      {
        assert before[..i + 1][..i] == before[..i];
        if activeStates[i].trackId !in stale {
          kept := kept + [activeStates[i]];
        }
      }
      assert before[..|before|] == before;
      activeStates := kept;
    }

    method Update(ds: seq<Detection>, frame: int, now: real)
      requires Sound(View())
      modifies this
      ensures View() == Next(old(View()), Frame(ds, frame, now)) && Sound(View())
    {
      hide Feed, Purge, Sound;
      ghost var before := View();
      var currentFrameTrackIds: set<int> := {};
      for i := 0 to |ds|
        invariant Sound(View()) && FeedAll(View(), ds[i..], frame, now) == FeedAll(before, ds, frame, now)
        invariant currentFrameTrackIds + Seen(ds[i..]) == Seen(ds)
      {
        var d := ds[i];
        assert ds[i..][0] == d && ds[i..][1..] == ds[i + 1..];
        FeedSound(View(), d, frame, now);
        if d.trackId.Some? && !d.predicted {
          currentFrameTrackIds := currentFrameTrackIds + {d.trackId.value};
        }
        Accept(d, frame, now);
      }
      assert View() == FeedAll(before, ds, frame, now) && currentFrameTrackIds == Seen(ds);
      NextKeeps(before, Frame(ds, frame, now));
      SoundIsDistinct(View());
      PurgeStaleTracks(currentFrameTrackIds, now);
    }

    method GetConfirmedVehiclesByLane() returns (grouped: map<string, seq<VehicleState>>)
      ensures forall lane :: (if lane in grouped then grouped[lane] else []) == Group(activeStates, lane)
    {
      hide Filter;
      grouped := map[];
      NothingFiltered();
      for i := 0 to |activeStates|
        modifies {}
        invariant forall lane :: (if lane in grouped then grouped[lane] else []) == Group(activeStates[..i], lane)
      {
        var s := activeStates[i];
        GroupOneMore(activeStates, i);
        if s.isAlive && s.isConfirmed {
          grouped := grouped[s.lane := (if s.lane in grouped then grouped[s.lane] else []) + [s]];
        }
      }
      assert activeStates[..|activeStates|] == activeStates;
    }
  }

  lemma CreatedLane(tid: int, d: Detection, frame: int, now: real)
    ensures Created(tid, d, frame, now).lane == LaneName(d) && Created(tid, d, frame, now).trackId == tid
  {
  }

  lemma SoundIsDistinct(m: Memory)
    requires Sound(m)
    ensures Distinct(m.states)
  {
  }

  lemma NothingFiltered()
    ensures forall lane :: Group([], lane) == []
  {
  }

  lemma GroupOneMore(states: seq<VehicleState>, i: nat)
    requires i < |states|
    ensures forall lane ::
      Group(states[..i + 1], lane) == Group(states[..i], lane) + (if Counts(lane)(states[i]) then [states[i]] else [])
  {
    forall lane
      ensures Group(states[..i + 1], lane)
              == Group(states[..i], lane) + (if Counts(lane)(states[i]) then [states[i]] else [])
    {
      assert states[..i + 1] == states[..i] + [states[i]];
      FilterConcat(states[..i], [states[i]], Counts(lane));
    }
  }
}
