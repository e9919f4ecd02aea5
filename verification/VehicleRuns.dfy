/** What a run of updates leaves behind: of predictions nothing, and each state is the life of its own observations. */
module VehicleRuns {
  import opened Signals
  import opened StableSort
  import opened VehicleTracking

  // ----- predictions are inert ---------------------------------------------------------------------

  /** A vehicle without the two display fields a prediction writes. */
  function Core(s: VehicleState): VehicleState {
    s.(observed := true, lastPredictionFrame := None)
  }

  ghost predicate SameTracks(a: seq<VehicleState>, b: seq<VehicleState>) {
    |a| == |b| && forall i | 0 <= i < |a| :: Core(a[i]) == Core(b[i])
  }

  ghost predicate SameMemory(m: Memory, n: Memory) {
    SameTracks(m.states, n.states) && m.history == n.history
  }

  predicate Evidence(d: Detection) {
    !d.predicted
  }

  lemma FindSame(a: seq<VehicleState>, b: seq<VehicleState>, tid: int)
    requires SameTracks(a, b)
    ensures Find(a, tid) == Find(b, tid)
  {
    hide Core;
    forall i | 0 <= i < |a| ensures a[i].trackId == b[i].trackId {
      SameId(a[i], b[i]);
    }
  }

  lemma SameId(s: VehicleState, t: VehicleState)
    requires Core(s) == Core(t)
    ensures s.trackId == t.trackId && s.lane == t.lane && s.isConfirmed == t.isConfirmed && s.isAlive == t.isAlive
    ensures s.lastSeen == t.lastSeen
  {
    assert Core(s).trackId == Core(t).trackId && Core(s).lane == Core(t).lane;
    assert Core(s).isConfirmed == Core(t).isConfirmed && Core(s).isAlive == Core(t).isAlive
           && Core(s).lastSeen == Core(t).lastSeen;
  }

  lemma ObserveCore(s: VehicleState, d: Detection, frame: int, now: real)
    ensures Core(Observe(s, d, frame, now)) == Core(Observe(Core(s), d, frame, now))
  {
    hide NextSpeed;
    SpeedCore(s, d, now - s.lastSeen);
  }

  lemma SpeedCore(s: VehicleState, d: Detection, dt: real)
    ensures NextSpeed(s, d, dt) == NextSpeed(Core(s), d, dt)
  {
  }

  lemma ObserveSame(s: VehicleState, t: VehicleState, d: Detection, frame: int, now: real)
    requires Core(s) == Core(t)
    ensures Core(Observe(s, d, frame, now)) == Core(Observe(t, d, frame, now))
  {
    hide Observe;
    ObserveCore(s, d, frame, now);
    ObserveCore(t, d, frame, now);
  }

  lemma StoreSame(m: Memory, n: Memory, i: nat, s: VehicleState, t: VehicleState)
    requires SameMemory(m, n) && Core(s) == Core(t) && i <= |m.states|
    ensures SameMemory(Store(m, i, s), Store(n, i, t))
  {
    hide Core;
    SameId(s, t);
  }

  lemma FeedSame(m: Memory, n: Memory, d: Detection, frame: int, now: real)
    requires SameMemory(m, n) && !d.predicted
    ensures SameMemory(Feed(m, d, frame, now), Feed(n, d, frame, now))
  {
    hide Core, Observe, Store, Created;
    if d.trackId.Some? {
      FindSame(m.states, n.states, d.trackId.value);
      var i := Find(m.states, d.trackId.value);
      if i < |m.states| {
        ObserveSame(m.states[i], n.states[i], d, frame, now);
        StoreSame(m, n, i, Observe(m.states[i], d, frame, now), Observe(n.states[i], d, frame, now));
      } else {
        StoreSame(m, n, i, Created(d.trackId.value, d, frame, now), Created(d.trackId.value, d, frame, now));
      }
    }
  }

  lemma FeedInert(m: Memory, n: Memory, d: Detection, frame: int, now: real)
    requires SameMemory(m, n) && d.predicted
    ensures SameMemory(Feed(m, d, frame, now), n)
  {
    hide Observe, Store, Created;
  }

  lemma {:induction false} FeedAllSame(m: Memory, n: Memory, ds: seq<Detection>, frame: int, now: real)
    requires SameMemory(m, n)
    ensures SameMemory(FeedAll(m, ds, frame, now), FeedAll(n, Filter(ds, Evidence), frame, now))
    ensures Seen(ds) == Seen(Filter(ds, Evidence))
    decreases |ds|
  {
    hide Feed, SameMemory;
    if ds != [] {
      if ds[0].predicted {
        FeedInert(m, n, ds[0], frame, now);
        FeedAllSame(Feed(m, ds[0], frame, now), n, ds[1..], frame, now);
      } else {
        FeedSame(m, n, ds[0], frame, now);
        FeedAllSame(Feed(m, ds[0], frame, now), Feed(n, ds[0], frame, now), ds[1..], frame, now);
        assert Filter(ds, Evidence)[1..] == Filter(ds[1..], Evidence);
      }
    }
  }

  lemma KeptSame(s: VehicleState, t: VehicleState, seen: set<int>, now: real)
    requires Core(s) == Core(t)
    ensures SameTracks(Kept(s, seen, now), Kept(t, seen, now))
  {
    SameId(s, t);
    assert Core(s.(isAlive := false)) == Core(s).(isAlive := false);
    assert Core(t.(isAlive := false)) == Core(t).(isAlive := false);
  }

  lemma {:induction false} PurgeSame(a: seq<VehicleState>, b: seq<VehicleState>, seen: set<int>, now: real)
    requires SameTracks(a, b)
    ensures SameTracks(Purge(a, seen, now), Purge(b, seen, now))
  {
    hide Core, Kept;
    if a != [] {
      PurgeSame(a[..|a| - 1], b[..|b| - 1], seen, now);
      KeptSame(a[|a| - 1], b[|b| - 1], seen, now);
    }
  }

  /** The same frames, numbers and times, with the same detector evidence in each. */
  ghost predicate SameEvidence(us: seq<Update>, vs: seq<Update>) {
    && |us| == |vs|
    && forall i | 0 <= i < |us| ::
         us[i].frame == vs[i].frame && us[i].now == vs[i].now
         && Filter(us[i].detections, Evidence) == Filter(vs[i].detections, Evidence)
  }

  lemma NextSame(m: Memory, n: Memory, u: Update, v: Update)
    requires SameMemory(m, n) && u.frame == v.frame && u.now == v.now
    requires Filter(u.detections, Evidence) == Filter(v.detections, Evidence)
    ensures SameMemory(Next(m, u), Next(n, v))
  {
    hide Core, FeedAll, Purge, Seen, Filter;
    FeedAllSame(m, m, u.detections, u.frame, u.now);
    FeedAllSame(m, n, u.detections, u.frame, u.now);
    FeedAllSame(n, n, v.detections, v.frame, v.now);
    var a, b := FeedAll(m, u.detections, u.frame, u.now), FeedAll(n, v.detections, v.frame, v.now);
    assert SameTracks(a.states, b.states);
    PurgeSame(a.states, b.states, Seen(u.detections), u.now);
  }

  /** Adding or deleting predictions anywhere in a run changes nothing but the two display fields. */
  lemma {:induction false} PredictionsAreInert(us: seq<Update>, vs: seq<Update>)
    requires SameEvidence(us, vs)
    ensures SameMemory(Run(us), Run(vs))
  {
    hide Next, Filter;
    if us != [] {
      var n := |us| - 1;
      PredictionsAreInert(us[..n], vs[..n]);
      NextSame(Run(us[..n]), Run(vs[..n]), us[n], vs[n]);
    }
  }

  /** What a prediction does show: the track is marked as predicted in that frame, and nothing else changes. */
  lemma PredictionMarks(m: Memory, d: Detection, frame: int, now: real)
    requires d.predicted && d.trackId.Some?
    ensures var m', i := Feed(m, d, frame, now), Find(m.states, d.trackId.value);
      if i == |m.states| then m' == m
      else && m'.history == m.history && |m'.states| == |m.states|
           && (forall j | 0 <= j < |m.states| && j != i :: m'.states[j] == m.states[j])
           && Core(m'.states[i]) == Core(m.states[i])
           && !m'.states[i].observed && m'.states[i].lastPredictionFrame == Some(frame)
  {
    hide Observe, Created, Find;
  }

  // ----- what a state says about the past ------------------------------------------------------------

  datatype Sighting = Sighting(d: Detection, frame: int, now: real)

  /** The state that a sequence of observations alone leads to. */
  function Life(tid: int, trail: seq<Sighting>): VehicleState
    requires trail != []
  {
    var o := trail[|trail| - 1];
    if |trail| == 1 then Created(tid, o.d, o.frame, o.now)
    else Observe(Life(tid, trail[..|trail| - 1]), o.d, o.frame, o.now)
  }

  function SightingIn(d: Detection, tid: int, frame: int, now: real): seq<Sighting> {
    if d.trackId == Some(tid) && !d.predicted then [Sighting(d, frame, now)] else []
  }

  /** A track's observations in one frame. */
  function SightingsIn(ds: seq<Detection>, tid: int, frame: int, now: real): seq<Sighting> {
    if ds == [] then [] else SightingIn(ds[0], tid, frame, now) + SightingsIn(ds[1..], tid, frame, now)
  }

  /** A track's observations since its state was last created. */
  ghost function Trail(us: seq<Update>, tid: int): seq<Sighting> {
    if us == [] then []
    else
      var u := us[|us| - 1];
      if tid in Ids(Run(us).states) then Trail(us[..|us| - 1], tid) + SightingsIn(u.detections, tid, u.frame, u.now)
      else []
  }

  /** A state up to what predictions write and whether it was observed in the latest frame. */
  function Erase(s: VehicleState): VehicleState {
    Core(s).(isAlive := true)
  }

  ghost predicate Follows(states: seq<VehicleState>, tid: int, trail: seq<Sighting>) {
    && (tid !in Ids(states) ==> trail == [])
    && forall i | 0 <= i < |states| && states[i].trackId == tid ::
      trail != [] && Erase(states[i]) == Erase(Life(tid, trail))
  }

  lemma ObserveErase(s: VehicleState, d: Detection, frame: int, now: real)
    ensures Erase(Observe(s, d, frame, now)) == Erase(Observe(Erase(s), d, frame, now))
  {
    hide NextSpeed;
    SpeedErase(s, d, now - s.lastSeen);
  }

  lemma SpeedErase(s: VehicleState, d: Detection, dt: real)
    ensures NextSpeed(s, d, dt) == NextSpeed(Erase(s), d, dt)
  {
  }

  lemma ObserveLife(s: VehicleState, tid: int, trail: seq<Sighting>, d: Detection, frame: int, now: real)
    requires trail != [] && Erase(s) == Erase(Life(tid, trail))
    ensures Erase(Observe(s, d, frame, now)) == Erase(Life(tid, trail + [Sighting(d, frame, now)]))
  {
    hide Observe, Erase;
    var longer := trail + [Sighting(d, frame, now)];
    assert longer[..|longer| - 1] == trail;
    ObserveErase(s, d, frame, now);
    ObserveErase(Life(tid, trail), d, frame, now);
  }

  lemma StoreFollows(m: Memory, i: nat, s: VehicleState, tid: int, trail: seq<Sighting>)
    requires Sound(m) && i == Find(m.states, tid) && s.trackId == tid && trail != []
             && Erase(s) == Erase(Life(tid, trail))
    ensures Follows(Store(m, i, s).states, tid, trail)
  {
    hide Find, Erase, Life;
    var states := Store(m, i, s).states;
    assert states[i].trackId == tid;
  }

  lemma FeedFollows(m: Memory, d: Detection, frame: int, now: real, tid: int, trail: seq<Sighting>)
    requires Sound(m) && Follows(m.states, tid, trail)
    ensures Follows(Feed(m, d, frame, now).states, tid, trail + SightingIn(d, tid, frame, now))
  {
    hide Observe, Erase, Created, Sound;
    var i := if d.trackId.Some? then Find(m.states, d.trackId.value) else 0;
    if d.trackId != Some(tid) || d.predicted {
      assert trail + SightingIn(d, tid, frame, now) == trail;
      OthersFollow(m, d, frame, now, tid, trail);
    } else if i < |m.states| {
      ObserveLife(m.states[i], tid, trail, d, frame, now);
      ObserveTouches(m.states[i], d, frame, now);
      StoreFollows(m, i, Observe(m.states[i], d, frame, now), tid, trail + [Sighting(d, frame, now)]);
    } else {
      assert tid !in Ids(m.states);
      assert trail + [Sighting(d, frame, now)] == [Sighting(d, frame, now)];
      CreatedLife(tid, d, frame, now);
      StoreFollows(m, i, Created(tid, d, frame, now), tid, [Sighting(d, frame, now)]);
    }
  }

  lemma CreatedLife(tid: int, d: Detection, frame: int, now: real)
    ensures Life(tid, [Sighting(d, frame, now)]) == Created(tid, d, frame, now)
            && Created(tid, d, frame, now).trackId == tid
  {
  }

  /** A prediction, or a detection of some other track, does not touch this one. */
  lemma OthersFollow(m: Memory, d: Detection, frame: int, now: real, tid: int, trail: seq<Sighting>)
    requires Follows(m.states, tid, trail) && (d.trackId != Some(tid) || d.predicted)
    ensures Follows(Feed(m, d, frame, now).states, tid, trail)
  {
    hide Observe, Life, Created;
    if d.trackId.Some? {
      var i, states := Find(m.states, d.trackId.value), Feed(m, d, frame, now).states;
      if i < |m.states| {
        ObserveTouches(m.states[i], d, frame, now);
        assert Erase(Project(m.states[i], frame)) == Erase(m.states[i]);
      } else {
        CreatedLife(d.trackId.value, d, frame, now);
      }
      assert forall j | 0 <= j < |m.states| :: states[j].trackId == m.states[j].trackId;
      if tid !in Ids(states) {
        assert forall j | 0 <= j < |m.states| :: states[j].trackId in Ids(states);
      }
    }
  }

  lemma {:induction false} FeedAllFollows(m: Memory, ds: seq<Detection>, frame: int, now: real, tid: int,
                                          trail: seq<Sighting>)
    requires Sound(m) && Follows(m.states, tid, trail)
    ensures Follows(FeedAll(m, ds, frame, now).states, tid, trail + SightingsIn(ds, tid, frame, now))
    decreases |ds|
  {
    hide Feed, Sound, Follows, SightingIn;
    if ds == [] {
      assert trail + [] == trail;
    } else {
      var first, others := SightingIn(ds[0], tid, frame, now), SightingsIn(ds[1..], tid, frame, now);
      FeedFollows(m, ds[0], frame, now, tid, trail);
      FeedSound(m, ds[0], frame, now);
      FeedAllFollows(Feed(m, ds[0], frame, now), ds[1..], frame, now, tid, trail + first);
      assert (trail + first) + others == trail + (first + others);
    }
  }

  lemma {:induction false} PurgeOrigin(states: seq<VehicleState>, seen: set<int>, now: real, tid: int)
    ensures forall i | 0 <= i < |Purge(states, seen, now)| && Purge(states, seen, now)[i].trackId == tid ::
      exists j ::
        0 <= j < |states| && states[j].trackId == tid && Erase(states[j]) == Erase(Purge(states, seen, now)[i])
    decreases |states|
  {
    hide Erase;
    if states != [] {
      var init, last := states[..|states| - 1], states[|states| - 1];
      PurgeOrigin(init, seen, now, tid);
      EraseAlive(last);
      var purged := Purge(states, seen, now);
      forall i | 0 <= i < |purged| && purged[i].trackId == tid
        ensures exists j :: 0 <= j < |states| && states[j].trackId == tid && Erase(states[j]) == Erase(purged[i])
      {
        if i < |Purge(init, seen, now)| {
          var j :| 0 <= j < |init| && init[j].trackId == tid && Erase(init[j]) == Erase(purged[i]);
          assert states[j] == init[j];
        } else {
          assert states[|states| - 1] == last && Erase(last) == Erase(purged[i]);
        }
      }
    }
  }

  lemma EraseAlive(s: VehicleState)
    ensures Erase(s.(isAlive := false)) == Erase(s)
  {
  }

  /** Every state kept is the life of its own observations since it was created, and of nothing else. */
  lemma {:induction false} StateIsLife(us: seq<Update>, tid: int)
    ensures Follows(Run(us).states, tid, Trail(us, tid))
  {
    hide Sound, Erase, Life, FeedAll, Purge, Seen, SightingsIn;
    if us != [] {
      var rest, u := us[..|us| - 1], us[|us| - 1];
      var fed := FeedAll(Run(rest), u.detections, u.frame, u.now);
      StateIsLife(rest, tid);
      RunIsSound(rest);
      FeedAllFollows(Run(rest), u.detections, u.frame, u.now, tid, Trail(rest, tid));
      PurgeOrigin(fed.states, Seen(u.detections), u.now, tid);
      var states := Run(us).states;
      forall i | 0 <= i < |states| && states[i].trackId == tid
        ensures Trail(us, tid) != [] && Erase(states[i]) == Erase(Life(tid, Trail(us, tid)))
      {
        assert states[i].trackId in Ids(states);
        var j :| 0 <= j < |fed.states| && fed.states[j].trackId == tid && Erase(fed.states[j]) == Erase(states[i]);
      }
    }
  }

  // ----- time in the lane, and what it takes to be queued ---------------------------------------------

  ghost predicate Timed(trail: seq<Sighting>) {
    forall i, j | 0 <= i < j < |trail| :: trail[i].now <= trail[j].now
  }

  /** The observation with which the vehicle entered the lane it is in. */
  function Entry(trail: seq<Sighting>): (e: nat)
    requires trail != []
    ensures e < |trail|
  {
    var n := |trail| - 1;
    if n > 0 && LaneName(trail[n].d) == LaneName(trail[n - 1].d) then Entry(trail[..n]) else n
  }

  lemma {:induction false} LifeFacts(tid: int, trail: seq<Sighting>)
    requires trail != [] && Timed(trail)
    ensures var s, e, last := Life(tid, trail), Entry(trail), trail[|trail| - 1];
      && s.lane == LaneName(last.d) == LaneName(trail[e].d) && s.lastSeen == last.now && s.seenFrames == |trail|
      && s.timeInLane == last.now - trail[e].now
      && s.slowFrames <= |trail| - e && (e == 0 ==> s.slowFrames < |trail|)
      && s.isQueued == (s.slowFrames >= CONSECUTIVE_QUEUE_FRAMES)
  {
    hide NextSpeed;
    if |trail| > 1 {
      LifeFacts(tid, trail[..|trail| - 1]);
    }
  }

  /**
   Whether the latest observation found the vehicle slow: less than fifteen pixels a second since the one before, or, if
   no time had passed, whatever that one found. A track begins at rest.
   */
  predicate SightedSlow(trail: seq<Sighting>)
    requires trail != []
  {
    var n := |trail| - 1;
    if n == 0 then true
    else
      var dx, dy := trail[n].d.cx - trail[n - 1].d.cx, trail[n].d.cy - trail[n - 1].d.cy;
      var dt := trail[n].now - trail[n - 1].now;
      if dt > 0.0 then (dx * dx + dy * dy) as real < SLOW_SPEED_SQUARED * (dt * dt) else SightedSlow(trail[..n])
  }

  lemma QuotientBelow(q: real, d: real, bound: real)
    requires d > 0.0
    ensures q / d < bound <==> q < bound * d
  {
    var r := q / d;
    assert q == r * d;
    if r < bound {
      assert (bound - r) * d > 0.0;
    } else {
      assert (r - bound) * d >= 0.0;
    }
  }

  lemma ProductIsPositive(x: real, y: real)
    requires x > 0.0 && y > 0.0
    ensures x * y > 0.0
  {}

  lemma QuotientBelowProduct(q: real, x: real, y: real, bound: real)
    requires x > 0.0 && y > 0.0
    ensures q / (x * y) < bound <==> q < bound * (x * y)
  {
    ProductIsPositive(x, y);
    QuotientBelow(q, x * y, bound);
  }

  lemma SlowExactly(dx: int, dy: int, dt: real)
    requires dt > 0.0
    ensures SpeedSquared(dx, dy, dt) < SLOW_SPEED_SQUARED
            <==> (dx * dx + dy * dy) as real < SLOW_SPEED_SQUARED * (dt * dt)
  {
    QuotientBelowProduct((dx * dx + dy * dy) as real, dt, dt, SLOW_SPEED_SQUARED);
  }

  lemma LifeIsAt(tid: int, trail: seq<Sighting>)
    requires trail != []
    ensures var s, o := Life(tid, trail), trail[|trail| - 1];
      s.cx == o.d.cx && s.cy == o.d.cy && s.lastSeen == o.now && s.lane == LaneName(o.d)
  {
    hide NextSpeed;
  }

  /** Class and priority are those of the observation that created the track. */
  lemma {:induction false} LifeKeeps(tid: int, trail: seq<Sighting>)
    requires trail != []
    ensures var s, first := Life(tid, trail), trail[0];
      && s.className == first.d.className && s.isPriority == first.d.isPriority && s.trackId == tid
      && s.firstSeen == first.now && s.seenFrames == |trail|
  {
    hide NextSpeed;
    if |trail| > 1 {
      LifeKeeps(tid, trail[..|trail| - 1]);
    }
  }

  /** The speed a state holds is slow exactly when its latest observation found it so. */
  lemma {:induction false} SlowIsSighted(tid: int, trail: seq<Sighting>)
    requires trail != []
    ensures Life(tid, trail).speedSquared < SLOW_SPEED_SQUARED <==> SightedSlow(trail)
  {
    hide Observe, SpeedSquared;
    var n := |trail| - 1;
    if n > 0 {
      var before, o := trail[..n], trail[n];
      SlowIsSighted(tid, before);
      LifeIsAt(tid, before);
      SpeedOf(Life(tid, before), o.d, o.frame, o.now);
      if o.now > trail[n - 1].now {
        SlowExactly(o.d.cx - trail[n - 1].d.cx, o.d.cy - trail[n - 1].d.cy, o.now - trail[n - 1].now);
      }
    }
  }

  lemma SpeedOf(s: VehicleState, d: Detection, frame: int, now: real)
    ensures Observe(s, d, frame, now).speedSquared == NextSpeed(s, d, now - s.lastSeen)
  {
    hide NextSpeed;
  }

  function Pace(trail: seq<Sighting>): int
    requires trail != []
  {
    if SightedSlow(trail) then 1 else -1
  }

  /** Slow observations less fast ones, from place `j` on. */
  function Net(trail: seq<Sighting>, j: nat): int {
    if j >= |trail| then 0 else Net(trail[..|trail| - 1], j) + Pace(trail)
  }

  /** The first observation whose pace counts in the present lane: the one that created the track has none. */
  function FirstPaced(trail: seq<Sighting>): nat
    requires trail != []
  {
    if Entry(trail) == 0 then 1 else Entry(trail)
  }

  ghost predicate BestNet(trail: seq<Sighting>, best: nat)
    requires trail != []
  {
    && (forall j | FirstPaced(trail) <= j < |trail| :: Net(trail, j) <= best)
    && (best > 0 ==> exists j :: FirstPaced(trail) <= j < |trail| && Net(trail, j) == best)
  }

  lemma BestNetGrows(tid: int, trail: seq<Sighting>, best: nat)
    requires |trail| > 1 && FirstPaced(trail) < |trail|
    requires FirstPaced(trail) < |trail| - 1 ==> BestNet(trail[..|trail| - 1], best)
                                                 && FirstPaced(trail) == FirstPaced(trail[..|trail| - 1])
    requires FirstPaced(trail) == |trail| - 1 ==> best == 0
    ensures BestNet(trail, Slow(best, Life(tid, trail).speedSquared))
  {
    hide Life, FirstPaced, SightedSlow;
    var n := |trail| - 1;
    SlowIsSighted(tid, trail);
    var next := Slow(best, Life(tid, trail).speedSquared);
    assert Net(trail, n) == Pace(trail);
    forall j | FirstPaced(trail) <= j < |trail| ensures Net(trail, j) <= next {
      if j < n {
        assert Net(trail[..n], j) <= best;
      }
    }
    if next > 0 {
      if best > 0 && next == best + Pace(trail) {
        var j :| FirstPaced(trail) <= j < n && Net(trail[..n], j) == best;
        assert Net(trail, j) == next;
      } else {
        assert Net(trail, n) == next;
      }
    }
  }

  /** The slow count is the best that slow observations have done against fast ones in any stretch of this lane. */
  lemma {:induction false} SlowCountIsBestNet(tid: int, trail: seq<Sighting>)
    requires trail != []
    ensures BestNet(trail, Life(tid, trail).slowFrames) && Life(tid, trail).lane == LaneName(trail[|trail| - 1].d)
  {
    hide BestNet, NextSpeed;
    if |trail| == 1 {
      NoNet(trail);
    } else {
      var init := trail[..|trail| - 1];
      SlowCountIsBestNet(tid, init);
      var switched := Life(tid, init).lane != LaneName(trail[|trail| - 1].d);
      BestNetGrows(tid, trail, if switched || |trail| == 2 then 0 else Life(tid, init).slowFrames);
    }
  }

  lemma NoNet(trail: seq<Sighting>)
    requires |trail| == 1
    ensures BestNet(trail, 0)
  {
  }

  ghost predicate Clocked(us: seq<Update>) {
    forall i, j | 0 <= i < j < |us| :: us[i].now <= us[j].now
  }

  lemma {:induction false} SightingsTimed(ds: seq<Detection>, tid: int, frame: int, now: real)
    ensures forall i | 0 <= i < |SightingsIn(ds, tid, frame, now)| :: SightingsIn(ds, tid, frame, now)[i].now == now
  {
    if ds != [] {
      SightingsTimed(ds[1..], tid, frame, now);
    }
  }

  lemma {:induction false} TrailTimed(us: seq<Update>, tid: int)
    requires Clocked(us)
    ensures Timed(Trail(us, tid))
    ensures us != [] ==> forall i | 0 <= i < |Trail(us, tid)| :: Trail(us, tid)[i].now <= us[|us| - 1].now
  {
    hide Run, SightingsIn, Ids;
    if us != [] {
      var u := us[|us| - 1];
      TrailTimed(us[..|us| - 1], tid);
      SightingsTimed(u.detections, tid, u.frame, u.now);
    }
  }

  lemma ErasedFigures(s: VehicleState, t: VehicleState)
    requires Erase(s) == Erase(t)
    ensures s.lane == t.lane && s.lastSeen == t.lastSeen && s.seenFrames == t.seenFrames && s.timeInLane == t.timeInLane
    ensures s.isQueued == t.isQueued && s.slowFrames == t.slowFrames && s.queueTime == t.queueTime
    ensures s.className == t.className && s.isPriority == t.isPriority
  {
    assert Erase(s).lane == s.lane && Erase(t).lane == t.lane && Erase(s).lastSeen == s.lastSeen
           && Erase(t).lastSeen == t.lastSeen;
    assert Erase(s).seenFrames == s.seenFrames && Erase(t).seenFrames == t.seenFrames;
    assert Erase(s).timeInLane == s.timeInLane && Erase(t).timeInLane == t.timeInLane;
    assert Erase(s).queueTime == s.queueTime && Erase(t).queueTime == t.queueTime;
    assert Erase(s).className == s.className && Erase(t).className == t.className;
    assert Erase(s).isPriority == s.isPriority && Erase(t).isPriority == t.isPriority;
    assert Erase(s).isQueued == s.isQueued && Erase(t).isQueued == t.isQueued;
    assert Erase(s).slowFrames == s.slowFrames && Erase(t).slowFrames == t.slowFrames;
  }

  /**
   * On frames in time order a vehicle's time in its lane runs from the observation that entered the lane to the latest
   * one, and it is queued only with at least ten observations in that lane.
   */
  lemma DwellAndQueue(us: seq<Update>, i: nat)
    requires Clocked(us) && i < |Run(us).states|
    ensures var s := Run(us).states[i]; var trail := Trail(us, s.trackId);
      && trail != [] && |trail| == s.seenFrames
      && s.timeInLane == s.lastSeen - trail[Entry(trail)].now
      && (s.isQueued ==> |trail| - Entry(trail) >= CONSECUTIVE_QUEUE_FRAMES)
  {
    hide Run, Trail, Erase, Life, Entry, Timed;
    var s := Run(us).states[i];
    var trail := Trail(us, s.trackId);
    StateIsLife(us, s.trackId);
    assert trail != [] && Erase(s) == Erase(Life(s.trackId, trail));
    TrailTimed(us, s.trackId);
    LifeFacts(s.trackId, trail);
    ErasedFigures(s, Life(s.trackId, trail));
  }

  /** Some stretch of the observations in the present lane, up to now, with ten more slow ones than fast ones. */
  ghost predicate SlowStretch(trail: seq<Sighting>)
    requires trail != []
  {
    exists j :: FirstPaced(trail) <= j < |trail| && Net(trail, j) >= CONSECUTIVE_QUEUE_FRAMES
  }

  lemma SlowStretchQueues(tid: int, trail: seq<Sighting>)
    requires trail != []
    ensures Life(tid, trail).isQueued <==> SlowStretch(trail)
  {
    hide FirstPaced, Life;
    SlowCountIsBestNet(tid, trail);
    LifeIsConsistent(tid, trail);
  }

  /** A vehicle is queued exactly when there is such a stretch in its own trail. */
  lemma QueuedExactly(us: seq<Update>, i: nat)
    requires i < |Run(us).states|
    ensures var s := Run(us).states[i]; var trail := Trail(us, s.trackId);
      trail != [] && (s.isQueued <==> SlowStretch(trail))
  {
    hide Run, Trail, Erase, Life, SlowStretch;
    var s := Run(us).states[i];
    var trail := Trail(us, s.trackId);
    StateIsLife(us, s.trackId);
    assert trail != [] && Erase(s) == Erase(Life(s.trackId, trail));
    SlowStretchQueues(s.trackId, trail);
    ErasedFigures(s, Life(s.trackId, trail));
  }

  /** The time that passed up to each observation in the present lane that found the vehicle queued. */
  ghost function QueuedFor(trail: seq<Sighting>): real
    requires trail != []
  {
    var n := |trail| - 1;
    if Entry(trail) == n then 0.0
    else QueuedFor(trail[..n]) + if SlowStretch(trail) then trail[n].now - trail[n - 1].now else 0.0
  }

  lemma ObserveQueueTime(s: VehicleState, d: Detection, frame: int, now: real)
    requires now >= s.lastSeen
    ensures var t := Observe(s, d, frame, now);
      t.queueTime == (if s.lane != LaneName(d) then 0.0 else s.queueTime + if t.isQueued then now - s.lastSeen else 0.0)
  {
    hide NextSpeed;
  }

  lemma {:induction false} LifeQueueTime(tid: int, trail: seq<Sighting>)
    requires trail != [] && Timed(trail)
    ensures Life(tid, trail).queueTime == QueuedFor(trail)
  {
    hide Observe, SlowStretch;
    var n := |trail| - 1;
    if n > 0 {
      LifeFacts(tid, trail[..n]);
      LifeQueueTime(tid, trail[..n]);
      ObserveQueueTime(Life(tid, trail[..n]), trail[n].d, trail[n].frame, trail[n].now);
      SlowStretchQueues(tid, trail);
    }
  }

  /** On frames in time order, queue time is exactly the time spent so. */
  lemma QueueTimeExactly(us: seq<Update>, i: nat)
    requires Clocked(us) && i < |Run(us).states|
    ensures var s := Run(us).states[i]; var trail := Trail(us, s.trackId);
      trail != [] && s.queueTime == QueuedFor(trail)
  {
    hide Run, Trail, Erase, Life, Timed, QueuedFor;
    var s := Run(us).states[i];
    var trail := Trail(us, s.trackId);
    StateIsLife(us, s.trackId);
    assert trail != [] && Erase(s) == Erase(Life(s.trackId, trail));
    TrailTimed(us, s.trackId);
    LifeQueueTime(s.trackId, trail);
    ErasedFigures(s, Life(s.trackId, trail));
  }

  lemma {:induction false} LifeIsConsistent(tid: int, trail: seq<Sighting>)
    requires trail != []
    ensures Consistent(Life(tid, trail))
  {
    hide Observe, Consistent;
    var o := trail[|trail| - 1];
    if |trail| == 1 {
      CreatedKeeps(tid, o.d, o.frame, o.now);
    } else {
      LifeIsConsistent(tid, trail[..|trail| - 1]);
      ObserveKeeps(Life(tid, trail[..|trail| - 1]), o.d, o.frame, o.now);
    }
  }

  // ----- how long a track is kept --------------------------------------------------------------------

  /** The latest update that observed the track, or -1. */
  function LastUpdate(us: seq<Update>, tid: int): (i: int)
    ensures -1 <= i < |us|
  {
    var n := |us| - 1;
    if us == [] then -1 else if tid in Seen(us[n].detections) then n else LastUpdate(us[..n], tid)
  }

  ghost predicate LeftAt(states: seq<VehicleState>, tid: int, at: real) {
    forall i | 0 <= i < |states| && states[i].trackId == tid :: states[i].lastSeen == at
  }

  lemma FeedOthers(m: Memory, d: Detection, frame: int, now: real, tid: int, at: real)
    requires LeftAt(m.states, tid, at) && tid !in Seen([d])
    ensures LeftAt(Feed(m, d, frame, now).states, tid, at)
    ensures tid in Ids(Feed(m, d, frame, now).states) <==> tid in Ids(m.states)
  {
    hide Observe, Created, Project;
    if d.trackId.Some? {
      var i, states := Find(m.states, d.trackId.value), Feed(m, d, frame, now).states;
      if d.predicted {
        if i < |m.states| {
          ProjectFacts(m.states[i], frame);
        }
      } else if i < |m.states| {
        ObserveTouches(m.states[i], d, frame, now);
      } else {
        CreatedLife(d.trackId.value, d, frame, now);
      }
      assert forall j | 0 <= j < |m.states| :: states[j].trackId == m.states[j].trackId;
      SameIds(m.states, states, tid);
    }
  }

  lemma ProjectFacts(s: VehicleState, frame: int)
    ensures Project(s, frame).trackId == s.trackId && Project(s, frame).lastSeen == s.lastSeen
  {}

  lemma SameIds(a: seq<VehicleState>, b: seq<VehicleState>, tid: int)
    requires |a| <= |b| && forall j | 0 <= j < |a| :: b[j].trackId == a[j].trackId
    requires forall j | |a| <= j < |b| :: b[j].trackId != tid
    ensures tid in Ids(a) <==> tid in Ids(b)
  {
    if tid in Ids(a) {
      var j :| 0 <= j < |a| && a[j].trackId == tid;
      assert b[j].trackId in Ids(b);
    }
  }

  lemma FeedIds(m: Memory, d: Detection, frame: int, now: real, tid: int)
    requires tid in Ids(m.states) || tid in Seen([d])
    ensures tid in Ids(Feed(m, d, frame, now).states)
  {
    hide Observe, Created, Project;
    var states := Feed(m, d, frame, now).states;
    if d.trackId.Some? {
      var i := Find(m.states, d.trackId.value);
      if i < |m.states| {
        ProjectFacts(m.states[i], frame);
        ObserveTouches(m.states[i], d, frame, now);
      } else {
        CreatedLife(d.trackId.value, d, frame, now);
      }
      assert forall j | 0 <= j < |m.states| :: states[j].trackId == m.states[j].trackId;
      if tid in Ids(m.states) {
        var j :| 0 <= j < |m.states| && m.states[j].trackId == tid;
        assert states[j].trackId in Ids(states);
      } else {
        assert states[i].trackId in Ids(states);
      }
    }
  }

  lemma {:induction false} FeedAllOthers(m: Memory, ds: seq<Detection>, frame: int, now: real, tid: int, at: real)
    requires LeftAt(m.states, tid, at) && tid !in Seen(ds)
    ensures LeftAt(FeedAll(m, ds, frame, now).states, tid, at)
    ensures tid in Ids(FeedAll(m, ds, frame, now).states) <==> tid in Ids(m.states)
    decreases |ds|
  {
    hide Feed, LeftAt, Ids;
    if ds != [] {
      FeedOthers(m, ds[0], frame, now, tid, at);
      FeedAllOthers(Feed(m, ds[0], frame, now), ds[1..], frame, now, tid, at);
    }
  }

  lemma {:induction false} FeedAllIds(m: Memory, ds: seq<Detection>, frame: int, now: real, tid: int)
    requires tid in Ids(m.states) || tid in Seen(ds)
    ensures tid in Ids(FeedAll(m, ds, frame, now).states)
    decreases |ds|
  {
    hide Feed, Ids;
    if ds != [] {
      if tid in Ids(m.states) || tid in Seen([ds[0]]) {
        FeedIds(m, ds[0], frame, now, tid);
      }
      FeedAllIds(Feed(m, ds[0], frame, now), ds[1..], frame, now, tid);
    }
  }

  lemma KeptFacts(s: VehicleState, seen: set<int>, now: real)
    ensures Kept(s, seen, now) != [] <==> s.trackId in seen || now - s.lastSeen <= TRACK_REMOVAL_GRACE_SEC
    ensures |Kept(s, seen, now)| <= 1
    ensures Kept(s, seen, now) != [] ==>
      Kept(s, seen, now)[0].trackId == s.trackId && Kept(s, seen, now)[0].lastSeen == s.lastSeen
  {}

  lemma {:induction false} PurgeKeepsRecent(states: seq<VehicleState>, seen: set<int>, now: real, tid: int, at: real)
    requires LeftAt(states, tid, at)
    ensures LeftAt(Purge(states, seen, now), tid, at)
    ensures tid in Ids(Purge(states, seen, now))
            <==> tid in Ids(states) && (tid in seen || now - at <= TRACK_REMOVAL_GRACE_SEC)
    decreases |states|
  {
    hide Kept;
    if states != [] {
      var init, last := states[..|states| - 1], states[|states| - 1];
      PurgeKeepsRecent(init, seen, now, tid, at);
      KeptFacts(last, seen, now);
      IdsConcat(init, [last]);
      assert init + [last] == states;
      IdsConcat(Purge(init, seen, now), Kept(last, seen, now));
      IdsOfOne(last);
      if Kept(last, seen, now) != [] {
        IdsOfOne(Kept(last, seen, now)[0]);
        assert Kept(last, seen, now) == [Kept(last, seen, now)[0]];
      }
    }
  }

  lemma IdsConcat(a: seq<VehicleState>, b: seq<VehicleState>)
    ensures Ids(a + b) == Ids(a) + Ids(b)
  {
    forall tid | tid in Ids(a) + Ids(b) ensures tid in Ids(a + b) {
      if tid in Ids(a) {
        var i :| 0 <= i < |a| && a[i].trackId == tid;
        assert (a + b)[i].trackId == tid;
      } else {
        var i :| 0 <= i < |b| && b[i].trackId == tid;
        assert (a + b)[|a| + i].trackId == tid;
      }
    }
  }

  lemma IdsOfOne(s: VehicleState)
    ensures Ids([s]) == {s.trackId}
  {
    assert [s][0].trackId in Ids([s]);
  }

  lemma NextRetains(m: Memory, u: Update, tid: int, at: real)
    requires Sound(m) && LeftAt(m.states, tid, at)
    ensures var states := Next(m, u).states; var seen := Seen(u.detections);
      && LeftAt(states, tid, if tid in seen then u.now else at)
      && (tid in Ids(states)
          <==> tid in seen || (tid in Ids(m.states) && u.now - at <= TRACK_REMOVAL_GRACE_SEC))
  {
    hide Sound, FeedAll, Purge, Ids;
    var seen, fed := Seen(u.detections), FeedAll(m, u.detections, u.frame, u.now);
    if tid in seen {
      FeedAllIds(m, u.detections, u.frame, u.now, tid);
      FeedAllKeeps(m, u.detections, u.frame, u.now, {});
      assert {} + seen == seen;
      PurgeKeepsRecent(fed.states, seen, u.now, tid, u.now);
    } else {
      FeedAllOthers(m, u.detections, u.frame, u.now, tid, at);
      PurgeKeepsRecent(fed.states, seen, u.now, tid, at);
    }
  }

  lemma {:induction false} RetainedSince(us: seq<Update>, tid: int)
    requires us != [] && Clocked(us)
    ensures var l := LastUpdate(us, tid);
      && (l >= 0 ==> LeftAt(Run(us).states, tid, us[l].now))
      && (tid in Ids(Run(us).states) <==> l >= 0 && us[|us| - 1].now - us[l].now <= TRACK_REMOVAL_GRACE_SEC)
  {
    hide Next, Sound, Ids, LeftAt, Seen;
    var n := |us| - 1;
    var l := LastUpdate(us[..n], tid);
    var before := Run(us[..n]);
    RunIsSound(us[..n]);
    if n == 0 {
      NobodyYet(tid);
      NextRetains(before, us[n], tid, 0.0);
    } else {
      RetainedSince(us[..n], tid);
      if l < 0 {
        AbsentLeftAt(before.states, tid, 0.0);
      }
      NextRetains(before, us[n], tid, if l < 0 then 0.0 else us[l].now);
    }
  }

  lemma AbsentLeftAt(states: seq<VehicleState>, tid: int, at: real)
    requires tid !in Ids(states)
    ensures LeftAt(states, tid, at)
  {
    forall i | 0 <= i < |states| ensures states[i].trackId != tid {
      assert states[i].trackId in Ids(states);
    }
  }

  lemma NobodyYet(tid: int)
    ensures tid !in Ids(Run([]).states) && LeftAt(Run([]).states, tid, 0.0)
  {}

  /** On frames in time order a track is held exactly through the grace period after its latest observation. */
  lemma RetainedExactly(us: seq<Update>, tid: int)
    requires us != [] && Clocked(us)
    ensures tid in Ids(Run(us).states)
            <==> exists i :: 0 <= i < |us| && tid in Seen(us[i].detections)
                             && us[|us| - 1].now - us[i].now <= TRACK_REMOVAL_GRACE_SEC
  {
    hide Run, Ids, Seen;
    RetainedSince(us, tid);
    LastUpdateIsLast(us, tid);
  }

  lemma {:induction false} LastUpdateIsLast(us: seq<Update>, tid: int)
    ensures var l := LastUpdate(us, tid);
      && (l >= 0 ==> tid in Seen(us[l].detections))
      && forall i | l < i < |us| :: tid !in Seen(us[i].detections)
  {
    hide Seen;
    if us != [] {
      LastUpdateIsLast(us[..|us| - 1], tid);
    }
  }

  // ----- who is counted -------------------------------------------------------------------------------

  lemma NextHolds(m: Memory, u: Update, tid: int)
    requires Sound(m) && tid in Seen(u.detections)
    ensures tid in Ids(Next(m, u).states)
  {
    hide Next, Consistent, Recorded, Seen;
    if tid in Ids(m.states) {
      var j :| 0 <= j < |m.states| && m.states[j].trackId == tid;
      NextRetains(m, u, tid, m.states[j].lastSeen);
    } else {
      AbsentLeftAt(m.states, tid, 0.0);
      NextRetains(m, u, tid, 0.0);
    }
  }

  /** Some vehicle in the list is this track. */
  ghost predicate Has(vs: seq<VehicleState>, tid: int) {
    exists i :: 0 <= i < |vs| && vs[i].trackId == tid
  }

  lemma GroupHas(states: seq<VehicleState>, lane: string, tid: int)
    ensures Has(Group(states, lane), tid) <==> exists i ::
              0 <= i < |states| && states[i].trackId == tid && Counts(lane)(states[i])
  {
    var vs := Group(states, lane);
    FilterFacts(states, Counts(lane));
    if Has(vs, tid) {
      var i :| 0 <= i < |vs| && vs[i].trackId == tid;
      assert vs[i] in vs;
      var j :| 0 <= j < |states| && states[j] == vs[i];
    }
    if i :| 0 <= i < |states| && states[i].trackId == tid && Counts(lane)(states[i]) {
      assert states[i] in vs;
      var j :| 0 <= j < |vs| && vs[j] == states[i];
    }
  }

  /** Observed in the latest frame, there in this lane, and at least twice since the track was created. */
  ghost predicate Live(us: seq<Update>, tid: int, lane: string)
    requires us != []
  {
    && tid in Seen(us[|us| - 1].detections)
    && var trail := Trail(us, tid); |trail| >= MIN_CONFIRMATION_FRAMES && LaneName(trail[|trail| - 1].d) == lane
  }

  lemma CountsExactly(us: seq<Update>, i: nat, lane: string)
    requires us != [] && i < |Run(us).states|
    ensures Counts(lane)(Run(us).states[i]) <==> Live(us, Run(us).states[i].trackId, lane)
  {
    hide Run, Trail, Erase, Life, Seen;
    var s := Run(us).states[i];
    var trail := Trail(us, s.trackId);
    VehicleInvariant(us, i);
    StateIsLife(us, s.trackId);
    assert trail != [] && Erase(s) == Erase(Life(s.trackId, trail));
    LifeKeeps(s.trackId, trail);
    LifeIsAt(s.trackId, trail);
    ErasedFigures(s, Life(s.trackId, trail));
  }

  /** After every run the vehicles counted for a lane are exactly those. */
  lemma LiveExactly(us: seq<Update>, tid: int, lane: string)
    requires us != []
    ensures Has(Group(Run(us).states, lane), tid) <==> Live(us, tid, lane)
  {
    hide Trail, Sound, Group, Seen, Next, Counts, Live;
    var n := |us| - 1;
    var states := Run(us).states;
    GroupHas(states, lane, tid);
    forall i | 0 <= i < |states| ensures Counts(lane)(states[i]) <==> Live(us, states[i].trackId, lane) {
      CountsExactly(us, i, lane);
    }
    if Live(us, tid, lane) {
      LiveIsSeen(us, tid, lane);
      RunIsSound(us[..n]);
      NextHolds(Run(us[..n]), us[n], tid);
    }
  }

  lemma LiveIsSeen(us: seq<Update>, tid: int, lane: string)
    requires us != [] && Live(us, tid, lane)
    ensures tid in Seen(us[|us| - 1].detections)
  {}

  /** In this frame the track is observed in the lane while its state is already there. */
  ghost predicate SeenAgain(m: Memory, ds: seq<Detection>, frame: int, now: real, tid: int, lane: string)
    decreases |ds|
  {
    && ds != []
    && (AgainAt(m, ds[0], tid, lane) || SeenAgain(Feed(m, ds[0], frame, now), ds[1..], frame, now, tid, lane))
  }

  ghost predicate AgainAt(m: Memory, d: Detection, tid: int, lane: string) {
    d.trackId == Some(tid) && !d.predicted && LaneName(d) == lane && tid in Ids(m.states)
  }

  lemma ObserveConfirms(s: VehicleState, d: Detection, frame: int, now: real)
    requires Consistent(s)
    ensures Observe(s, d, frame, now).isConfirmed
  {
    hide NextSpeed;
  }

  lemma FeedHistory(m: Memory, d: Detection, frame: int, now: real, tid: int, lane: string)
    requires Sound(m)
    ensures tid in HistoryOf(Feed(m, d, frame, now).history, lane)
            <==> tid in HistoryOf(m.history, lane) || AgainAt(m, d, tid, lane)
  {
    hide Observe, Consistent, Recorded;
    if d.trackId.Some? && !d.predicted {
      var i := Find(m.states, d.trackId.value);
      if i < |m.states| {
        ObserveConfirms(m.states[i], d, frame, now);
        ObserveTouches(m.states[i], d, frame, now);
        assert m.states[i].trackId in Ids(m.states);
      } else {
        assert d.trackId.value !in Ids(m.states);
      }
    }
  }

  lemma {:induction false} FeedAllHistory(m: Memory, ds: seq<Detection>, frame: int, now: real, tid: int, lane: string)
    requires Sound(m)
    ensures tid in HistoryOf(FeedAll(m, ds, frame, now).history, lane)
            <==> tid in HistoryOf(m.history, lane) || SeenAgain(m, ds, frame, now, tid, lane)
    decreases |ds|
  {
    hide Feed, Sound, AgainAt, HistoryOf;
    if ds != [] {
      FeedHistory(m, ds[0], frame, now, tid, lane);
      FeedSound(m, ds[0], frame, now);
      FeedAllHistory(Feed(m, ds[0], frame, now), ds[1..], frame, now, tid, lane);
    }
  }

  ghost predicate EverSeenAgain(us: seq<Update>, tid: int, lane: string) {
    exists k :: 0 <= k < |us| && SeenAgain(Run(us[..k]), us[k].detections, us[k].frame, us[k].now, tid, lane)
  }

  lemma SeenAgainGrows(us: seq<Update>, tid: int, lane: string)
    requires us != []
    ensures var n := |us| - 1; var u := us[n];
      EverSeenAgain(us, tid, lane)
      <==> EverSeenAgain(us[..n], tid, lane) || SeenAgain(Run(us[..n]), u.detections, u.frame, u.now, tid, lane)
  {
    hide Run, SeenAgain;
    var n := |us| - 1;
    assert forall k | 0 <= k < n :: us[..n][..k] == us[..k];
    if EverSeenAgain(us[..n], tid, lane) {
      var k :| 0 <= k < n && SeenAgain(Run(us[..n][..k]), us[..n][k].detections, us[..n][k].frame, us[..n][k].now, tid,
                                       lane);
      assert SeenAgain(Run(us[..k]), us[k].detections, us[k].frame, us[k].now, tid, lane);
    }
  }

  /** A lane's history holds exactly the tracks that were ever observed in it while already known. */
  lemma {:induction false} HistoryExactly(us: seq<Update>, tid: int, lane: string)
    ensures tid in HistoryOf(Run(us).history, lane) <==> EverSeenAgain(us, tid, lane)
  {
    hide FeedAll, Sound, HistoryOf, SeenAgain, EverSeenAgain, Purge;
    if us == [] {
      NoHistory(tid, lane);
    } else {
      var n := |us| - 1;
      HistoryExactly(us[..n], tid, lane);
      RunIsSound(us[..n]);
      FeedAllHistory(Run(us[..n]), us[n].detections, us[n].frame, us[n].now, tid, lane);
      SeenAgainGrows(us, tid, lane);
    }
  }

  lemma NoHistory(tid: int, lane: string)
    ensures tid !in HistoryOf(Run([]).history, lane) && !EverSeenAgain([], tid, lane)
  {}
}
