/**
 The clockwise scheduler: demand decides how long a green lasts, the cursor decides whose turn it
 is, and an emergency may jump the queue.
 */
module Scheduling {
  import opened Rounding
  import opened Signals
  import opened StableSort

  /** Clockwise service order. */
  const CYCLE: seq<Lane> := [North, East, South, West]

  type Cursor = c: nat | c < 4

  const FULL_GREEN_PCE := 20.0
  const FULL_GREEN_QUEUE_SEC := 120.0

  /** What one call of select_eligible is given. */
  datatype Call = Call(scores: seq<PriorityScore>, stats: map<Lane, LaneStats>, freshLanes: set<Lane>)

  predicate HasDemand(c: Call, lane: Lane) {
    lane in c.freshLanes && lane in c.stats && c.stats[lane].rawCount > 0
  }

  function DemandTest(c: Call): PriorityScore -> bool {
    (s: PriorityScore) => HasDemand(c, s.lane)
  }

  function EmergencyTest(c: Call): PriorityScore -> bool {
    (s: PriorityScore) => HasDemand(c, s.lane) && c.stats[s.lane].hasPriority
  }

  function LaneTest(lane: Lane): PriorityScore -> bool {
    (s: PriorityScore) => s.lane == lane
  }

  predicate SeesEmergency(c: Call) {
    exists s :: s in c.scores && EmergencyTest(c)(s)
  }

  function LaneAt(i: Cursor): Lane {
    if i == 0 then North else if i == 1 then East else if i == 2 then South else West
  }

  function Position(lane: Lane): (i: Cursor)
    requires lane in FOUR_LANES
    ensures LaneAt(i) == lane
  {
    if lane == North then 0 else if lane == East then 1 else if lane == South then 2 else 3
  }

  function Turn(cursor: Cursor, steps: nat): Cursor
    requires steps < 4
  {
    if cursor + steps < 4 then cursor + steps else cursor + steps - 4
  }

  function Advance(cursor: Cursor, lane: Lane): Cursor {
    if lane in FOUR_LANES then Turn(Position(lane), 1) else cursor
  }

  /** Clockwise steps from the cursor to a lane. */
  function Distance(cursor: Cursor, lane: Lane): (d: nat)
    requires lane in FOUR_LANES
    ensures d < 4 && LaneAt(Turn(cursor, d)) == lane
  {
    if Position(lane) >= cursor then Position(lane) - cursor else Position(lane) + 4 - cursor
  }

  /** The score the demand dictionary holds for a lane: the last one listed. */
  function Candidates(c: Call, lane: Lane): seq<PriorityScore> {
    Filter(Filter(c.scores, DemandTest(c)), LaneTest(lane))
  }

  function Scan(cursor: Cursor, c: Call, offset: nat): Option<PriorityScore>
    requires offset <= 4
    decreases 4 - offset
  {
    if offset == 4 then None
    else
      var found := Candidates(c, LaneAt(Turn(cursor, offset)));
      if found != [] then Some(found[|found| - 1]) else Scan(cursor, c, offset + 1)
  }

  /** Whom select_eligible picks. */
  function Choose(cursor: Cursor, c: Call): Option<PriorityScore> {
    var emergency := Filter(c.scores, EmergencyTest(c));
    if emergency != [] then Some(FirstBest(emergency, ScoreOf)) else Scan(cursor, c, 0)
  }

  function NextCursor(cursor: Cursor, c: Call): Cursor {
    var chosen := Choose(cursor, c);
    if chosen.Some? then Advance(cursor, chosen.value.lane) else cursor
  }

  datatype Reason = Normal | Emergency

  datatype SignalDecision = SignalDecision(
    phaseId: nat, greenLane: Lane, greenSec: int, yellowSec: int, redLanes: seq<Lane>,
    priorityScore: real, reason: Reason)

  function PositivePart(x: real): real { if x > 0.0 then x else 0.0 }

  function AtMostOne(x: real): real { if x < 1.0 then x else 1.0 }

  function PositiveSum(xs: seq<PriorityScore>): (r: real)
    ensures r >= 0.0
  {
    if xs == [] then 0.0 else PositivePart(xs[0].score) + PositiveSum(xs[1..])
  }

  predicate HasLoad(b: Breakdown) { b.rawPce > 0.0 || b.rawQueueSec > 0.0 }

  function DemandRatio(winner: PriorityScore, scores: seq<PriorityScore>): real {
    if HasLoad(winner.breakdown) then
      0.75 * AtMostOne(PositivePart(winner.breakdown.rawPce) / FULL_GREEN_PCE)
      + 0.25 * AtMostOne(PositivePart(winner.breakdown.rawQueueSec) / FULL_GREEN_QUEUE_SEC)
    else
      var total := PositiveSum(scores);
      if total != 0.0 then PositivePart(winner.score) / total else 0.0
  }

  function Blend(low: real, width: real, ratio: real): real {
    low + ratio * width
  }

  function Scaled(minSec: int, maxSec: int, ratio: real): int {
    RoundHalfEven(Blend(minSec as real, (maxSec - minSec) as real, ratio))
  }

  /** The rounded duration before it is clamped. */
  function UnclampedGreen(minSec: int, maxSec: int, winner: PriorityScore, scores: seq<PriorityScore>): int {
    Scaled(minSec, maxSec, DemandRatio(winner, scores))
  }

  function GreenTime(minSec: int, maxSec: int, winner: PriorityScore, scores: seq<PriorityScore>): int {
    if winner.score <= 0.0 then minSec
    else
      var calculated := UnclampedGreen(minSec, maxSec, winner, scores);
      var upper := if calculated < maxSec then calculated else maxSec;
      if upper > minSec then upper else minSec
  }

  /** The green time as a function of the winner and the ranking. */
  function GreenWith(minSec: int, maxSec: int): (PriorityScore, seq<PriorityScore>) -> int {
    (winner: PriorityScore, scores: seq<PriorityScore>) => GreenTime(minSec, maxSec, winner, scores)
  }

  /** The lanes of a ranking in order, one lane left out. */
  function LanesBut(xs: seq<PriorityScore>, lane: Lane): (lanes: seq<Lane>)
    ensures lane !in lanes && |lanes| <= |xs|
  {
    if xs == [] then [] else (if xs[0].lane != lane then [xs[0].lane] else []) + LanesBut(xs[1..], lane)
  }

  function OtherThan(lane: Lane): PriorityScore -> bool {
    (s: PriorityScore) => s.lane != lane
  }

  function LanesIn(xs: seq<PriorityScore>): seq<Lane> {
    seq(|xs|, i requires 0 <= i < |xs| => xs[i].lane)
  }

  lemma LanesInMore(x: PriorityScore, xs: seq<PriorityScore>)
    ensures LanesIn([x] + xs) == [x.lane] + LanesIn(xs)
  {}

  /** Those are the lanes of all its other entries, in their order. */
  lemma {:induction false} RedLanes(xs: seq<PriorityScore>, lane: Lane)
    ensures LanesBut(xs, lane) == LanesIn(Filter(xs, OtherThan(lane)))
  {
    hide LanesIn;
    if xs == [] {
      NoLanesIn();
    } else {
      RedLanes(xs[1..], lane);
      LanesInMore(xs[0], Filter(xs[1..], OtherThan(lane)));
    }
  }

  lemma NoLanesIn()
    ensures LanesIn([]) == []
  {}

  lemma RedOneMore(xs: seq<PriorityScore>, i: nat, lane: Lane, red: seq<Lane>)
    requires i < |xs|
    ensures red + LanesBut(xs[i..], lane)
            == (if xs[i].lane != lane then red + [xs[i].lane] else red) + LanesBut(xs[i + 1..], lane)
  {
    assert xs[i..][1..] == xs[i + 1..];
  }

  class SignalScheduler {
    var minGreenSec: int
    var maxGreenSec: int
    const yellowSec: int
    var nextCycleIndex: Cursor

    constructor (minGreenSec: int, maxGreenSec: int, yellowSec: int)
      ensures this.minGreenSec == minGreenSec && this.maxGreenSec == maxGreenSec && this.yellowSec == yellowSec
      ensures nextCycleIndex == 0
    {
      this.minGreenSec := minGreenSec;
      this.maxGreenSec := maxGreenSec;
      this.yellowSec := yellowSec;
      nextCycleIndex := 0;
    }

    method AdvanceAfter(lane: Lane)
      modifies this`nextCycleIndex
      ensures nextCycleIndex == Advance(old(nextCycleIndex), lane)
    {
      var index := 0;
      while index < |CYCLE|
        invariant 0 <= index <= 4 && nextCycleIndex == old(nextCycleIndex)
        invariant forall i: Cursor | i < index :: LaneAt(i) != lane
      {
        assert CYCLE[index] == LaneAt(index);
        if CYCLE[index] == lane {
          nextCycleIndex := (index + 1) % |CYCLE|;
          return;
        }
        index := index + 1;
      }
    }

    /** None, or the same result with its highest_priority replaced by the chosen score. */
    method SelectEligible(result: PriorityResult, stats: map<Lane, LaneStats>, freshLanes: set<Lane>)
        returns (r: Option<PriorityResult>)
      modifies this`nextCycleIndex
      ensures var c := Call(result.scores, stats, freshLanes);
        var chosen := Choose(old(nextCycleIndex), c);
        && r == (if chosen.Some? then Some(result.(highest := chosen)) else None)
        && nextCycleIndex == NextCursor(old(nextCycleIndex), c)
    {
      ghost var c := Call(result.scores, stats, freshLanes);
      var demand := Filter(result.scores, DemandTest(Call(result.scores, stats, freshLanes)));
      var emergency := Filter(demand, EmergencyTest(Call(result.scores, stats, freshLanes)));
      FilterFilter(result.scores, DemandTest(c), EmergencyTest(c));
      if emergency != [] {
        var winner := FirstBest(emergency, ScoreOf);
        assert Choose(nextCycleIndex, c) == Some(winner);
        AdvanceAfter(winner.lane);
        return Some(result.(highest := Some(winner)));
      }
      assert Choose(nextCycleIndex, c) == Scan(nextCycleIndex, c, 0);
      var offset := 0;
      while offset < |CYCLE|
        invariant 0 <= offset <= 4 && nextCycleIndex == old(nextCycleIndex)
        invariant Choose(nextCycleIndex, c) == Scan(nextCycleIndex, c, offset)
      {
        CycleTurn(nextCycleIndex, offset);
        var found := Filter(demand, LaneTest(CYCLE[(nextCycleIndex + offset) % |CYCLE|]));
        assert found == Candidates(c, LaneAt(Turn(nextCycleIndex, offset)));
        if found != [] {
          var winner := found[|found| - 1];
          AdvanceAfter(winner.lane);
          return Some(result.(highest := Some(winner)));
        }
        offset := offset + 1;
      }
      r := None;
    }

    /** None stands for the ValueError raised on a result without scores. */
    method Schedule(result: PriorityResult, phaseId: nat) returns (r: Option<SignalDecision>)
      ensures result.scores == [] <==> r == None
      ensures r.Some? ==>
        var winner := if result.highest.Some? then result.highest.value else result.scores[0];
        var d := r.value;
        && d.phaseId == phaseId && d.greenLane == winner.lane && d.priorityScore == winner.score
        && d.greenSec == GreenTime(minGreenSec, maxGreenSec, winner, result.scores)
        && d.yellowSec == yellowSec && d.reason == Normal
        && d.redLanes == LanesBut(result.scores, winner.lane)
    {
      hide GreenTime;
      if result.scores == [] {
        return None;
      }
      var winner := if result.highest.Some? then result.highest.value else result.scores[0];
      var green := GreenTime(minGreenSec, maxGreenSec, winner, result.scores);
      var red: seq<Lane> := [];
      var i := 0;
      while i < |result.scores|
        invariant 0 <= i <= |result.scores|
        invariant red + LanesBut(result.scores[i..], winner.lane) == LanesBut(result.scores, winner.lane)
      {
        RedOneMore(result.scores, i, winner.lane, red);
        if result.scores[i].lane != winner.lane {
          red := red + [result.scores[i].lane];
        }
        i := i + 1;
      }
      r := Some(SignalDecision(phaseId, winner.lane, green, yellowSec, red, winner.score, Normal));
    }
  }

  lemma CycleTurn(cursor: Cursor, offset: nat)
    requires offset < 4
    ensures CYCLE[(cursor + offset) % |CYCLE|] == LaneAt(Turn(cursor, offset))
  {}

  lemma {:induction false} FilterFilter<T(!new)>(xs: seq<T>, p: T -> bool, q: T -> bool)
    requires forall x | x in xs :: q(x) ==> p(x)
    ensures Filter(Filter(xs, p), q) == Filter(xs, q)
  {
    if xs != [] {
      FilterFilter(xs[1..], p, q);
      var f := Filter(xs[1..], p);
      assert ([xs[0]] + f)[1..] == f;
    }
  }

  // ----- who is served ---------------------------------------------------------------------------

  predicate Wants(c: Call, lane: Lane) {
    HasDemand(c, lane) && exists s :: s in c.scores && s.lane == lane
  }

  /** Without an emergency the choice is the nearest clockwise lane with demand. */
  ghost predicate IsNearest(cursor: Cursor, c: Call, r: Option<PriorityScore>, from: nat) {
    match r
    case None => forall l | l in FOUR_LANES && Wants(c, l) :: Distance(cursor, l) < from
    case Some(s) =>
      && s in c.scores && s.lane in FOUR_LANES && Wants(c, s.lane) && from <= Distance(cursor, s.lane)
      && forall l | l in FOUR_LANES && Wants(c, l) ::
        Distance(cursor, l) < from || Distance(cursor, s.lane) <= Distance(cursor, l)
  }

  lemma CandidateFacts(c: Call, lane: Lane)
    ensures Candidates(c, lane) == [] <==> !Wants(c, lane)
    ensures forall s | s in Candidates(c, lane) :: s in c.scores && s.lane == lane
  {
    var found := Candidates(c, lane);
    FilterFacts(c.scores, DemandTest(c));
    FilterFacts(Filter(c.scores, DemandTest(c)), LaneTest(lane));
    forall s | s in c.scores && s.lane == lane && HasDemand(c, lane) ensures s in found {
      assert DemandTest(c)(s) && LaneTest(lane)(s);
    }
    forall s | s in found ensures Wants(c, lane) {
      assert DemandTest(c)(s) && LaneTest(lane)(s);
    }
    if found != [] {
      assert found[0] in found;
    }
  }

  lemma {:induction false} ScanFindsNearest(cursor: Cursor, c: Call, offset: nat)
    requires offset <= 4
    ensures IsNearest(cursor, c, Scan(cursor, c, offset), offset)
    decreases 4 - offset
  {
    if offset < 4 {
      var lane := LaneAt(Turn(cursor, offset));
      CandidateFacts(c, lane);
      var found := Candidates(c, lane);
      assert forall l | l in FOUR_LANES && Distance(cursor, l) == offset :: l == lane;
      if found == [] {
        ScanFindsNearest(cursor, c, offset + 1);
      } else {
        assert found[|found| - 1] in found;
      }
    }
  }

  lemma EmergencyFilter(c: Call)
    ensures SeesEmergency(c) <==> Filter(c.scores, EmergencyTest(c)) != []
  {
    var f := Filter(c.scores, EmergencyTest(c));
    FilterFacts(c.scores, EmergencyTest(c));
    if f != [] {
      assert f[0] in f;
    }
  }

  /** Entry `i` is an emergency, and no other one has a larger score, or as large a score earlier in the list. */
  ghost predicate IsFirstEmergency(c: Call, i: nat) {
    && i < |c.scores| && EmergencyTest(c)(c.scores[i])
    && (forall j | 0 <= j < i && EmergencyTest(c)(c.scores[j]) :: c.scores[j].score < c.scores[i].score)
    && forall j | i < j < |c.scores| && EmergencyTest(c)(c.scores[j]) :: c.scores[j].score <= c.scores[i].score
  }

  /** With an emergency in view the choice is the first emergency lane with the highest score. */
  lemma EmergencyWins(cursor: Cursor, c: Call) returns (i: nat)
    requires SeesEmergency(c)
    ensures IsFirstEmergency(c, i) && Choose(cursor, c) == Some(c.scores[i])
    ensures c.scores[i] in c.scores && EmergencyTest(c)(Choose(cursor, c).value)
  {
    EmergencyFilter(c);
    i := FilterFirstBest(c.scores, EmergencyTest(c), ScoreOf);
    forall j | 0 <= j < |c.scores| && j != i && EmergencyTest(c)(c.scores[j])
      ensures if j < i then c.scores[j].score < c.scores[i].score else c.scores[j].score <= c.scores[i].score
    {
      assert ScoreOf(c.scores[j]) == c.scores[j].score && ScoreOf(c.scores[i]) == c.scores[i].score;
    }
  }

  lemma ChosenIsListed(cursor: Cursor, c: Call)
    ensures Choose(cursor, c).Some? ==> Choose(cursor, c).value in c.scores
  {
    EmergencyFilter(c);
    if SeesEmergency(c) {
      var _ := EmergencyWins(cursor, c);
    } else {
      ScanFindsNearest(cursor, c, 0);
    }
  }

  /** A lane with demand is chosen or comes strictly closer to the cursor. */
  lemma NormalProgress(cursor: Cursor, c: Call, lane: Lane)
    requires lane in FOUR_LANES && Wants(c, lane) && !SeesEmergency(c)
    ensures var chosen := Choose(cursor, c);
      && chosen.Some? && chosen.value.lane in FOUR_LANES
      && Distance(cursor, chosen.value.lane) <= Distance(cursor, lane)
      && (chosen.value.lane != lane ==>
            Distance(NextCursor(cursor, c), lane) == Distance(cursor, lane) - Distance(cursor, chosen.value.lane) - 1)
  {
    EmergencyFilter(c);
    ScanFindsNearest(cursor, c, 0);
    var chosen := Choose(cursor, c);
  }

  lemma EmergencyProgress(cursor: Cursor, c: Call, lane: Lane)
    requires lane in FOUR_LANES && SeesEmergency(c)
    ensures var chosen := Choose(cursor, c);
      && chosen.Some?
      && (chosen.value.lane != lane ==>
            Distance(NextCursor(cursor, c), lane) <= (if chosen.value.lane in FOUR_LANES then 2
                                                      else Distance(cursor, lane)))
  {
    var _ := EmergencyWins(cursor, c);
  }

  /** The lanes chosen over a run of calls. */
  function Winners(cursor: Cursor, calls: seq<Call>): (r: seq<Option<Lane>>)
    ensures |r| == |calls|
    decreases calls
  {
    if calls == [] then []
    else
      var chosen := Choose(cursor, calls[0]);
      [if chosen.Some? then Some(chosen.value.lane) else None]
      + Winners(NextCursor(cursor, calls[0]), calls[1..])
  }

  lemma ChosenHasDemand(cursor: Cursor, c: Call)
    requires c.stats.Keys == FOUR_LANES
    ensures Choose(cursor, c).Some? ==>
      Choose(cursor, c).value.lane in FOUR_LANES && HasDemand(c, Choose(cursor, c).value.lane)
  {
    EmergencyFilter(c);
    if SeesEmergency(c) {
      var _ := EmergencyWins(cursor, c);
    } else {
      ScanFindsNearest(cursor, c, 0);
    }
  }

  /** Without an emergency the score chosen is the last one listed for its lane. */
  lemma ChosenIsLast(cursor: Cursor, c: Call)
    requires !SeesEmergency(c) && Choose(cursor, c).Some?
    ensures var s := Choose(cursor, c).value;
      exists i :: 0 <= i < |c.scores| && c.scores[i] == s && forall j | i < j < |c.scores| :: c.scores[j].lane != s.lane
  {
    hide Filter;
    EmergencyFilter(c);
    ScanFindsNearest(cursor, c, 0);
    var s := Choose(cursor, c).value;
    CandidatesAre(c, s.lane);
    ScanIsCandidate(cursor, c, 0);
    LastOfLane(c.scores, s.lane);
  }

  lemma {:induction false} ScanIsCandidate(cursor: Cursor, c: Call, offset: nat)
    requires offset <= 4
    ensures var r := Scan(cursor, c, offset);
      r.Some? ==> var found := Candidates(c, r.value.lane); found != [] && r.value == found[|found| - 1]
    decreases 4 - offset
  {
    if offset < 4 {
      CandidateFacts(c, LaneAt(Turn(cursor, offset)));
      var found := Candidates(c, LaneAt(Turn(cursor, offset)));
      if found == [] {
        ScanIsCandidate(cursor, c, offset + 1);
      } else {
        assert found[|found| - 1] in found;
      }
    }
  }

  /** A lane with demand has all its scores among the candidates. */
  lemma CandidatesAre(c: Call, lane: Lane)
    requires HasDemand(c, lane)
    ensures Candidates(c, lane) == Filter(c.scores, LaneTest(lane))
  {
    FilterFilter(c.scores, DemandTest(c), LaneTest(lane));
  }

  lemma {:induction false} LastOfLane(xs: seq<PriorityScore>, lane: Lane)
    ensures var found := Filter(xs, LaneTest(lane));
      found != [] ==> exists i :: 0 <= i < |xs| && xs[i] == found[|found| - 1] && forall j | i < j < |xs| ::
        xs[j].lane != lane
  {
    if xs != [] {
      var init, last := xs[..|xs| - 1], xs[|xs| - 1];
      LastOfLane(init, lane);
      assert init + [last] == xs;
      FilterConcat(init, [last], LaneTest(lane));
      if last.lane != lane && Filter(init, LaneTest(lane)) != [] {
        var found := Filter(init, LaneTest(lane));
        var i :| 0 <= i < |init| && init[i] == found[|found| - 1] && forall j | i < j < |init| :: init[j].lane != lane;
        assert xs[i] == init[i];
      } else if last.lane == lane {
        assert xs[|xs| - 1] == last;
      }
    }
  }

  lemma SomeWinner(winners: seq<Option<Lane>>, grants: seq<Lane>, lane: Lane)
    requires |winners| == |grants| && forall i | 0 <= i < |grants| :: winners[i] == Some(grants[i])
    requires Some(lane) in winners
    ensures lane in grants
  {
    var i :| 0 <= i < |winners| && winners[i] == Some(lane);
    assert grants[i] == lane;
  }

  lemma {:induction false} WinnersPrefix(cursor: Cursor, calls: seq<Call>, n: nat)
    requires n <= |calls|
    ensures Winners(cursor, calls[..n]) == Winners(cursor, calls)[..n]
    decreases n
  {
    hide Choose, NextCursor;
    if n > 0 {
      assert calls[..n][1..] == calls[1..][..n - 1] && calls[..n][0] == calls[0];
      WinnersPrefix(NextCursor(cursor, calls[0]), calls[1..], n - 1);
    }
  }

  function EmergencyCalls(calls: seq<Call>): nat {
    if calls == [] then 0
    else (if SeesEmergency(calls[0]) then 1 else 0) + EmergencyCalls(calls[1..])
  }

  ghost predicate AlwaysWants(calls: seq<Call>, lane: Lane) {
    forall i | 0 <= i < |calls| :: Wants(calls[i], lane)
  }

  lemma {:induction false} ServedWithin(cursor: Cursor, calls: seq<Call>, lane: Lane)
    requires lane in FOUR_LANES && AlwaysWants(calls, lane)
    requires |calls| > 3 * EmergencyCalls(calls) + Distance(cursor, lane)
    ensures Some(lane) in Winners(cursor, calls)
    decreases calls
  {
    if SeesEmergency(calls[0]) {
      EmergencyProgress(cursor, calls[0], lane);
    } else {
      NormalProgress(cursor, calls[0], lane);
    }
    if Choose(cursor, calls[0]).value.lane != lane {
      ServedWithin(NextCursor(cursor, calls[0]), calls[1..], lane);
    }
  }

  lemma {:induction false} EmergencyPrefix(calls: seq<Call>, n: nat)
    requires n <= |calls|
    ensures EmergencyCalls(calls[..n]) <= EmergencyCalls(calls)
  {
    if n > 0 {
      assert calls[..n][1..] == calls[1..][..n - 1];
      EmergencyPrefix(calls[1..], n - 1);
    }
  }

  /**
   Bounded service despite pre-emption: a lane that is fresh and occupied at every call is served
   within 3k + 4 calls when at most k of them see an emergency; with no emergency, within four.
   */
  lemma BoundedService(cursor: Cursor, calls: seq<Call>, lane: Lane, k: nat)
    requires lane in FOUR_LANES && AlwaysWants(calls, lane)
    requires EmergencyCalls(calls) <= k && |calls| >= 3 * k + 4
    ensures Some(lane) in Winners(cursor, calls[..3 * k + 4])
  {
    EmergencyPrefix(calls, 3 * k + 4);
    ServedWithin(cursor, calls[..3 * k + 4], lane);
  }

  ghost predicate NotServedUpTo(cursor: Cursor, calls: seq<Call>, lane: Lane, j: nat)
    requires j < |calls|
  {
    forall m | 0 <= m <= j :: Winners(cursor, calls)[m] != Some(lane)
  }

  lemma NotServedTail(cursor: Cursor, calls: seq<Call>, lane: Lane, j: nat)
    requires 0 < j < |calls| && NotServedUpTo(cursor, calls, lane, j)
    ensures NotServedUpTo(NextCursor(cursor, calls[0]), calls[1..], lane, j - 1)
  {
    var later := Winners(NextCursor(cursor, calls[0]), calls[1..]);
    forall m | 0 <= m <= j - 1 ensures later[m] != Some(lane) {
      assert later[m] == Winners(cursor, calls)[m + 1];
    }
  }

  lemma TurnPast(first: Lane, lane: Lane)
    requires first in FOUR_LANES && lane in FOUR_LANES && first != lane
    ensures Distance(Turn(Position(first), 1), lane) == Distance(Position(first), lane) - 1
  {}

  lemma TurnFacts(p: Cursor)
    ensures forall steps | 0 <= steps < 4 :: Position(LaneAt(Turn(p, steps))) == Turn(p, steps)
    ensures forall steps | 0 < steps < 4 :: LaneAt(Turn(p, steps)) != LaneAt(p)
    ensures Turn(Turn(p, 1), 1) == Turn(p, 2) && Turn(Turn(p, 2), 1) == Turn(p, 3) && Turn(Turn(p, 3), 1) == p
  {}

  /** Until a waiting lane is served, no choice lies clockwise beyond it. */
  lemma {:induction false} LaterIsCloser(cursor: Cursor, calls: seq<Call>, lane: Lane, j: nat)
    requires lane in FOUR_LANES && AlwaysWants(calls, lane) && j < |calls|
    requires EmergencyCalls(calls) == 0 && NotServedUpTo(cursor, calls, lane, j)
    ensures var w := Winners(cursor, calls)[j];
      w.Some? && w.value in FOUR_LANES && Distance(Position(w.value), lane) <= Distance(cursor, lane)
    decreases j
  {
    hide Choose, NextCursor, Wants, SeesEmergency;
    NormalProgress(cursor, calls[0], lane);
    assert Winners(cursor, calls)[0] != Some(lane);
    if j > 0 {
      NotServedTail(cursor, calls, lane, j);
      LaterIsCloser(NextCursor(cursor, calls[0]), calls[1..], lane, j - 1);
    }
  }

  lemma FirstTurnOnce(cursor: Cursor, calls: seq<Call>, lane: Lane, j: nat)
    requires lane in FOUR_LANES && AlwaysWants(calls, lane) && 0 < j < |calls|
    requires EmergencyCalls(calls) == 0 && NotServedUpTo(cursor, calls, lane, j)
    ensures Winners(cursor, calls)[0] != Winners(cursor, calls)[j]
  {
    hide Choose, Wants, SeesEmergency;
    var next := NextCursor(cursor, calls[0]);
    NotServedTail(cursor, calls, lane, j);
    NormalProgress(cursor, calls[0], lane);
    var first := Choose(cursor, calls[0]).value.lane;
    assert Winners(cursor, calls)[0] == Some(first);
    LaterIsCloser(next, calls[1..], lane, j - 1);
    TurnPast(first, lane);
    assert Winners(cursor, calls)[j] == Winners(next, calls[1..])[j - 1];
  }

  /** One turn each: without emergencies no lane is served twice while another occupied lane waits. */
  lemma {:induction false} NoSecondTurnFirst(cursor: Cursor, calls: seq<Call>, lane: Lane, i: nat, j: nat)
    requires lane in FOUR_LANES && AlwaysWants(calls, lane) && i < j < |calls|
    requires EmergencyCalls(calls) == 0 && NotServedUpTo(cursor, calls, lane, j)
    ensures Winners(cursor, calls)[i] != Winners(cursor, calls)[j]
    decreases i
  {
    hide Choose, NextCursor, Wants, SeesEmergency;
    if i == 0 {
      FirstTurnOnce(cursor, calls, lane, j);
    } else {
      var later := Winners(NextCursor(cursor, calls[0]), calls[1..]);
      NotServedTail(cursor, calls, lane, j);
      NoSecondTurnFirst(NextCursor(cursor, calls[0]), calls[1..], lane, i - 1, j - 1);
      assert Winners(cursor, calls)[i] == later[i - 1] && Winners(cursor, calls)[j] == later[j - 1];
    }
  }

  // ----- 3k + 4 is attained ----------------------------------------------------------------------

  const PLAIN := LaneStats(1, 0.0, 0.0, 0.0, false)

  function PlainScore(lane: Lane): PriorityScore {
    PriorityScore(lane, 0.0, 1, Breakdown(0.0, 0.0, 0.0, 0.0, 0.0, 0.0, 0.0))
  }

  /** All four lanes occupied; `urgent`, if any, holds an emergency vehicle. */
  function FullCall(urgent: Option<Lane>): Call {
    Call([PlainScore(North), PlainScore(East), PlainScore(South), PlainScore(West)],
         map l | l in FOUR_LANES :: PLAIN.(hasPriority := urgent == Some(l)), FOUR_LANES)
  }

  lemma FullCallWants(urgent: Option<Lane>, lane: Lane)
    requires lane in FOUR_LANES
    ensures Wants(FullCall(urgent), lane)
  {
    var c := FullCall(urgent);
    assert c.scores[0].lane == North && c.scores[1].lane == East && c.scores[2].lane == South
           && c.scores[3].lane == West;
    assert c.scores[Position(lane)] in c.scores && c.scores[Position(lane)].lane == lane;
  }

  lemma FullCallEmergency(urgent: Option<Lane>)
    requires urgent.Some? ==> urgent.value in FOUR_LANES
    ensures SeesEmergency(FullCall(urgent)) <==> urgent.Some?
  {
    var c := FullCall(urgent);
    if urgent.Some? {
      FullCallWants(urgent, urgent.value);
      var s :| s in c.scores && s.lane == urgent.value;
      assert EmergencyTest(c)(s);
    }
  }

  lemma FullCallFacts(cursor: Cursor, urgent: Option<Lane>)
    requires urgent.Some? ==> urgent.value in FOUR_LANES
    ensures forall l | l in FOUR_LANES :: Wants(FullCall(urgent), l)
    ensures SeesEmergency(FullCall(urgent)) <==> urgent.Some?
    ensures Choose(cursor, FullCall(urgent)).Some?
    ensures Choose(cursor, FullCall(urgent)).value.lane == if urgent.Some? then urgent.value else LaneAt(cursor)
  {
    hide Choose, Wants, SeesEmergency;
    var c := FullCall(urgent);
    forall l | l in FOUR_LANES ensures Wants(c, l) {
      FullCallWants(urgent, l);
    }
    FullCallEmergency(urgent);
    if urgent.Some? {
      var _ := EmergencyWins(cursor, c);
    } else {
      NormalProgress(cursor, c, LaneAt(cursor));
    }
  }

  /** What it takes for a run never to serve a lane that wants a turn throughout. */
  ghost predicate PassesOver(cursor: Cursor, calls: seq<Call>, lane: Lane, n: nat, k: nat) {
    && |calls| == n && EmergencyCalls(calls) == k
    && AlwaysWants(calls, lane) && Some(lane) !in Winners(cursor, calls)
  }

  lemma PrependCall(cursor: Cursor, urgent: Option<Lane>, rest: seq<Call>, lane: Lane, n: nat, k: nat)
    requires lane in FOUR_LANES && (urgent.Some? ==> urgent.value in FOUR_LANES)
    requires var won := if urgent.Some? then urgent.value else LaneAt(cursor);
      won != lane && PassesOver(Turn(Position(won), 1), rest, lane, n, k)
    ensures PassesOver(cursor, [FullCall(urgent)] + rest, lane, n + 1, k + if urgent.Some? then 1 else 0)
  {
    hide Choose, Wants, SeesEmergency, FullCall;
    FullCallFacts(cursor, urgent);
    var calls := [FullCall(urgent)] + rest;
    var won := if urgent.Some? then urgent.value else LaneAt(cursor);
    assert calls[1..] == rest && calls[0] == FullCall(urgent);
    assert NextCursor(cursor, calls[0]) == Turn(Position(won), 1);
    assert Winners(cursor, calls) == [Some(won)] + Winners(Turn(Position(won), 1), rest);
  }

  /** k emergencies, each just behind the lane and followed by the two lanes before it. */
  lemma {:induction false} WorstTail(lane: Lane, k: nat) returns (calls: seq<Call>)
    requires lane in FOUR_LANES
    ensures PassesOver(Position(lane), calls, lane, 3 * k, k)
  {
    calls := [];
    if k > 0 {
      calls := WorstTail(lane, k - 1);
      var p := Position(lane);
      TurnFacts(p);
      PrependCall(Turn(p, 3), None, calls, lane, 3 * k - 3, k - 1);
      calls := [FullCall(None)] + calls;
      PrependCall(Turn(p, 2), None, calls, lane, 3 * k - 2, k - 1);
      calls := [FullCall(None)] + calls;
      var behind := LaneAt(Turn(p, 1));
      PrependCall(p, Some(behind), calls, lane, 3 * k - 1, k - 1);
      calls := [FullCall(Some(behind))] + calls;
    }
  }

  /** Some run of 3k + 3 calls with k emergencies never serves an always-waiting lane. */
  lemma ServiceBoundAttained(lane: Lane, k: nat) returns (cursor: Cursor, calls: seq<Call>)
    requires lane in FOUR_LANES
    ensures PassesOver(cursor, calls, lane, 3 * k + 3, k)
  {
    calls := WorstTail(lane, k);
    var p := Position(lane);
    TurnFacts(p);
    PrependCall(Turn(p, 3), None, calls, lane, 3 * k, k);
    calls := [FullCall(None)] + calls;
    PrependCall(Turn(p, 2), None, calls, lane, 3 * k + 1, k);
    calls := [FullCall(None)] + calls;
    cursor := Turn(p, 1);
    PrependCall(cursor, None, calls, lane, 3 * k + 2, k);
    calls := [FullCall(None)] + calls;
  }

  // ----- how long a green lasts --------------------------------------------------------------------

  lemma RatioBounds(winner: PriorityScore, scores: seq<PriorityScore>)
    requires winner in scores
    ensures 0.0 <= DemandRatio(winner, scores) <= 1.0
  {
    if !HasLoad(winner.breakdown) {
      var total := PositiveSum(scores);
      PositiveSumBounds(scores, winner);
      if total != 0.0 {
        assert 0.0 <= PositivePart(winner.score) <= total;
        DivideBounds(PositivePart(winner.score), total);
      }
    }
  }

  lemma {:induction false} PositiveSumBounds(xs: seq<PriorityScore>, s: PriorityScore)
    requires s in xs
    ensures s.score <= PositiveSum(xs)
  {
    if s != xs[0] {
      PositiveSumBounds(xs[1..], s);
    }
  }

  lemma DivideBounds(x: real, y: real)
    requires 0.0 <= x <= y && y > 0.0
    ensures 0.0 <= x / y <= 1.0
  {}

  lemma BlendMonotone(low: real, width: real, r: real, r': real)
    requires width >= 0.0 && r <= r'
    ensures Blend(low, width, r) <= Blend(low, width, r')
  {
    assert (r' - r) * width >= 0.0;
  }

  lemma ScaledMonotone(minSec: int, maxSec: int, lower: real, higher: real)
    requires minSec <= maxSec && lower <= higher
    ensures Scaled(minSec, maxSec, lower) <= Scaled(minSec, maxSec, higher)
  {
    var low, width := minSec as real, (maxSec - minSec) as real;
    BlendMonotone(low, width, lower, higher);
    RoundMonotone(Blend(low, width, lower), Blend(low, width, higher));
  }

  lemma ScaledEnds(minSec: int, maxSec: int)
    ensures Scaled(minSec, maxSec, 0.0) == minSec && Scaled(minSec, maxSec, 1.0) == maxSec
  {
    var low, width := minSec as real, (maxSec - minSec) as real;
    assert Blend(low, width, 0.0) == low && Blend(low, width, 1.0) == maxSec as real;
    RoundInteger(minSec);
    RoundInteger(maxSec);
  }

  /** For min <= max rounding never leaves the bounds, so the clamp changes nothing. */
  lemma ClampIsRedundant(minSec: int, maxSec: int, winner: PriorityScore, scores: seq<PriorityScore>)
    requires minSec <= maxSec && winner in scores && winner.score > 0.0
    ensures GreenTime(minSec, maxSec, winner, scores) == UnclampedGreen(minSec, maxSec, winner, scores)
    ensures minSec <= GreenTime(minSec, maxSec, winner, scores) <= maxSec
  {
    RatioBounds(winner, scores);
    ScaledEnds(minSec, maxSec);
    ScaledMonotone(minSec, maxSec, 0.0, DemandRatio(winner, scores));
    ScaledMonotone(minSec, maxSec, DemandRatio(winner, scores), 1.0);
  }

  function Within(x: real, full: real): real {
    if x <= 0.0 then 0.0 else if x >= full then full else x
  }

  /**
   A measured load buys seconds: between min and max, a vehicle unit is worth 0.0375 of the range up to twenty of them,
   a queued second 1/480 of it up to 120, and the green is the nearest whole second.
   */
  lemma GreenOfLoad(minSec: int, maxSec: int, winner: PriorityScore, scores: seq<PriorityScore>)
    requires minSec <= maxSec && winner.score > 0.0 && winner in scores
    requires winner.breakdown.rawPce > 0.0 || winner.breakdown.rawQueueSec > 0.0
    ensures var b := winner.breakdown;
      var share := 0.0375 * Within(b.rawPce, 20.0) + Within(b.rawQueueSec, 120.0) / 480.0;
      -0.5 <= GreenTime(minSec, maxSec, winner, scores) as real - (minSec as real + share * (maxSec - minSec) as real)
           <= 0.5
  {
    ClampIsRedundant(minSec, maxSec, winner, scores);
    assert DemandRatio(winner, scores)
           == 0.0375 * Within(winner.breakdown.rawPce, 20.0) + Within(winner.breakdown.rawQueueSec, 120.0) / 480.0;
  }

  lemma {:induction false} PositiveSumAdds(xs: seq<PriorityScore>, ys: seq<PriorityScore>)
    ensures PositiveSum(xs + ys) == PositiveSum(xs) + PositiveSum(ys)
    ensures |ys| == 1 ==> PositiveSum(ys) == if ys[0].score > 0.0 then ys[0].score else 0.0
  {
    if xs == [] {
      assert xs + ys == ys;
    } else {
      PositiveSumAdds(xs[1..], ys);
      assert (xs + ys)[1..] == xs[1..] + ys;
    }
  }

  /** Without one the green is the lane's share of all positive scores; without a score it is the minimum. */
  lemma GreenOfScore(minSec: int, maxSec: int, winner: PriorityScore, scores: seq<PriorityScore>)
    requires minSec <= maxSec && winner in scores
    requires winner.breakdown.rawPce <= 0.0 && winner.breakdown.rawQueueSec <= 0.0
    ensures winner.score <= 0.0 ==> GreenTime(minSec, maxSec, winner, scores) == minSec
    ensures winner.score > 0.0 ==>
      && PositiveSum(scores) > 0.0 && var share := winner.score / PositiveSum(scores);
      -0.5 <= GreenTime(minSec, maxSec, winner, scores) as real - (minSec as real + share * (maxSec - minSec) as real)
           <= 0.5
  {
    PositiveSumBounds(scores, winner);
    if winner.score > 0.0 {
      ClampIsRedundant(minSec, maxSec, winner, scores);
    }
  }

  /** With max < min it is not: the answer is then always min, whatever the demand. */
  lemma CrossedBounds(minSec: int, maxSec: int, winner: PriorityScore, scores: seq<PriorityScore>)
    requires maxSec < minSec
    ensures GreenTime(minSec, maxSec, winner, scores) == minSec
  {}

  /** The bounds CONFIGURE accepts, 5 <= min <= max <= 120, hold of every scheduled green. */
  lemma ConfiguredGreen(minSec: int, maxSec: int, winner: PriorityScore, scores: seq<PriorityScore>)
    requires 5 <= minSec <= maxSec <= 120 && winner in scores
    ensures 5 <= GreenTime(minSec, maxSec, winner, scores) <= 120
  {
    if winner.score > 0.0 {
      ClampIsRedundant(minSec, maxSec, winner, scores);
    }
  }

  lemma RatioMonotone(lower: PriorityScore, higher: PriorityScore, scores: seq<PriorityScore>,
                      scores': seq<PriorityScore>)
    requires HasLoad(lower.breakdown)
    requires lower.breakdown.rawPce <= higher.breakdown.rawPce
             && lower.breakdown.rawQueueSec <= higher.breakdown.rawQueueSec
    ensures DemandRatio(lower, scores) <= DemandRatio(higher, scores')
  {
    RatioTerm(lower.breakdown.rawPce, higher.breakdown.rawPce, FULL_GREEN_PCE);
    RatioTerm(lower.breakdown.rawQueueSec, higher.breakdown.rawQueueSec, FULL_GREEN_QUEUE_SEC);
  }

  lemma RatioTerm(x: real, y: real, full: real)
    requires x <= y && full > 0.0
    ensures AtMostOne(PositivePart(x) / full) <= AtMostOne(PositivePart(y) / full)
  {
    assert PositivePart(x) / full <= PositivePart(y) / full;
  }

  /** More vehicles or a longer queue never shorten the green, once there is a measured load. */
  lemma GreenMonotone(minSec: int, maxSec: int, lower: PriorityScore, higher: PriorityScore,
                      scores: seq<PriorityScore>, scores': seq<PriorityScore>)
    requires minSec <= maxSec && lower.score > 0.0 && higher.score > 0.0 && HasLoad(lower.breakdown)
    requires lower.breakdown.rawPce <= higher.breakdown.rawPce
             && lower.breakdown.rawQueueSec <= higher.breakdown.rawQueueSec
    ensures GreenTime(minSec, maxSec, lower, scores) <= GreenTime(minSec, maxSec, higher, scores')
  {
    RatioMonotone(lower, higher, scores, scores');
    ScaledMonotone(minSec, maxSec, DemandRatio(lower, scores), DemandRatio(higher, scores'));
  }

  /** At least as much measured load. */
  predicate LoadAtLeast(lower: PriorityScore, higher: PriorityScore) {
    lower.breakdown.rawPce <= higher.breakdown.rawPce && lower.breakdown.rawQueueSec <= higher.breakdown.rawQueueSec
  }

  /** No load on top of this one shortens its green, whatever else is ranked before and after. */
  ghost predicate NeverShortened(minSec: int, maxSec: int, lower: PriorityScore) {
    forall scores, higher, scores' | lower in scores && LoadAtLeast(lower, higher) && higher.score > 0.0 ::
      GreenTime(minSec, maxSec, lower, scores) <= GreenTime(minSec, maxSec, higher, scores')
  }

  /** That holds of a green exactly when some load has been measured for it already. */
  lemma NeverShortenedExactly(minSec: int, maxSec: int, lower: PriorityScore)
    requires minSec < maxSec && lower.score > 0.0
    ensures NeverShortened(minSec, maxSec, lower) <==> HasLoad(lower.breakdown)
  {
    hide GreenTime;
    if HasLoad(lower.breakdown) {
      forall scores, higher, scores' | lower in scores && LoadAtLeast(lower, higher) && higher.score > 0.0
        ensures GreenTime(minSec, maxSec, lower, scores) <= GreenTime(minSec, maxSec, higher, scores')
      {
        GreenMonotone(minSec, maxSec, lower, higher, scores, scores');
      }
    } else {
      var higher := lower.(breakdown := lower.breakdown.(rawPce := 1.0 / (maxSec - minSec) as real));
      assert 1.0 / (maxSec - minSec) as real > 0.0;
      AloneOnScore(minSec, maxSec, lower);
      LightLoad(minSec, maxSec, higher, [higher]);
      assert lower in [lower] && LoadAtLeast(lower, higher);
    }
  }

  /** Known by its score only and alone, a lane gets the maximum. */
  lemma AloneOnScore(minSec: int, maxSec: int, s: PriorityScore)
    requires minSec <= maxSec && s.score > 0.0 && !HasLoad(s.breakdown)
    ensures GreenTime(minSec, maxSec, s, [s]) == maxSec
  {
    assert PositiveSum([s]) == s.score;
    WholeOfItself(s.score);
    assert DemandRatio(s, [s]) == 1.0;
    ScaledEnds(minSec, maxSec);
  }

  lemma WholeOfItself(x: real)
    requires x > 0.0
    ensures x / x == 1.0
  {
  }

  /** A load small enough earns the minimum. */
  lemma LightLoad(minSec: int, maxSec: int, s: PriorityScore, scores: seq<PriorityScore>)
    requires minSec < maxSec && s.breakdown.rawQueueSec <= 0.0
    requires s.breakdown.rawPce == 1.0 / (maxSec - minSec) as real > 0.0
    ensures GreenTime(minSec, maxSec, s, scores) == minSec
  {
    var width := (maxSec - minSec) as real;
    var ratio := DemandRatio(s, scores);
    assert s.breakdown.rawPce <= 1.0;
    assert ratio == 0.75 * (s.breakdown.rawPce / FULL_GREEN_PCE) == 0.0375 * s.breakdown.rawPce;
    assert s.breakdown.rawPce * width == 1.0;
    assert ratio * width == 0.0375;
    RoundIsUnique(Blend(minSec as real, width, ratio), minSec);
  }

  /** For instance: a lone lane known only by its score gets the maximum, and a first vehicle cuts that. */
  lemma FirstVehicleShortensGreen(idle: PriorityScore, seen: PriorityScore)
    requires idle == PlainScore(North).(score := 1.0)
    requires seen == idle.(breakdown := idle.breakdown.(rawPce := 1.0))
    ensures GreenTime(10, 60, idle, [idle]) == 60 && GreenTime(10, 60, seen, [seen]) == 12
  {
    assert PositiveSum([idle]) == 1.0;
    assert DemandRatio(idle, [idle]) == 1.0;
    assert DemandRatio(seen, [seen]) == 0.0375;
    RoundInteger(60);
    RoundIsUnique(11.875, 12);
  }

  /** A full load always earns the maximum. */
  lemma FullLoad(minSec: int, maxSec: int, winner: PriorityScore, scores: seq<PriorityScore>)
    requires minSec <= maxSec && winner.score > 0.0
    requires winner.breakdown.rawPce >= FULL_GREEN_PCE && winner.breakdown.rawQueueSec >= FULL_GREEN_QUEUE_SEC
    ensures GreenTime(minSec, maxSec, winner, scores) == maxSec
  {
    assert DemandRatio(winner, scores) == 1.0 by {
      FullRatio(winner.breakdown.rawPce, FULL_GREEN_PCE);
      FullRatio(winner.breakdown.rawQueueSec, FULL_GREEN_QUEUE_SEC);
    }
    ScaledEnds(minSec, maxSec);
  }

  lemma FullRatio(x: real, full: real)
    requires x >= full > 0.0
    ensures AtMostOne(PositivePart(x) / full) == 1.0
  {}
}
