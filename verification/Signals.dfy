/** Value types shared by the decision layer. */
module Signals {

  datatype Option<+T> = None | Some(value: T)

  /** The four approaches, or any other label a caller passes where a lane name is expected. */
  datatype Lane = North | East | South | West | Unlisted(name: string)

  const FOUR_LANES: set<Lane> := {North, East, South, West}

  datatype Breakdown = Breakdown(
    pce: real, queue: real, congestion: real, fairnessBonus: real,
    rawPce: real, rawQueueSec: real, rawCongestion: real)

  datatype PriorityScore = PriorityScore(lane: Lane, score: real, rank: nat, breakdown: Breakdown)

  datatype PriorityResult = PriorityResult(scores: seq<PriorityScore>, highest: Option<PriorityScore>)

  /** The analytics of one approach that the decision layer reads. */
  datatype LaneStats = LaneStats(
    rawCount: int, pce: real, queueSec: real, congestion: real, hasPriority: bool)

  /** A dictionary with exactly one entry per approach. */
  datatype PerLane<T> = PerLane(north: T, east: T, south: T, west: T) {
    function Get(lane: Lane): T {
      if lane == North then north else if lane == East then east else if lane == South then south else west
    }

    function Put(lane: Lane, value: T): PerLane<T>
      requires lane in FOUR_LANES
    {
      if lane == North then this.(north := value) else if lane == East then this.(east := value)
      else if lane == South then this.(south := value) else this.(west := value)
    }
  }

  function Same<T>(value: T): PerLane<T> {
    PerLane(value, value, value, value)
  }

  function ScoreOf(s: PriorityScore): real { s.score }

  /** Ranks 1..n in list order, everything else kept. */
  function Ranked(xs: seq<PriorityScore>): (r: seq<PriorityScore>)
    ensures |r| == |xs|
    ensures forall i | 0 <= i < |xs| :: r[i] == xs[i].(rank := i + 1)
  {
    seq(|xs|, i requires 0 <= i < |xs| => xs[i].(rank := i + 1))
  }

  /** The loop `for rank_idx, s in enumerate(scores, start=1): s.rank = rank_idx`. */
  method AssignRanks(xs: seq<PriorityScore>) returns (r: seq<PriorityScore>)
    ensures r == Ranked(xs)
  {
    r := xs;
    var i := 0;
    while i < |r|
      invariant 0 <= i <= |r| == |xs|
      invariant forall j | 0 <= j < i :: r[j] == xs[j].(rank := j + 1)
      invariant forall j | i <= j < |xs| :: r[j] == xs[j]
    {
      r := r[i := r[i].(rank := i + 1)];
      i := i + 1;
    }
  }
}
