/** The detector's time gate, read by the coordinator and again by the pipeline, and the chunked batch between them. */
module FrameBatching {
  import opened Signals

  /** A decoded frame of one approach with the server's receive time. */
  datatype Frame<I> = Frame(direction: string, ts: real, image: I)

  /** What the detector found in a frame, and the number and time it was stamped with. */
  datatype Detection<D> = Detection(found: D, number: nat, ts: real)

  datatype Outcome<D> = Skipped | Predicted | Observed(detection: Detection<D>)

  // ----- the gate --------------------------------------------------------------------------------

  predicate Due(last: Option<real>, ts: real, fps: real)
    requires fps > 0.0
  {
    last.None? || ts < last.value || ts - last.value >= 1.0 / fps
  }

  /** The pipeline reads a time stamp of zero as a missing one and takes the wall clock instead. */
  function PipelineTime(ts: real, wall: real): real {
    if ts == 0.0 then wall else ts
  }

  function LastOf(runs: map<string, real>, direction: string): Option<real> {
    if direction in runs then Some(runs[direction]) else None
  }

  /** Coordinator and pipeline agree whatever happened before, unless the frame's time stamp is zero. */
  lemma GatesAgreeExactly(ts: real, wall: real, fps: real)
    requires fps > 0.0
    ensures (forall last :: Due(last, ts, fps) == Due(last, PipelineTime(ts, wall), fps)) <==> ts != 0.0 || wall == 0.0
  {
    if ts == 0.0 && wall != 0.0 {
      var last := if wall > 0.0 then Some(wall) else Some(0.0);
      assert 1.0 / fps > 0.0;
      assert Due(last, ts, fps) != Due(last, PipelineTime(ts, wall), fps);
    }
  }

  // ----- how often the detector runs on one approach -----------------------------------------------

  /** The frames from `k` on that pass the gate. */
  function Runs(last: Option<real>, ts: seq<real>, k: nat, fps: real): (runs: seq<nat>)
    requires k <= |ts| && fps > 0.0
    ensures forall i | 0 <= i < |runs| :: k <= runs[i] < |ts|
    decreases |ts| - k
  {
    if k == |ts| then []
    else if Due(last, ts[k], fps) then [k] + Runs(Some(ts[k]), ts, k + 1, fps)
    else Runs(last, ts, k + 1, fps)
  }

  /** The time of the latest of these runs before frame `i`, or what was known before them. */
  function LatestTime(runs: seq<nat>, ts: seq<real>, i: nat, last: Option<real>): Option<real>
    requires forall j | 0 <= j < |runs| :: runs[j] < |ts|
  {
    if runs == [] || runs[0] >= i then last else LatestTime(runs[1..], ts, i, Some(ts[runs[0]]))
  }

  /**
   Whatever the time stamps, a frame is run exactly unless it comes less than a period after the latest run before it; a
   stamp that lies before that run's is run too.
   */
  lemma {:induction false} RunsExactly(last: Option<real>, ts: seq<real>, k: nat, fps: real, i: nat)
    requires k <= i < |ts| && fps > 0.0
    ensures var runs := Runs(last, ts, k, fps); var latest := LatestTime(runs, ts, i, last);
      i !in runs <==> latest.Some? && 0.0 <= ts[i] - latest.value < 1.0 / fps
    decreases |ts| - k
  {
    var due := Due(last, ts[k], fps);
    var next := if due then Some(ts[k]) else last;
    var rest := Runs(next, ts, k + 1, fps);
    if i > k {
      RunsExactly(next, ts, k + 1, fps, i);
      assert due ==> ([k] + rest)[1..] == rest;
    } else if due {
      assert ([k] + rest)[0] == k;
    }
  }

  ghost predicate NonDecreasing(ts: seq<real>) {
    forall i, j | 0 <= i < j < |ts| :: ts[i] <= ts[j]
  }

  /** Frames in order, each at least `gap` after the one before. */
  ghost predicate Spaced(ts: seq<real>, picks: seq<nat>, gap: real) {
    && (forall i | 0 <= i < |picks| :: picks[i] < |ts|)
    && (forall i | 0 < i < |picks| :: picks[i - 1] < picks[i] && ts[picks[i]] - ts[picks[i - 1]] >= gap)
  }

  lemma {:induction false} RunsAreSpaced(last: Option<real>, ts: seq<real>, k: nat, fps: real)
    requires k <= |ts| && fps > 0.0 && NonDecreasing(ts)
    requires last.Some? ==> forall i | k <= i < |ts| :: last.value <= ts[i]
    ensures var runs := Runs(last, ts, k, fps);
      Spaced(ts, runs, 1.0 / fps) && (runs != [] && last.Some? ==> ts[runs[0]] - last.value >= 1.0 / fps)
    decreases |ts| - k
  {
    if k < |ts| {
      var last' := if Due(last, ts[k], fps) then Some(ts[k]) else last;
      RunsAreSpaced(last', ts, k + 1, fps);
    }
  }

  lemma {:induction false} SpacedSpan(ts: seq<real>, picks: seq<nat>, gap: real)
    requires Spaced(ts, picks, gap) && picks != []
    ensures ts[picks[|picks| - 1]] - ts[picks[0]] >= (|picks| - 1) as real * gap
  {
    if |picks| > 1 {
      var init := picks[..|picks| - 1];
      SpacedSpan(ts, init, gap);
      assert (|picks| - 1) as real * gap == (|init| - 1) as real * gap + gap;
    }
  }

  /** On frames in time order, n runs on an approach take at least (n - 1) / fps seconds. */
  lemma DetectorRate(ts: seq<real>, fps: real)
    requires fps > 0.0 && NonDecreasing(ts) && Runs(None, ts, 0, fps) != []
    ensures var runs := Runs(None, ts, 0, fps);
      ts[runs[|runs| - 1]] - ts[runs[0]] >= (|runs| - 1) as real * (1.0 / fps)
  {
    RunsAreSpaced(None, ts, 0, fps);
    SpacedSpan(ts, Runs(None, ts, 0, fps), 1.0 / fps);
  }

  lemma {:induction false} RunsStayAhead(last: Option<real>, ts: seq<real>, k: nat, fps: real, picks: seq<nat>)
    requires k <= |ts| && fps > 0.0 && NonDecreasing(ts) && Spaced(ts, picks, 1.0 / fps)
    requires picks != [] ==> k <= picks[0] && (last.Some? ==> ts[picks[0]] - last.value >= 1.0 / fps)
    ensures |picks| <= |Runs(last, ts, k, fps)|
    decreases |ts| - k
  {
    if k < |ts| && picks != [] {
      if Due(last, ts[k], fps) {
        assert |picks| > 1 ==> ts[picks[1]] - ts[k] >= 1.0 / fps;
        RunsStayAhead(Some(ts[k]), ts, k + 1, fps, picks[1..]);
      } else {
        RunsStayAhead(last, ts, k + 1, fps, picks);
      }
    }
  }

  /** No other choice of frames that keeps to the rate runs the detector more often. */
  lemma NoBetterCadence(ts: seq<real>, fps: real, picks: seq<nat>)
    requires fps > 0.0 && NonDecreasing(ts) && Spaced(ts, picks, 1.0 / fps)
    ensures |picks| <= |Runs(None, ts, 0, fps)|
  {
    RunsStayAhead(None, ts, 0, fps, picks);
  }

  // ----- the chunked batch -----------------------------------------------------------------------

  ghost predicate OnePerDirection<I>(frames: seq<Frame<I>>) {
    forall i, j | 0 <= i < j < |frames| :: frames[i].direction != frames[j].direction
  }

  predicate IsDue<I>(runs: map<string, real>, f: Frame<I>, fps: real)
    requires fps > 0.0
  {
    Due(LastOf(runs, f.direction), f.ts, fps)
  }

  /** The places of the due frames. */
  function DueFrom<I>(runs: map<string, real>, frames: seq<Frame<I>>, k: nat, fps: real): (due: seq<nat>)
    requires k <= |frames| && fps > 0.0
    ensures forall j | 0 <= j < |due| :: k <= due[j] < |frames|
    decreases |frames| - k
  {
    if k == |frames| then []
    else if IsDue(runs, frames[k], fps) then [k] + DueFrom(runs, frames, k + 1, fps)
    else DueFrom(runs, frames, k + 1, fps)
  }

  ghost predicate Increasing(xs: seq<nat>) {
    forall i, j | 0 <= i < j < |xs| :: xs[i] < xs[j]
  }

  lemma {:induction false} DueFacts<I>(runs: map<string, real>, frames: seq<Frame<I>>, k: nat, fps: real)
    requires k <= |frames| && fps > 0.0
    ensures var due := DueFrom(runs, frames, k, fps);
      && Increasing(due)
      && forall i | k <= i < |frames| :: i in due <==> IsDue(runs, frames[i], fps)
    decreases |frames| - k
  {
    hide IsDue;
    if k < |frames| {
      var rest := DueFrom(runs, frames, k + 1, fps);
      DueFacts(runs, frames, k + 1, fps);
      if IsDue(runs, frames[k], fps) {
        assert forall i | k < i < |frames| :: i in [k] + rest <==> i in rest;
        assert ([k] + rest)[0] == k;
      }
    }
  }

  /** How many of the first `n` frames are due. */
  function DueBefore<I>(runs: map<string, real>, frames: seq<Frame<I>>, n: nat, fps: real): nat
    requires n <= |frames| && fps > 0.0
  {
    if n == 0 then 0 else DueBefore(runs, frames, n - 1, fps) + if IsDue(runs, frames[n - 1], fps) then 1 else 0
  }

  /** A frame that is not due and has grown too old by now never reaches the pipeline. */
  predicate Reaches<I>(runs: map<string, real>, f: Frame<I>, late: bool, fps: real)
    requires fps > 0.0
  {
    IsDue(runs, f, fps) || !late
  }

  /** How many of the first `n` frames reach the pipeline. */
  function Reached<I>(runs: map<string, real>, frames: seq<Frame<I>>, late: seq<bool>, n: nat, fps: real): nat
    requires n <= |frames| == |late| && fps > 0.0
  {
    if n == 0 then 0
    else Reached(runs, frames, late, n - 1, fps) + if Reaches(runs, frames[n - 1], late[n - 1], fps) then 1 else 0
  }

  /** The number the detector stamps on frame `i`: it counts from the start of each chunk. */
  function DetectorNumber<I>(runs: map<string, real>, frames: seq<Frame<I>>, i: nat, count: nat, size: nat,
                             fps: real): nat
    requires i < |frames| && size > 0 && fps > 0.0
  {
    count + InChunk(DueBefore(runs, frames, i, fps), size) + 1
  }

  /** The number the pipeline gives frame `i`: it counts the frames that reach it. */
  function PipelineNumber<I>(runs: map<string, real>, frames: seq<Frame<I>>, late: seq<bool>, i: nat, count: nat,
                             fps: real): nat
    requires i < |frames| == |late| && fps > 0.0
  {
    count + Reached(runs, frames, late, i, fps) + 1
  }

  /** The j-th due frame has j due frames before it. */
  lemma {:induction false} PlaceOf<I>(runs: map<string, real>, frames: seq<Frame<I>>, k: nat, fps: real, j: nat)
    requires k <= |frames| && fps > 0.0 && j < |DueFrom(runs, frames, k, fps)|
    ensures DueBefore(runs, frames, DueFrom(runs, frames, k, fps)[j], fps) == DueBefore(runs, frames, k, fps) + j
    decreases |frames| - k
  {
    hide IsDue;
    if !IsDue(runs, frames[k], fps) {
      PlaceOf(runs, frames, k + 1, fps, j);
    } else if j > 0 {
      PlaceOf(runs, frames, k + 1, fps, j - 1);
    }
  }

  /** Due frames reach the pipeline; it has seen no others exactly when all others so far were too old. */
  lemma {:induction false} ReachedDue<I>(runs: map<string, real>, frames: seq<Frame<I>>, late: seq<bool>, n: nat,
                                         fps: real)
    requires n <= |frames| == |late| && fps > 0.0
    ensures DueBefore(runs, frames, n, fps) <= Reached(runs, frames, late, n, fps)
    ensures DueBefore(runs, frames, n, fps) == Reached(runs, frames, late, n, fps)
            <==> forall i | 0 <= i < n :: IsDue(runs, frames[i], fps) || late[i]
  {
    hide IsDue;
    if n > 0 {
      ReachedDue(runs, frames, late, n - 1, fps);
    }
  }

  lemma {:induction false} DueBeforeGrows<I>(runs: map<string, real>, frames: seq<Frame<I>>, k: nat, n: nat, fps: real)
    requires k < n <= |frames| && fps > 0.0 && IsDue(runs, frames[k], fps)
    ensures DueBefore(runs, frames, k, fps) < DueBefore(runs, frames, n, fps)
  {
    hide IsDue;
    if k < n - 1 {
      DueBeforeGrows(runs, frames, k, n - 1, fps);
    }
  }

  lemma {:induction false} LastDue<I>(runs: map<string, real>, frames: seq<Frame<I>>, n: nat, fps: real)
      returns (k: nat)
    requires n <= |frames| && fps > 0.0 && DueBefore(runs, frames, n, fps) > 0
    ensures k < n && IsDue(runs, frames[k], fps)
    ensures DueBefore(runs, frames, k, fps) + 1 == DueBefore(runs, frames, n, fps)
  {
    hide IsDue;
    k := n - 1;
    if !IsDue(runs, frames[n - 1], fps) {
      k := LastDue(runs, frames, n - 1, fps);
    }
  }

  lemma {:induction false} InChunkFacts(j: nat, size: nat)
    requires size > 0
    ensures InChunk(j, size) <= j && InChunk(j, size) < size && (InChunk(j, size) == j <==> j < size)
  {
    if j >= size {
      InChunkFacts(j - size, size);
    }
  }

  /** One chunk holds all the due frames, and no frame ahead of a due one reaches the pipeline without being due. */
  ghost predicate DueFirst<I>(runs: map<string, real>, frames: seq<Frame<I>>, late: seq<bool>, size: nat, fps: real)
    requires |frames| == |late| && fps > 0.0
  {
    && DueBefore(runs, frames, |frames|, fps) <= size
    && forall i, k | 0 <= i < k < |frames| && IsDue(runs, frames[k], fps) :: IsDue(runs, frames[i], fps) || late[i]
  }

  lemma NumberOfOne<I>(runs: map<string, real>, frames: seq<Frame<I>>, late: seq<bool>, k: nat, count: nat, size: nat,
                       fps: real)
    requires k < |frames| == |late| && size > 0 && fps > 0.0
    ensures DetectorNumber(runs, frames, k, count, size, fps) == PipelineNumber(runs, frames, late, k, count, fps)
            <==> DueBefore(runs, frames, k, fps) < size && forall i | 0 <= i < k ::
              IsDue(runs, frames[i], fps) || late[i]
  {
    hide IsDue, InChunk, DueBefore, Reached;
    ReachedDue(runs, frames, late, k, fps);
    InChunkFacts(DueBefore(runs, frames, k, fps), size);
  }

  /** Detector and pipeline give every due frame the same number exactly when the due frames come first in one chunk. */
  lemma NumbersAgreeExactly<I>(runs: map<string, real>, frames: seq<Frame<I>>, late: seq<bool>, count: nat, size: nat,
                               fps: real)
    requires |frames| == |late| && size > 0 && fps > 0.0
    ensures (forall k | 0 <= k < |frames| && IsDue(runs, frames[k], fps) ::
               DetectorNumber(runs, frames, k, count, size, fps) == PipelineNumber(runs, frames, late, k, count, fps))
            <==> DueFirst(runs, frames, late, size, fps)
  {
    hide IsDue, DetectorNumber, PipelineNumber, DueBefore;
    forall k | 0 <= k < |frames| && IsDue(runs, frames[k], fps)
      ensures DetectorNumber(runs, frames, k, count, size, fps) == PipelineNumber(runs, frames, late, k, count, fps)
              <==> DueBefore(runs, frames, k, fps) < size && forall i | 0 <= i < k ::
                IsDue(runs, frames[i], fps) || late[i]
      ensures DueBefore(runs, frames, k, fps) < DueBefore(runs, frames, |frames|, fps)
    {
      NumberOfOne(runs, frames, late, k, count, size, fps);
      DueBeforeGrows(runs, frames, k, |frames|, fps);
    }
    if DueBefore(runs, frames, |frames|, fps) > 0 {
      var last := LastDue(runs, frames, |frames|, fps);
      assert DueBefore(runs, frames, last, fps) < size ==> DueBefore(runs, frames, |frames|, fps) <= size;
    }
  }

  // ----- the pipeline and the coordinator ----------------------------------------------------------

  /** The pipeline's own reading of the gate, on the time stamp as it takes it. */
  predicate IsDueAgain<I>(runs: map<string, real>, f: Frame<I>, wall: real, fps: real)
    requires fps > 0.0
  {
    Due(LastOf(runs, f.direction), PipelineTime(f.ts, wall), fps)
  }

  /** What becomes of a frame: no other frame of the batch plays a part in it but for the two numbers. */
  function Fate<I, D>(runs: map<string, real>, f: Frame<I>, late: bool, wall: real, model: I -> D, fps: real,
                      stamped: nat, counted: nat): Outcome<D>
    requires fps > 0.0
  {
    if !Reaches(runs, f, late, fps) then Skipped
    else if !IsDueAgain(runs, f, wall, fps) then Predicted
    else if IsDue(runs, f, fps) then Observed(Detection(model(f.image), stamped, f.ts))
    else Observed(Detection(model(f.image), counted, PipelineTime(f.ts, wall)))
  }

  function FateAt<I, D>(runs: map<string, real>, frames: seq<Frame<I>>, late: seq<bool>, walls: seq<real>, i: nat,
                        model: I -> D, count: nat, size: nat, fps: real): Outcome<D>
    requires i < |frames| == |late| == |walls| && size > 0 && fps > 0.0
  {
    Fate(runs, frames[i], late[i], walls[i], model, fps, DetectorNumber(runs, frames, i, count, size, fps),
         PipelineNumber(runs, frames, late, i, count, fps))
  }

  /** The gates disagree on a frame that the coordinator found due, or not due. */
  predicate IsWasted<I>(runs: map<string, real>, f: Frame<I>, late: bool, wall: real, due: bool, fps: real)
    requires fps > 0.0
  {
    Reaches(runs, f, late, fps) && IsDue(runs, f, fps) == due && IsDueAgain(runs, f, wall, fps) != due
  }

  /** Such frames among the first `n`: precomputed in vain if due, inferred by the pipeline itself if not. */
  function Wasted<I>(runs: map<string, real>, frames: seq<Frame<I>>, late: seq<bool>, walls: seq<real>, n: nat,
                     due: bool, fps: real): nat
    requires n <= |frames| == |late| == |walls| && fps > 0.0
  {
    if n == 0 then 0
    else
      var f := frames[n - 1];
      Wasted(runs, frames, late, walls, n - 1, due, fps)
      + if IsWasted(runs, f, late[n - 1], walls[n - 1], due, fps) then 1 else 0
  }

  /** Off the zero time stamp a due frame has the batch's own detection of it, and no other frame has one. */
  lemma FateOffZero<I, D>(runs: map<string, real>, f: Frame<I>, late: bool, wall: real, model: I -> D, fps: real,
                          stamped: nat, counted: nat)
    requires fps > 0.0 && f.ts != 0.0
    ensures Fate(runs, f, late, wall, model, fps, stamped, counted)
            == if IsDue(runs, f, fps) then Observed(Detection(model(f.image), stamped, f.ts))
               else if late then Skipped else Predicted
  {
  }

  /** Without a zero time stamp nothing is inferred a second time and nothing precomputed is thrown away. */
  lemma {:induction false} NothingWasted<I>(runs: map<string, real>, frames: seq<Frame<I>>, late: seq<bool>,
                                            walls: seq<real>, n: nat, due: bool, fps: real)
    requires n <= |frames| == |late| == |walls| && fps > 0.0
    ensures Wasted(runs, frames, late, walls, n, due, fps) == 0
            <==> forall i |
                   0 <= i < n && IsDue(runs, frames[i], fps) == due && Reaches(runs, frames[i], late[i], fps) ::
                   IsDueAgain(runs, frames[i], walls[i], fps) == due
    ensures (forall i | 0 <= i < n :: frames[i].ts != 0.0) ==> Wasted(runs, frames, late, walls, n, due, fps) == 0
  {
    hide Due;
    if n > 0 {
      NothingWasted(runs, frames, late, walls, n - 1, due, fps);
    }
  }

  /** Whatever ran before and whichever frames are too old, nothing is inferred twice or thrown away. */
  ghost predicate NeverWastes<I>(frames: seq<Frame<I>>, walls: seq<real>, fps: real)
    requires |frames| == |walls| && fps > 0.0
  {
    forall runs, late: seq<bool>, due | |late| == |frames| :: Wasted(runs, frames, late, walls, |frames|, due, fps) == 0
  }

  /** That holds exactly when no frame has a zero time stamp, unless the wall clock reads zero too. */
  lemma NeverWastesExactly<I>(frames: seq<Frame<I>>, walls: seq<real>, fps: real)
    requires |frames| == |walls| && fps > 0.0
    ensures NeverWastes(frames, walls, fps) <==> forall i | 0 <= i < |frames| :: frames[i].ts != 0.0 || walls[i] == 0.0
  {
    hide Wasted, Due, PipelineTime;
    if i :| 0 <= i < |frames| && frames[i].ts == 0.0 && walls[i] != 0.0 {
      var runs, late, due := WastefulRuns(frames, walls, fps, i);
      assert Wasted(runs, frames, late, walls, |frames|, due, fps) != 0;
    } else {
      forall runs, late: seq<bool>, due | |late| == |frames|
        ensures Wasted(runs, frames, late, walls, |frames|, due, fps) == 0
      {
        NothingWasted(runs, frames, late, walls, |frames|, due, fps);
        forall i | 0 <= i < |frames| ensures IsDueAgain(runs, frames[i], walls[i], fps) == IsDue(runs, frames[i], fps) {
          GatesAgreeExactly(frames[i].ts, walls[i], fps);
        }
      }
    }
  }

  /** Earlier run times for which the two gates disagree on frame `i`. */
  lemma WastefulRuns<I>(frames: seq<Frame<I>>, walls: seq<real>, fps: real, i: nat)
      returns (runs: map<string, real>, late: seq<bool>, due: bool)
    requires i < |frames| == |walls| && fps > 0.0 && frames[i].ts == 0.0 && walls[i] != 0.0
    ensures |late| == |frames| && Wasted(runs, frames, late, walls, |frames|, due, fps) != 0
  {
    hide Wasted;
    var f := frames[i];
    GatesAgreeExactly(f.ts, walls[i], fps);
    var last :| Due(last, f.ts, fps) != Due(last, PipelineTime(f.ts, walls[i]), fps);
    runs := map[f.direction := last.value];
    late := seq(|frames|, _ => false);
    assert LastOf(runs, f.direction) == last;
    due := IsDue(runs, f, fps);
    NothingWasted(runs, frames, late, walls, |frames|, due, fps);
    assert Reaches(runs, frames[i], late[i], fps) && IsDueAgain(runs, frames[i], walls[i], fps) != due;
  }

  class TrafficPipeline<I, D> {
    const detectorFps: real
    const batchSize: nat
    /** The model, one image at a time. */
    const model: I -> D
    var lastDetectionTs: map<string, real>
    var frameCount: nat
    /** Inferences the pipeline makes itself, and precomputed results it throws away. */
    ghost var second: nat
    ghost var discarded: nat

    ghost predicate Valid() {
      detectorFps > 0.0 && batchSize > 0
    }

    /** A model of the ncnn kind takes one image at a time. */
    constructor (detectorFps: real, isNcnn: bool, configuredBatch: int, model: I -> D)
      requires detectorFps > 0.0
      ensures Valid() && lastDetectionTs == map[]
      ensures 1 <= batchSize <= 4 && (isNcnn ==> batchSize == 1)
      ensures !isNcnn ==> (batchSize == configuredBatch <==> 1 <= configuredBatch <= 4)
      ensures !isNcnn ==> (configuredBatch < 1 ==> batchSize == 1) && (configuredBatch > 4 ==> batchSize == 4)
      ensures this.model == model && this.detectorFps == detectorFps
      ensures frameCount == 0 && second == 0 && discarded == 0
    {
      this.detectorFps, this.model := detectorFps, model;
      this.batchSize := if isNcnn || configuredBatch < 1 then 1 else if configuredBatch > 4 then 4 else configuredBatch;
      lastDetectionTs, frameCount := map[], 0;
      second, discarded := 0, 0;
    }

    method ProcessSingleFrame(f: Frame<I>, wall: real, precomputed: Option<Detection<D>>) returns (out: Outcome<D>)
      requires Valid()
      modifies this
      ensures var ts := PipelineTime(f.ts, wall);
        var due := Due(LastOf(old(lastDetectionTs), f.direction), ts, detectorFps);
        && out == (if !due then Predicted
                   else if precomputed.Some? then Observed(precomputed.value)
                   else Observed(Detection(model(f.image), old(frameCount) + 1, ts)))
        && lastDetectionTs == (if due then old(lastDetectionTs)[f.direction := ts] else old(lastDetectionTs))
        && second == old(second) + (if due && precomputed.None? then 1 else 0)
        && discarded == old(discarded) + (if !due && precomputed.Some? then 1 else 0)
      ensures frameCount == old(frameCount) + 1
    {
      var ts := PipelineTime(f.ts, wall);
      frameCount := frameCount + 1;
      if Due(LastOf(lastDetectionTs, f.direction), ts, detectorFps) {
        if precomputed.Some? {
          out := Observed(precomputed.value);
        } else {
          out := Observed(Detection(model(f.image), frameCount, ts));
          second := second + 1;
        }
        lastDetectionTs := lastDetectionTs[f.direction := ts];
      } else {
        out := Predicted;
        if precomputed.Some? {
          discarded := discarded + 1;
        }
      }
    }

    /** One call of the model on a bounded list of images. */
    method DetectBatch(group: seq<Frame<I>>) returns (boxes: seq<Detection<D>>)
      requires |group| <= batchSize
      ensures |boxes| == |group|
      ensures forall i | 0 <= i < |group| ::
        boxes[i] == Detection(model(group[i].image), frameCount + i + 1, group[i].ts)
    {
      boxes := [];
      for i := 0 to |group|
        invariant |boxes| == i
        invariant forall j | 0 <= j < i :: boxes[j] == Detection(model(group[j].image), frameCount + j + 1, group[j].ts)
      {
        boxes := boxes + [Detection(model(group[i].image), frameCount + i + 1, group[i].ts)];
      }
    }

    /** The due frames in chunks: each gets the detection of its own image, numbered from the start of its chunk. */
    method DetectDue(due: seq<Frame<I>>) returns (computed: map<string, Detection<D>>)
      requires Valid() && OnePerDirection(due)
      ensures Computed(computed, due, |due|, model, frameCount, batchSize)
    {
      hide OnePerDirection, InChunk;
      computed := map[];
      var start := 0;
      while start < |due|
        modifies {}
        invariant ChunkStart(start, batchSize)
        invariant Computed(computed, due, if start < |due| then start else |due|, model, frameCount, batchSize)
      {
        computed := DetectChunk(due, start, computed);
        start := start + batchSize;
      }
    }

    method DetectChunk(due: seq<Frame<I>>, start: nat, known: map<string, Detection<D>>)
        returns (computed: map<string, Detection<D>>)
      requires Valid() && OnePerDirection(due) && start < |due| && ChunkStart(start, batchSize)
      requires Computed(known, due, start, model, frameCount, batchSize)
      ensures Computed(computed, due, if start + batchSize < |due| then start + batchSize else |due|,
                       model, frameCount, batchSize)
    {
      hide Computed, OnePerDirection, InChunk, ChunkStart;
      var end := if start + batchSize < |due| then start + batchSize else |due|;
      var group := due[start..end];
      var boxes := DetectBatch(group);
      computed := known;
      for i := 0 to |group|
        modifies {}
        invariant Computed(computed, due, start + i, model, frameCount, batchSize)
      {
        assert group[i] == due[start + i];
        ChunkPlace(start, i, batchSize);
        ComputedOne(computed, due, start + i, model, frameCount, batchSize);
        computed := computed[group[i].direction := boxes[i]];
      }
    }

    method SelectDue(ready: seq<Frame<I>>) returns (due: seq<Frame<I>>)
      requires Valid()
      ensures Picked(ready, due, DueFrom(lastDetectionTs, ready, 0, detectorFps))
    {
      due := [];
      ghost var places: seq<nat> := [];
      for i := 0 to |ready|
        modifies {}
        invariant Picked(ready, due, places)
        invariant places + DueFrom(lastDetectionTs, ready, i, detectorFps)
                  == DueFrom(lastDetectionTs, ready, 0, detectorFps)
      {
        if Due(LastOf(lastDetectionTs, ready[i].direction), ready[i].ts, detectorFps) {
          due, places := due + [ready[i]], places + [i];
        }
      }
    }

    /** A frame's turn in the last loop, with the result computed for its approach, if any. */
    method ProcessReady(f: Frame<I>, late: bool, wall: real, computed: map<string, Detection<D>>)
        returns (out: Outcome<D>)
      requires Valid() && (f.direction in computed <==> IsDue(lastDetectionTs, f, detectorFps))
      requires f.direction in computed ==>
        computed[f.direction].found == model(f.image) && computed[f.direction].ts == f.ts
      modifies this
      ensures var runs := old(lastDetectionTs);
        && out == Fate(runs, f, late, wall, model, detectorFps,
                       if f.direction in computed then computed[f.direction].number else 0, old(frameCount) + 1)
        && lastDetectionTs == (if Reaches(runs, f, late, detectorFps) && IsDueAgain(runs, f, wall, detectorFps)
                               then runs[f.direction := PipelineTime(f.ts, wall)] else runs)
        && frameCount == old(frameCount) + (if Reaches(runs, f, late, detectorFps) then 1 else 0)
        && second == old(second) + (if IsWasted(runs, f, late, wall, false, detectorFps) then 1 else 0)
        && discarded == old(discarded) + (if IsWasted(runs, f, late, wall, true, detectorFps) then 1 else 0)
    {
      hide Due;
      var precomputed := if f.direction in computed then Some(computed[f.direction]) else None;
      out := Skipped;
      if precomputed.Some? || !late {
        out := ProcessSingleFrame(f, wall, precomputed);
      }
    }

    /**
     * Detection in chunks and then the pipeline over each frame: every frame fares as it would alone, the two numbers
     * apart, which `numbers` records as the pipeline counts.
     */
    method ProcessBatch(ready: seq<Frame<I>>, late: seq<bool>, walls: seq<real>)
        returns (outs: seq<Outcome<D>>, ghost numbers: seq<nat>)
      requires Valid() && OnePerDirection(ready) && |late| == |walls| == |ready|
      modifies this
      ensures Fared(old(lastDetectionTs), ready, late, walls, |ready|, outs, numbers, model, old(frameCount), batchSize,
                    detectorFps)
      ensures Updated(old(lastDetectionTs), lastDetectionTs, ready, late, walls, |ready|, detectorFps)
      ensures frameCount == old(frameCount) + Reached(old(lastDetectionTs), ready, late, |ready|, detectorFps)
      ensures second == old(second) + Wasted(old(lastDetectionTs), ready, late, walls, |ready|, false, detectorFps)
      ensures discarded == old(discarded) + Wasted(old(lastDetectionTs), ready, late, walls, |ready|, true, detectorFps)
    {
      hide Due, Computed, HasFrame, Fate, Fared, Updated, OnePerDirection, IsDueAgain, DetectorNumber, Picked;
      ghost var runs, count := lastDetectionTs, frameCount;
      var due := SelectDue(ready);
      ghost var places := DueFrom(runs, ready, 0, detectorFps);
      PickedOne(runs, ready, due, places, detectorFps);
      var computed := DetectDue(due);
      outs, numbers := [], [];
      NothingFared(runs, ready, late, walls, model, count, batchSize, detectorFps);
      for i := 0 to |ready|
        invariant Fared(runs, ready, late, walls, i, outs, numbers, model, count, batchSize, detectorFps)
        invariant Updated(runs, lastDetectionTs, ready, late, walls, i, detectorFps)
        invariant frameCount == count + Reached(runs, ready, late, i, detectorFps)
        invariant second == old(second) + Wasted(runs, ready, late, walls, i, false, detectorFps)
        invariant discarded == old(discarded) + Wasted(runs, ready, late, walls, i, true, detectorFps)
      {
        var f := ready[i];
        ghost var before := lastDetectionTs;
        ghost var stamp := if f.direction in computed then computed[f.direction].number else 0;
        StillThere(runs, before, ready, late, walls, i, detectorFps);
        ComputedFor(runs, ready, due, places, computed, model, count, batchSize, detectorFps, i);
        FateFrom(before, runs, f, late[i], walls[i], model, detectorFps, frameCount + 1, stamp,
                 DetectorNumber(runs, ready, i, count, batchSize, detectorFps));
        FaredOne(runs, ready, late, walls, i, outs, numbers, model, count, batchSize, detectorFps);
        UpdatedOne(runs, before, ready, late, walls, i, detectorFps);
        numbers := numbers + [frameCount + 1];
        var out := ProcessReady(f, late[i], walls[i], computed);
        outs := outs + [out];
      }
    }
  }

  /** The first `n` frames have met their fates, and the pipeline's numbers for them are these. */
  ghost predicate Fared<I, D>(runs: map<string, real>, ready: seq<Frame<I>>, late: seq<bool>, walls: seq<real>, n: nat,
                              outs: seq<Outcome<D>>, numbers: seq<nat>, model: I -> D, count: nat, size: nat, fps: real)
    requires n <= |ready| == |late| == |walls| && size > 0 && fps > 0.0
  {
    && |outs| == |numbers| == n
    && (forall i | 0 <= i < n :: outs[i] == FateAt(runs, ready, late, walls, i, model, count, size, fps))
    && forall i | 0 <= i < n :: numbers[i] == PipelineNumber(runs, ready, late, i, count, fps)
  }

  /** The run times after the first `n` frames. */
  ghost predicate Updated<I>(runs: map<string, real>, now: map<string, real>, ready: seq<Frame<I>>, late: seq<bool>,
                             walls: seq<real>, n: nat, fps: real)
    requires n <= |ready| == |late| == |walls| && fps > 0.0
  {
    && (forall i | 0 <= i < n :: LastOf(now, ready[i].direction) == LastAfter(runs, ready[i], late[i], walls[i], fps))
    && forall d :: LastOf(now, d) == LastOf(runs, d) || HasFrame(ready, n, d)
  }

  lemma NothingFared<I, D>(runs: map<string, real>, ready: seq<Frame<I>>, late: seq<bool>, walls: seq<real>,
                           model: I -> D, count: nat, size: nat, fps: real)
    requires |ready| == |late| == |walls| && size > 0 && fps > 0.0
    ensures Fared(runs, ready, late, walls, 0, [], [], model, count, size, fps)
    ensures Updated(runs, runs, ready, late, walls, 0, fps)
  {
  }

  lemma FaredOne<I, D>(runs: map<string, real>, ready: seq<Frame<I>>, late: seq<bool>, walls: seq<real>, n: nat,
                       outs: seq<Outcome<D>>, numbers: seq<nat>, model: I -> D, count: nat, size: nat, fps: real)
    requires n < |ready| == |late| == |walls| && size > 0 && fps > 0.0
    requires Fared(runs, ready, late, walls, n, outs, numbers, model, count, size, fps)
    ensures Fared(runs, ready, late, walls, n + 1,
                  outs + [FateAt(runs, ready, late, walls, n, model, count, size, fps)],
                  numbers + [PipelineNumber(runs, ready, late, n, count, fps)], model, count, size, fps)
  {
    hide FateAt, PipelineNumber;
  }

  /** An approach whose frame is still to come has its old run time. */
  lemma StillThere<I>(runs: map<string, real>, now: map<string, real>, ready: seq<Frame<I>>, late: seq<bool>,
                      walls: seq<real>, n: nat, fps: real)
    requires n < |ready| == |late| == |walls| && fps > 0.0 && OnePerDirection(ready)
    requires Updated(runs, now, ready, late, walls, n, fps)
    ensures LastOf(now, ready[n].direction) == LastOf(runs, ready[n].direction)
  {
  }

  lemma UpdatedOne<I>(runs: map<string, real>, now: map<string, real>, ready: seq<Frame<I>>, late: seq<bool>,
                      walls: seq<real>, n: nat, fps: real)
    requires n < |ready| == |late| == |walls| && fps > 0.0 && OnePerDirection(ready)
    requires Updated(runs, now, ready, late, walls, n, fps)
    ensures var f := ready[n];
      Updated(runs, if Reaches(runs, f, late[n], fps) && IsDueAgain(runs, f, walls[n], fps)
                    then now[f.direction := PipelineTime(f.ts, walls[n])] else now, ready, late, walls, n + 1, fps)
  {
    hide Reaches, IsDueAgain;
    StillThere(runs, now, ready, late, walls, n, fps);
    var f := ready[n];
    var after := if Reaches(runs, f, late[n], fps) && IsDueAgain(runs, f, walls[n], fps)
      then now[f.direction := PipelineTime(f.ts, walls[n])] else now;
    forall d ensures LastOf(after, d) == LastOf(runs, d) || HasFrame(ready, n + 1, d) {
      if f.direction == d || HasFrame(ready, n, d) {
        HasOneMore(ready, n, d);
      }
    }
  }

  /** A frame's fate depends on the run times through its own approach only, and on the stamp only if it is due. */
  lemma FateFrom<I, D>(runs: map<string, real>, start: map<string, real>, f: Frame<I>, late: bool, wall: real,
                       model: I -> D, fps: real, counted: nat, stamp: nat, stamped: nat)
    requires fps > 0.0 && LastOf(runs, f.direction) == LastOf(start, f.direction)
    requires IsDue(start, f, fps) ==> stamp == stamped
    ensures Fate(runs, f, late, wall, model, fps, stamp, counted)
            == Fate(start, f, late, wall, model, fps, stamped, counted)
    ensures IsDue(runs, f, fps) == IsDue(start, f, fps)
            && IsDueAgain(runs, f, wall, fps) == IsDueAgain(start, f, wall, fps)
  {
    hide Due, PipelineTime;
  }

  function LastAfter<I>(runs: map<string, real>, f: Frame<I>, late: bool, wall: real, fps: real): Option<real>
    requires fps > 0.0
  {
    if Reaches(runs, f, late, fps) && IsDueAgain(runs, f, wall, fps) then Some(PipelineTime(f.ts, wall))
    else LastOf(runs, f.direction)
  }

  /** `due` lists the frames at `places`. */
  ghost predicate Picked<I>(ready: seq<Frame<I>>, due: seq<Frame<I>>, places: seq<nat>) {
    && |due| == |places|
    && forall j | 0 <= j < |due| :: places[j] < |ready| && due[j] == ready[places[j]]
  }

  lemma PickedOne<I>(runs: map<string, real>, ready: seq<Frame<I>>, due: seq<Frame<I>>, places: seq<nat>, fps: real)
    requires fps > 0.0 && OnePerDirection(ready) && Picked(ready, due, places) && places == DueFrom(runs, ready, 0, fps)
    ensures OnePerDirection(due)
  {
    DueFacts(runs, ready, 0, fps);
    forall i, j | 0 <= i < j < |due| ensures due[i].direction != due[j].direction {
      assert places[i] < places[j];
    }
  }

  /** The place of a due frame among the due ones. */
  lemma DuePlace<I>(runs: map<string, real>, ready: seq<Frame<I>>, due: seq<Frame<I>>, places: seq<nat>, fps: real,
                    i: nat)
      returns (j: nat)
    requires fps > 0.0 && Picked(ready, due, places) && places == DueFrom(runs, ready, 0, fps)
    requires i < |ready| && IsDue(runs, ready[i], fps)
    ensures j < |due| && due[j] == ready[i] && DueBefore(runs, ready, i, fps) == j
  {
    hide IsDue, DueBefore;
    DueFacts(runs, ready, 0, fps);
    j :| 0 <= j < |places| && places[j] == i;
    PlaceOf(runs, ready, 0, fps, j);
    NoneBefore(runs, ready, fps);
  }

  /** A frame that shares its approach with a due one is that one. */
  lemma DueShared<I>(runs: map<string, real>, ready: seq<Frame<I>>, due: seq<Frame<I>>, places: seq<nat>, fps: real,
                     i: nat)
    requires fps > 0.0 && OnePerDirection(ready) && Picked(ready, due, places) && places == DueFrom(runs, ready, 0, fps)
    requires i < |ready| && HasFrame(due, |due|, ready[i].direction)
    ensures IsDue(runs, ready[i], fps)
  {
    hide IsDue, DueFrom;
    DueFacts(runs, ready, 0, fps);
    var j :| 0 <= j < |due| && due[j].direction == ready[i].direction;
    assert places[j] in places && places[j] == i;
  }

  /** A frame has a computed detection exactly when it is due, and then it is that of its own image. */
  lemma ComputedFor<I, D>(runs: map<string, real>, ready: seq<Frame<I>>, due: seq<Frame<I>>, places: seq<nat>,
                          computed: map<string, Detection<D>>, model: I -> D, count: nat, size: nat, fps: real, i: nat)
    requires fps > 0.0 && size > 0 && OnePerDirection(ready) && Picked(ready, due, places)
    requires places == DueFrom(runs, ready, 0, fps) && Computed(computed, due, |due|, model, count, size) && i < |ready|
    ensures ready[i].direction in computed <==> IsDue(runs, ready[i], fps)
    ensures IsDue(runs, ready[i], fps) ==>
      computed[ready[i].direction]
      == Detection(model(ready[i].image), DetectorNumber(runs, ready, i, count, size, fps), ready[i].ts)
  {
    hide IsDue, InChunk, DueBefore, DueFrom, OnePerDirection, Picked, HasFrame;
    if IsDue(runs, ready[i], fps) {
      var j := DuePlace(runs, ready, due, places, fps, i);
      assert computed[due[j].direction] == Stamped(due[j], j, model, count, size);
    }
    if ready[i].direction in computed {
      DueShared(runs, ready, due, places, fps, i);
    }
  }

  lemma NoneBefore<I>(runs: map<string, real>, frames: seq<Frame<I>>, fps: real)
    requires fps > 0.0
    ensures DueBefore(runs, frames, 0, fps) == 0
  {
  }

  function InChunk(j: nat, size: nat): nat
    requires size > 0
  {
    if j < size then j else InChunk(j - size, size)
  }

  predicate ChunkStart(start: nat, size: nat)
    requires size > 0
  {
    start == 0 || (start >= size && ChunkStart(start - size, size))
  }

  lemma {:induction false} ChunkPlace(start: nat, i: nat, size: nat)
    requires size > 0 && ChunkStart(start, size) && i < size
    ensures InChunk(start + i, size) == i
  {
    if start > 0 {
      ChunkPlace(start - size, i, size);
      assert start + i - size == start - size + i;
    }
  }

  function Stamped<I, D>(f: Frame<I>, j: nat, model: I -> D, count: nat, size: nat): Detection<D>
    requires size > 0
  {
    Detection(model(f.image), count + InChunk(j, size) + 1, f.ts)
  }

  /** The first `n` due frames, and only those, have their own detections. */
  ghost predicate Computed<I, D>(computed: map<string, Detection<D>>, due: seq<Frame<I>>, n: nat, model: I -> D,
                                 count: nat, size: nat)
    requires n <= |due| && size > 0
  {
    && (forall j | 0 <= j < n :: due[j].direction in computed)
    && (forall j | 0 <= j < n :: computed[due[j].direction] == Stamped(due[j], j, model, count, size))
    && forall d | d in computed :: HasFrame(due, n, d)
  }

  ghost predicate HasFrame<I>(due: seq<Frame<I>>, n: nat, d: string)
    requires n <= |due|
  {
    exists j | 0 <= j < n :: due[j].direction == d
  }

  lemma ComputedOne<I, D>(computed: map<string, Detection<D>>, due: seq<Frame<I>>, n: nat, model: I -> D, count: nat,
                          size: nat)
    requires n < |due| && size > 0 && OnePerDirection(due) && Computed(computed, due, n, model, count, size)
    ensures Computed(computed[due[n].direction := Stamped(due[n], n, model, count, size)], due, n + 1,
                     model, count, size)
  {
    hide Stamped, HasFrame;
    var more := computed[due[n].direction := Stamped(due[n], n, model, count, size)];
    forall d | d in more ensures HasFrame(due, n + 1, d) {
      HasOneMore(due, n, d);
    }
  }

  lemma HasOneMore<I>(due: seq<Frame<I>>, n: nat, d: string)
    requires n < |due| && (due[n].direction == d || HasFrame(due, n, d))
    ensures HasFrame(due, n + 1, d)
  {
    if due[n].direction != d {
      var j :| 0 <= j < n && due[j].direction == d;
    }
  }
}
