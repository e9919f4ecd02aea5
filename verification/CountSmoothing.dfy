/** Per-lane count smoothing, and how often the scheduler's decision flips. */
module CountSmoothing {
  import opened Signals
  import opened Rounding

  /** The readings kept for a lane and its moving average. */
  datatype LaneCount = LaneCount(history: seq<int>, ema: real)

  const UNSEEN := LaneCount([], 0.0)

  /** What analytics reports for a lane, and what the scheduler is given instead. */
  datatype Reading = Reading(live: int, pce: real)

  datatype Stabilized = Stabilized(live: int, raw: int, smoothed: real, pce: real)

  /** `append` to a deque that keeps at most `size` elements. */
  function Push(history: seq<int>, raw: int, size: nat): seq<int> {
    var longer := history + [raw];
    if |longer| <= size then longer else longer[|longer| - size..]
  }

  function Mix(alpha: real, raw: int, ema: real): real {
    alpha * raw as real + (1.0 - alpha) * ema
  }

  function Smooth(c: LaneCount, raw: int, alpha: real, size: nat): LaneCount {
    var history := Push(c.history, raw, size);
    LaneCount(history, if |history| == 1 then raw as real else Mix(alpha, raw, c.ema))
  }

  function SmoothAll(c: LaneCount, raws: seq<int>, alpha: real, size: nat): LaneCount {
    if raws == [] then c else Smooth(SmoothAll(c, raws[..|raws| - 1], alpha, size), raws[|raws| - 1], alpha, size)
  }

  /** The PCE score in proportion to the changed count. */
  function Rescaled(pce: real, live: int, raw: int): real
    requires raw > 0
  {
    Round2(pce * (live as real / raw as real))
  }

  function Publish(r: Reading, ema: real): Stabilized {
    var live := RoundHalfEven(ema);
    Stabilized(live, r.live, Round2(ema),
               if r.live > 0 && live != r.live then Rescaled(r.pce, live, r.live) else r.pce)
  }

  // ----- the history -----------------------------------------------------------------------------

  function Last(raws: seq<int>, size: nat): seq<int> {
    if |raws| <= size then raws else raws[|raws| - size..]
  }

  lemma LastPush(raws: seq<int>, raw: int, size: nat)
    ensures Push(Last(raws, size), raw, size) == Last(raws + [raw], size)
  {
  }

  /** The history holds the latest readings, as many as there is room for. */
  lemma {:induction false} HistoryIsLast(raws: seq<int>, alpha: real, size: nat)
    ensures SmoothAll(UNSEEN, raws, alpha, size).history == Last(raws, size)
  {
    hide Mix, Push, Last;
    if raws != [] {
      var init, raw := raws[..|raws| - 1], raws[|raws| - 1];
      HistoryIsLast(init, alpha, size);
      LastPush(init, raw, size);
      assert init + [raw] == raws;
    } else {
      NothingLast(size);
    }
  }

  lemma NothingLast(size: nat)
    ensures Last([], size) == []
  {
  }

  // ----- the average stays between the readings ----------------------------------------------------

  ghost predicate AllIn(raws: seq<int>, lo: int, hi: int) {
    forall i | 0 <= i < |raws| :: lo <= raws[i] <= hi
  }

  ghost predicate Between(x: real, lo: int, hi: int) {
    lo as real <= x <= hi as real
  }

  lemma NonNegative(x: real, y: real)
    requires x >= 0.0 && y >= 0.0
    ensures x * y >= 0.0
  {
  }

  lemma MixBetween(alpha: real, raw: int, ema: real, lo: int, hi: int)
    requires 0.0 <= alpha <= 1.0 && lo <= raw <= hi && Between(ema, lo, hi)
    ensures Between(Mix(alpha, raw, ema), lo, hi)
  {
    var r, l, h := raw as real, lo as real, hi as real;
    NonNegative(alpha, r - l);
    NonNegative(1.0 - alpha, ema - l);
    NonNegative(alpha, h - r);
    NonNegative(1.0 - alpha, h - ema);
    assert Mix(alpha, raw, ema) - l == alpha * (r - l) + (1.0 - alpha) * (ema - l);
    assert h - Mix(alpha, raw, ema) == alpha * (h - r) + (1.0 - alpha) * (h - ema);
  }

  lemma {:induction false} AverageBetween(raws: seq<int>, alpha: real, size: nat, lo: int, hi: int)
    requires 0.0 <= alpha <= 1.0 && (size >= 1 || alpha == 1.0) && raws != [] && AllIn(raws, lo, hi)
    ensures Between(SmoothAll(UNSEEN, raws, alpha, size).ema, lo, hi)
  {
    hide Mix;
    var init, raw := raws[..|raws| - 1], raws[|raws| - 1];
    HistoryIsLast(raws, alpha, size);
    if alpha == 1.0 {
      MixOfOne(raw, SmoothAll(UNSEEN, init, alpha, size).ema);
    } else if init != [] {
      AverageBetween(init, alpha, size, lo, hi);
      MixBetween(alpha, raw, SmoothAll(UNSEEN, init, alpha, size).ema, lo, hi);
    }
  }

  lemma MixOfOne(raw: int, ema: real)
    ensures Mix(1.0, raw, ema) == raw as real
  {
  }

  /**
   * The average never leaves the range of the readings, exactly when the history can hold one (or the past has no
   * weight at all): without room for a first reading the average starts from zero.
   */
  lemma InRangeExactly(alpha: real, size: nat)
    requires 0.0 <= alpha <= 1.0
    ensures (forall raws, lo, hi | raws != [] && AllIn(raws, lo, hi) ::
               Between(SmoothAll(UNSEEN, raws, alpha, size).ema, lo, hi))
            <==> size >= 1 || alpha == 1.0
  {
    if size >= 1 || alpha == 1.0 {
      forall raws, lo, hi | raws != [] && AllIn(raws, lo, hi)
        ensures Between(SmoothAll(UNSEEN, raws, alpha, size).ema, lo, hi)
      {
        AverageBetween(raws, alpha, size, lo, hi);
      }
    } else {
      OneReading(alpha);
      assert AllIn([1], 1, 1) && !Between(SmoothAll(UNSEEN, [1], alpha, size).ema, 1, 1);
    }
  }

  lemma OneReading(alpha: real)
    ensures SmoothAll(UNSEEN, [1], alpha, 0).ema == alpha
  {
    assert [1][..0] == [];
  }

  lemma RoundBetween(x: real, lo: int, hi: int)
    requires Between(x, lo, hi)
    ensures lo <= RoundHalfEven(x) <= hi && Between(Round2(x), lo, hi)
  {
    RoundInteger(lo);
    RoundInteger(hi);
    RoundMonotone(lo as real, x);
    RoundMonotone(x, hi as real);
    CentsInteger(lo);
    CentsInteger(hi);
    Round2Cents(lo as real);
    Round2Cents(hi as real);
    Round2Monotone(lo as real, x);
    Round2Monotone(x, hi as real);
  }

  /** So do the counts handed on: the one shown with two decimals and the whole one the scheduler uses. */
  lemma PublishedInRange(raws: seq<int>, r: Reading, alpha: real, size: nat, lo: int, hi: int)
    requires 0.0 <= alpha <= 1.0 && size >= 1 && raws != [] && AllIn(raws, lo, hi)
    ensures var out := Publish(r, SmoothAll(UNSEEN, raws, alpha, size).ema);
      lo <= out.live <= hi && Between(out.smoothed, lo, hi)
  {
    hide SmoothAll, RoundHalfEven, Round2, Rescaled;
    AverageBetween(raws, alpha, size, lo, hi);
    RoundBetween(SmoothAll(UNSEEN, raws, alpha, size).ema, lo, hi);
  }

  lemma Scale(x: real, y: real, n: real, eps: real)
    requires n > 0.0 && -eps <= x - y / n <= eps
    ensures -eps * n <= x * n - y <= eps * n
  {
    assert y == (y / n) * n;
    assert (x - y / n + eps) * n >= 0.0 && (eps - (x - y / n)) * n >= 0.0;
  }

  lemma Proportion(pce: real, live: int, raw: int)
    requires raw > 0
    ensures pce * (live as real / raw as real) == (pce * live as real) / raw as real
  {}

  lemma RescaledFacts(pce: real, live: int, raw: int)
    requires raw > 0
    ensures var n := raw as real; -0.005 * n <= Rescaled(pce, live, raw) * n - pce * live as real <= 0.005 * n
  {
    hide Round2;
    Round2Facts(pce * (live as real / raw as real));
    Proportion(pce, live, raw);
    Scale(Rescaled(pce, live, raw), pce * live as real, raw as real, 0.005);
  }

  /** The PCE score handed on is to the raw one as the smoothed count is to the raw count, to two decimals. */
  lemma PceInProportion(r: Reading, ema: real)
    requires r.live > 0
    ensures var out := Publish(r, ema); var n := r.live as real;
      -0.005 * n <= out.pce * n - r.pce * out.live as real <= 0.005 * n
  {
    hide Round2, RoundHalfEven, Rescaled;
    if RoundHalfEven(ema) != r.live {
      RescaledFacts(r.pce, RoundHalfEven(ema), r.live);
    }
  }

  /** The counts handed on are the average to the nearest whole and to two decimals; an empty lane keeps its score. */
  lemma PublishedCounts(r: Reading, ema: real)
    ensures var out := Publish(r, ema);
      && out.raw == r.live && -0.5 <= out.live as real - ema <= 0.5 && -0.005 <= out.smoothed - ema <= 0.005
      && IsCents(out.smoothed) && (r.live <= 0 ==> out.pce == r.pce)
  {
    hide Round2, IsCents;
    Round2Facts(ema);
  }

  // ----- convergence -----------------------------------------------------------------------------

  function Pow(x: real, n: nat): real {
    if n == 0 then 1.0 else Pow(x, n - 1) * x
  }

  function Repeat(raw: int, n: nat): seq<int> {
    seq(n, _ => raw)
  }

  /**
   * n equal readings shrink the distance to them by (1 - alpha) to the power n, from any lane seen before, or any lane
   * at all when nothing is kept; with a history of one every reading starts afresh.
   */
  lemma {:induction false} Convergence(c: LaneCount, raw: int, n: nat, alpha: real, size: nat)
    requires size != 1 && (c.history != [] || size == 0)
    ensures var c' := SmoothAll(c, Repeat(raw, n), alpha, size);
      c'.ema - raw as real == Pow(1.0 - alpha, n) * (c.ema - raw as real) && (c'.history != [] || size == 0)
  {
    hide Mix;
    if n > 0 {
      assert Repeat(raw, n)[..n - 1] == Repeat(raw, n - 1);
      Convergence(c, raw, n - 1, alpha, size);
      var before := SmoothAll(c, Repeat(raw, n - 1), alpha, size);
      MixDistance(alpha, raw, before.ema, Pow(1.0 - alpha, n - 1), c.ema - raw as real);
    }
  }

  lemma MixDistance(alpha: real, raw: int, ema: real, p: real, d: real)
    requires ema - raw as real == p * d
    ensures Mix(alpha, raw, ema) - raw as real == p * (1.0 - alpha) * d
  {
    assert Mix(alpha, raw, ema) - raw as real == (1.0 - alpha) * (ema - raw as real);
    assert (1.0 - alpha) * (p * d) == p * (1.0 - alpha) * d;
  }

  /** With a history of one the average is always the latest reading. */
  lemma HistoryOfOne(raws: seq<int>, alpha: real)
    requires raws != []
    ensures SmoothAll(UNSEEN, raws, alpha, 1).ema == raws[|raws| - 1] as real
  {
    HistoryIsLast(raws, alpha, 1);
  }

  // ----- decision stability ------------------------------------------------------------------------

  datatype Metrics = Metrics(total: nat, stable: nat, flipped: nat, last: Option<string>, consecutive: nat)

  const NO_DECISIONS := Metrics(0, 0, 0, None, 0)

  function Decide(m: Metrics, lane: string): Metrics {
    if m.last == Some(lane) then m.(total := m.total + 1, stable := m.stable + 1, consecutive := m.consecutive + 1)
    else Metrics(m.total + 1, m.stable, m.flipped + 1, Some(lane), 0)
  }

  function DecideAll(lanes: seq<string>): Metrics {
    if lanes == [] then NO_DECISIONS else Decide(DecideAll(lanes[..|lanes| - 1]), lanes[|lanes| - 1])
  }

  /** The lane differs from the one before, or is the first. */
  predicate ChangesAt(lanes: seq<string>, i: nat)
    requires i < |lanes|
  {
    i == 0 || lanes[i] != lanes[i - 1]
  }

  ghost function Changes(lanes: seq<string>): set<nat> {
    set i | 0 <= i < |lanes| && ChangesAt(lanes, i)
  }

  lemma ChangesOneMore(lanes: seq<string>, lane: string)
    ensures Changes(lanes + [lane])
            == Changes(lanes) + (if lanes == [] || lane != lanes[|lanes| - 1] then {|lanes|} else {})
  {
    var longer := lanes + [lane];
    assert forall i | 0 <= i < |lanes| :: ChangesAt(longer, i) == ChangesAt(lanes, i);
  }

  /** Every decision is stable or a flip, and the flips are the changes of lane, the first decision included. */
  lemma {:induction false} FlipsAreChanges(lanes: seq<string>)
    ensures var m := DecideAll(lanes);
      && m.total == |lanes| == m.stable + m.flipped && m.flipped == |Changes(lanes)|
      && m.last == (if lanes == [] then None else Some(lanes[|lanes| - 1]))
  {
    hide Changes;
    if lanes != [] {
      var init, lane := lanes[..|lanes| - 1], lanes[|lanes| - 1];
      FlipsAreChanges(init);
      ChangesOneMore(init, lane);
      assert init + [lane] == lanes;
      assert |init| !in Changes(init) by { ChangesBelow(init); }
    } else {
      ChangesBelow(lanes);
      assert Changes(lanes) == {};
    }
  }

  lemma ChangesBelow(lanes: seq<string>)
    ensures forall i | i in Changes(lanes) :: i < |lanes|
  {
  }

  /** The consecutive stable frames are exactly those since the latest flip. */
  lemma {:induction false} StableSinceFlip(lanes: seq<string>)
    requires lanes != []
    ensures var m := DecideAll(lanes);
      && m.consecutive < |lanes| && ChangesAt(lanes, |lanes| - 1 - m.consecutive)
      && (forall i | |lanes| - m.consecutive <= i < |lanes| :: !ChangesAt(lanes, i))
      && m.last == Some(lanes[|lanes| - 1])
  {
    if |lanes| > 1 {
      var init := lanes[..|lanes| - 1];
      StableSinceFlip(init);
      assert forall i | 0 <= i < |init| :: ChangesAt(lanes, i) == ChangesAt(init, i);
    }
  }

  // ----- the stabilizer ----------------------------------------------------------------------------

  class CountStabilizer {
    const alpha: real
    const historySize: nat
    var countHistory: map<string, seq<int>>
    var ema: map<string, real>
    var metrics: Metrics

    constructor (alpha: real, historySize: nat)
      ensures forall lane :: View(lane) == UNSEEN
      ensures metrics == NO_DECISIONS && this.alpha == alpha && this.historySize == historySize
    {
      this.alpha, this.historySize := alpha, historySize;
      countHistory := map["North" := [], "South" := [], "East" := [], "West" := []];
      ema := map["North" := 0.0, "South" := 0.0, "East" := 0.0, "West" := 0.0];
      metrics := NO_DECISIONS;
    }

    ghost function View(lane: string): LaneCount
      reads this
    {
      LaneCount(if lane in countHistory then countHistory[lane] else [], if lane in ema then ema[lane] else 0.0)
    }

    method Average(lane: string, raw: int) returns (next: real)
      modifies this`countHistory, this`ema
      ensures View(lane) == Smooth(old(View(lane)), raw, alpha, historySize) && next == View(lane).ema
      ensures forall l | l != lane :: View(l) == old(View(l))
    {
      var history := (if lane in countHistory then countHistory[lane] else []) + [raw];
      if |history| > historySize {
        history := history[|history| - historySize..];
      }
      countHistory := countHistory[lane := history];
      var prev := if lane in ema then ema[lane] else 0.0;
      next := if |history| == 1 then raw as real else alpha * raw as real + (1.0 - alpha) * prev;
      ema := ema[lane := next];
    }

    method StabilizeLane(lane: string, r: Reading) returns (out: Stabilized)
      modifies this`countHistory, this`ema
      ensures View(lane) == Smooth(old(View(lane)), r.live, alpha, historySize) && out == Publish(r, View(lane).ema)
      ensures forall l | l != lane :: View(l) == old(View(l))
    {
      hide Smooth, RoundHalfEven, Round2, Rescaled;
      var next := Average(lane, r.live);
      var live, pce := RoundHalfEven(next), r.pce;
      if r.live > 0 && live != r.live {
        pce := Rescaled(r.pce, live, r.live);
      }
      out := Stabilized(live, r.live, Round2(next), pce);
    }

    method Stabilize(stats: map<string, Reading>) returns (out: map<string, Stabilized>)
      modifies this`countHistory, this`ema
      ensures out.Keys == stats.Keys
      ensures forall l | l in stats :: View(l) == Smooth(old(View(l)), stats[l].live, alpha, historySize)
      ensures forall l | l in stats :: out[l] == Publish(stats[l], View(l).ema)
      ensures forall l | l !in stats :: View(l) == old(View(l))
    {
      hide Smooth, Publish;
      out := map[];
      var todo := stats.Keys;
      while todo != {}
        invariant todo <= stats.Keys && out.Keys == stats.Keys - todo
        invariant forall l | l in out :: View(l) == Smooth(old(View(l)), stats[l].live, alpha, historySize)
        invariant forall l | l in out :: out[l] == Publish(stats[l], View(l).ema)
        invariant forall l | l !in out :: View(l) == old(View(l))
      {
        var lane :| lane in todo;
        var stabilized := StabilizeLane(lane, stats[lane]);
        out := out[lane := stabilized];
        todo := todo - {lane};
      }
    }

    method UpdateDecisionStability(lane: string) returns (stable: bool)
      modifies this`metrics
      ensures metrics == Decide(old(metrics), lane) && stable == (old(metrics.last) == Some(lane))
    {
      metrics := metrics.(total := metrics.total + 1);
      if metrics.last == Some(lane) {
        metrics := metrics.(stable := metrics.stable + 1, consecutive := metrics.consecutive + 1);
        stable := true;
      } else {
        metrics := metrics.(flipped := metrics.flipped + 1, consecutive := 0, last := Some(lane));
        stable := false;
      }
    }
  }
}
