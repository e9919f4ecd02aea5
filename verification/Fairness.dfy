/**
 The starvation-prevention layer: every lane that is passed over earns a capped bonus.
 The main results are about the closed loop "rank with the bonus, serve the winner, count".
 */
module Fairness {
  import opened Rounding
  import opened Signals
  import opened StableSort

  type Waits = map<Lane, nat>

  function WaitOf(waits: Waits, lane: Lane): nat {
    if lane in waits then waits[lane] else 0
  }

  function Bonus(wait: nat, perCycle: real, cap: real): real {
    var raw := wait as real * perCycle;
    if raw <= cap then raw else cap
  }

  function Adjust(s: PriorityScore, waits: Waits, perCycle: real, cap: real): PriorityScore {
    var bonus := Bonus(WaitOf(waits, s.lane), perCycle, cap);
    PriorityScore(s.lane, Round2(s.score + bonus), 0, s.breakdown.(fairnessBonus := Round2(bonus)))
  }

  function AdjustAll(xs: seq<PriorityScore>, waits: Waits, perCycle: real, cap: real): (r: seq<PriorityScore>)
    ensures |r| == |xs|
    ensures forall i | 0 <= i < |xs| :: r[i] == Adjust(xs[i], waits, perCycle, cap)
  {
    seq(|xs|, i requires 0 <= i < |xs| => Adjust(xs[i], waits, perCycle, cap))
  }

  /** Counters after `lane` was given the green. */
  function Served(waits: Waits, lane: Lane): Waits {
    map l | l in waits.Keys + {lane} :: if l == lane then 0 else waits[l] + 1
  }

  const INITIAL_WAITS: Waits := map[North := 0, South := 0, East := 0, West := 0]

  class FairnessManager {
    const bonusPerCycle: real
    const maxBonus: real
    var cyclesSinceServed: Waits

    constructor (bonusPerCycle: real, maxBonus: real)
      ensures this.bonusPerCycle == bonusPerCycle && this.maxBonus == maxBonus
      ensures cyclesSinceServed == INITIAL_WAITS
    {
      this.bonusPerCycle := bonusPerCycle;
      this.maxBonus := maxBonus;
      cyclesSinceServed := INITIAL_WAITS;
    }

    method ApplyFairness(result: PriorityResult) returns (r: PriorityResult)
      ensures result.scores == [] ==> r == result
      ensures result.scores != [] ==>
        r.scores == Ranked(SortDesc(AdjustAll(result.scores, cyclesSinceServed, bonusPerCycle, maxBonus), ScoreOf))
        && r.scores != [] && r.highest == Some(r.scores[0])
    {
      if result.scores == [] {
        return result;
      }
      var adjusted: seq<PriorityScore> := [];
      var i := 0;
      while i < |result.scores|
        invariant 0 <= i <= |result.scores| && |adjusted| == i
        invariant forall j | 0 <= j < i ::
          adjusted[j] == Adjust(result.scores[j], cyclesSinceServed, bonusPerCycle, maxBonus)
      {
        var base := result.scores[i];
        var waitCycles := if base.lane in cyclesSinceServed then cyclesSinceServed[base.lane] else 0;
        var bonus := Bonus(waitCycles, bonusPerCycle, maxBonus);
        adjusted := adjusted + [PriorityScore(base.lane, Round2(base.score + bonus), 0,
                                              base.breakdown.(fairnessBonus := Round2(bonus)))];
        i := i + 1;
      }
      assert adjusted == AdjustAll(result.scores, cyclesSinceServed, bonusPerCycle, maxBonus);
      SortFacts(adjusted, ScoreOf);
      var sorted := AssignRanks(SortDesc(adjusted, ScoreOf));
      r := PriorityResult(sorted, Some(sorted[0]));
    }

    method UpdateServed(lane: Lane)
      modifies this`cyclesSinceServed
      ensures cyclesSinceServed == Served(old(cyclesSinceServed), lane)
    {
      if lane !in cyclesSinceServed {
        cyclesSinceServed := cyclesSinceServed[lane := 0];
      }
      ghost var start := cyclesSinceServed;
      var names := cyclesSinceServed.Keys;
      while names != {}
        invariant names <= start.Keys && cyclesSinceServed.Keys == start.Keys
        invariant forall l | l in start ::
          cyclesSinceServed[l] == if l in names then start[l] else if l == lane then 0 else start[l] + 1
      {
        var l :| l in names;
        cyclesSinceServed := cyclesSinceServed[l := if l == lane then 0 else cyclesSinceServed[l] + 1];
        names := names - {l};
      }
      assert start.Keys == old(cyclesSinceServed).Keys + {lane};
    }
  }

  // ----- the closed loop ---------------------------------------------------------------------

  /** Exactly the four approaches, each once. */
  ghost predicate FourScores(xs: seq<PriorityScore>) {
    && |xs| == 4
    && (forall i, j | 0 <= i < j < 4 :: xs[i].lane != xs[j].lane)
    && (forall i | 0 <= i < 4 :: xs[i].lane in FOUR_LANES)
  }

  ghost predicate SpreadBelow(xs: seq<PriorityScore>, limit: real) {
    forall i, j | 0 <= i < |xs| && 0 <= j < |xs| :: xs[i].score - xs[j].score < limit
  }

  /** Four scores in every round, spread by less than this. */
  ghost predicate FourEach(rounds: seq<seq<PriorityScore>>, spread: real) {
    forall i | 0 <= i < |rounds| :: FourScores(rounds[i]) && SpreadBelow(rounds[i], spread)
  }

  /** Base score plus bonus, before it is rounded for publication. */
  function Total(waits: Waits, perCycle: real, cap: real): PriorityScore -> real {
    (s: PriorityScore) => s.score + Bonus(WaitOf(waits, s.lane), perCycle, cap)
  }

  /** Who is served: the first lane with the largest base score plus bonus. */
  function Winner(xs: seq<PriorityScore>, waits: Waits, perCycle: real, cap: real): Lane
    requires xs != []
  {
    FirstBest(xs, Total(waits, perCycle, cap)).lane
  }

  /** Counters after a run of rounds, one list of base scores each; a round without scores serves nobody. */
  function Loop(rounds: seq<seq<PriorityScore>>, perCycle: real, cap: real): Waits
  {
    if rounds == [] then INITIAL_WAITS
    else
      var before := Loop(rounds[..|rounds| - 1], perCycle, cap);
      var last := rounds[|rounds| - 1];
      if last == [] then before else Served(before, Winner(last, before, perCycle, cap))
  }

  ghost predicate AllCents(xs: seq<PriorityScore>) {
    forall i | 0 <= i < |xs| :: IsCents(xs[i].score)
  }

  /** Two-decimal scores and bonuses pass through the rounding unchanged, so the head of the
      published ranking is Winner. */
  lemma RankingHead(xs: seq<PriorityScore>, waits: Waits, perCycle: real, cap: real)
    requires xs != [] && AllCents(xs) && IsCents(perCycle) && IsCents(cap)
    ensures SortDesc(AdjustAll(xs, waits, perCycle, cap), ScoreOf) != []
    ensures SortDesc(AdjustAll(xs, waits, perCycle, cap), ScoreOf)[0].lane == Winner(xs, waits, perCycle, cap)
  {
    var adjusted, total := AdjustAll(xs, waits, perCycle, cap), Total(waits, perCycle, cap);
    forall i | 0 <= i < |xs| ensures ScoreOf(adjusted[i]) == total(xs[i]) {
      AdjustExact(xs[i], waits, perCycle, cap);
    }
    var i := FirstBestFacts(xs, total);
    FirstBestIs(adjusted, ScoreOf, i);
    SortHead(adjusted, ScoreOf);
  }

  /** One round of the closed loop, run through the class, is one round of Loop. */
  method ServeRound(f: FairnessManager, base: PriorityResult) returns (green: Lane)
    requires base.scores != [] && AllCents(base.scores) && IsCents(f.bonusPerCycle) && IsCents(f.maxBonus)
    modifies f`cyclesSinceServed
    ensures green == Winner(base.scores, old(f.cyclesSinceServed), f.bonusPerCycle, f.maxBonus)
    ensures f.cyclesSinceServed == Served(old(f.cyclesSinceServed), green)
  {
    RankingHead(base.scores, f.cyclesSinceServed, f.bonusPerCycle, f.maxBonus);
    var r := f.ApplyFairness(base);
    green := r.highest.value.lane;
    f.UpdateServed(green);
  }

  ghost predicate SomeWait(waits: Waits, n: nat) {
    exists l :: l in waits && waits[l] == n
  }

  /** What every round keeps: a lane that has waited long sees fresher rivals at 0, 1 and 2. */
  ghost predicate Fair(waits: Waits, limit: nat) {
    && waits.Keys == FOUR_LANES
    && forall l | l in waits ::
         && waits[l] <= limit
         && (waits[l] >= 1 ==> SomeWait(waits, 0))
         && (waits[l] >= limit - 1 ==> SomeWait(waits, 1))
         && (waits[l] >= limit ==> SomeWait(waits, 2))
  }

  /** `limit` rounds of waiting reach the cap, and no fewer. */
  predicate CapReachedAt(limit: nat, perCycle: real, cap: real) {
    limit as real * perCycle - perCycle < cap <= limit as real * perCycle
  }

  lemma BonusMonotone(v: nat, w: nat, perCycle: real, cap: real)
    requires v <= w && perCycle >= 0.0
    ensures Bonus(v, perCycle, cap) <= Bonus(w, perCycle, cap)
  {
    assert w as real * perCycle - v as real * perCycle == (w - v) as real * perCycle >= 0.0;
  }

  lemma BonusCents(w: nat, perCycle: real, cap: real)
    requires IsCents(perCycle) && IsCents(cap)
    ensures IsCents(Bonus(w, perCycle, cap))
  {
    CentsMultiple(w, perCycle);
  }

  lemma AdjustExact(s: PriorityScore, waits: Waits, perCycle: real, cap: real)
    requires IsCents(s.score) && IsCents(perCycle) && IsCents(cap)
    ensures Adjust(s, waits, perCycle, cap).score == s.score + Bonus(WaitOf(waits, s.lane), perCycle, cap)
  {
    var bonus := Bonus(WaitOf(waits, s.lane), perCycle, cap);
    BonusCents(WaitOf(waits, s.lane), perCycle, cap);
    CentsSum(s.score, bonus);
    Round2Cents(s.score + bonus);
  }

  /** A published score is the base score with the bonus, and its breakdown shows that bonus, both to two decimals. */
  lemma AdjustedFigures(s: PriorityScore, waits: Waits, perCycle: real, cap: real)
    ensures var r := Adjust(s, waits, perCycle, cap); var bonus := Bonus(WaitOf(waits, s.lane), perCycle, cap);
      && r.lane == s.lane && -0.005 <= r.score - (s.score + bonus) <= 0.005
      && -0.005 <= r.breakdown.fairnessBonus - bonus <= 0.005 && IsCents(r.score) && IsCents(r.breakdown.fairnessBonus)
      && r.breakdown.(fairnessBonus := 0.0) == s.breakdown.(fairnessBonus := 0.0)
  {
    hide Round2, IsCents, Bonus;
    var bonus := Bonus(WaitOf(waits, s.lane), perCycle, cap);
    Round2Facts(bonus);
    Round2Facts(s.score + bonus);
  }

  /** No lane has a larger total than the winner. */
  lemma WinnerBeats(xs: seq<PriorityScore>, waits: Waits, perCycle: real, cap: real, other: nat)
      returns (won: nat)
    requires FourScores(xs) && other < 4
    ensures won < 4 && xs[won].lane == Winner(xs, waits, perCycle, cap)
    ensures xs[won].score + Bonus(WaitOf(waits, xs[won].lane), perCycle, cap)
         >= xs[other].score + Bonus(WaitOf(waits, xs[other].lane), perCycle, cap)
  {
    var total := Total(waits, perCycle, cap);
    won := FirstBestFacts(xs, total);
    assert total(xs[won]) >= total(xs[other]);
  }

  /** A bonus within cap - 2 * perCycle of that of a lane near saturation takes this many rounds. */
  lemma WaitGap(mine: nat, rival: nat, perCycle: real, cap: real, limit: nat)
    requires perCycle > 0.0 && CapReachedAt(limit, perCycle, cap) && limit - 2 <= mine <= limit
    requires Bonus(rival, perCycle, cap) > Bonus(mine, perCycle, cap) - cap + 2.0 * perCycle
    ensures rival >= mine - limit + 3
  {
    var gap := limit - mine;
    assert mine as real * perCycle == limit as real * perCycle - gap as real * perCycle;
    assert gap as real * perCycle == if gap == 0 then 0.0 else if gap == 1 then perCycle else 2.0 * perCycle;
    assert rival as real * perCycle > 2.0 * perCycle - gap as real * perCycle;
    assert (2 - gap) as real * perCycle == 2.0 * perCycle - gap as real * perCycle;
    MulOrder(rival, 2 - gap, perCycle);
  }

  /** Under the spread bound, a lane about to saturate only loses to a lane that has waited too. */
  lemma WinnerHasWaited(xs: seq<PriorityScore>, waits: Waits, perCycle: real, cap: real, limit: nat, lane: Lane)
    requires FourScores(xs) && waits.Keys == FOUR_LANES && perCycle > 0.0
    requires CapReachedAt(limit, perCycle, cap) && SpreadBelow(xs, cap - 2.0 * perCycle)
    requires lane in waits && limit - 2 <= waits[lane] <= limit
    ensures WaitOf(waits, Winner(xs, waits, perCycle, cap)) >= waits[lane] - limit + 3
  {
    var other := IndexOf(xs, lane);
    var won := WinnerBeats(xs, waits, perCycle, cap, other);
    assert xs[won].score - xs[other].score < cap - 2.0 * perCycle;
    WaitGap(waits[lane], WaitOf(waits, xs[won].lane), perCycle, cap, limit);
  }

  lemma IndexOf(xs: seq<PriorityScore>, lane: Lane) returns (i: nat)
    requires FourScores(xs) && lane in FOUR_LANES
    ensures i < 4 && xs[i].lane == lane
  {
    FiveLanes(lane, xs[0].lane, xs[1].lane, xs[2].lane, xs[3].lane);
    i :| 0 <= i < 4 && xs[i].lane == lane;
  }

  /** A round keeps the invariant. */
  lemma RoundKeepsFair(xs: seq<PriorityScore>, waits: Waits, perCycle: real, cap: real, limit: nat)
    requires FourScores(xs) && perCycle > 0.0
    requires CapReachedAt(limit, perCycle, cap) && SpreadBelow(xs, cap - 2.0 * perCycle)
    requires Fair(waits, limit)
    ensures Fair(Served(waits, Winner(xs, waits, perCycle, cap)), limit)
  {
    hide CapReachedAt, Bonus, Winner, SpreadBelow;
    var won := WinnerBeats(xs, waits, perCycle, cap, 0);
    var green := Winner(xs, waits, perCycle, cap);
    WinnerListed(xs, waits, perCycle, cap);
    var next := Served(waits, green);
    LimitAtLeastThree(xs, perCycle, cap, limit);
    assert next[green] == 0;
    forall l | l in next && l != green
      ensures next[l] <= limit
      ensures next[l] >= limit - 1 ==> SomeWait(next, 1)
      ensures next[l] >= limit ==> SomeWait(next, 2)
    {
      if waits[l] >= limit - 2 {
        WinnerHasWaited(xs, waits, perCycle, cap, limit, l);
        PassedOver(waits, limit, green, l);
      }
    }
  }

  lemma WinnerListed(xs: seq<PriorityScore>, waits: Waits, perCycle: real, cap: real)
    requires FourScores(xs)
    ensures Winner(xs, waits, perCycle, cap) in FOUR_LANES
  {
    hide Bonus;
    var i := FirstBestFacts(xs, Total(waits, perCycle, cap));
  }

  /** A lane near the limit that is passed over in favour of one that has waited too. */
  lemma PassedOver(waits: Waits, limit: nat, green: Lane, l: Lane)
    requires Fair(waits, limit) && limit >= 3 && green in FOUR_LANES && l in FOUR_LANES && l != green
    requires waits[l] >= limit - 2 && waits[green] >= waits[l] - limit + 3
    ensures var next := Served(waits, green);
      && next[l] <= limit && (next[l] >= limit - 1 ==> SomeWait(next, 1)) && (next[l] >= limit ==> SomeWait(next, 2))
  {
    hide SomeWait;
    var next := Served(waits, green);
    var a := WaitOne(waits, 0);
    NowWaits(next, a, 1);
    if waits[l] >= limit - 1 {
      var b := WaitOne(waits, 1);
      NowWaits(next, b, 2);
      if waits[l] == limit {
        NobodyAtTwo(waits, green, l, a, b);
      }
    }
  }

  lemma WaitOne(waits: Waits, n: nat) returns (l: Lane)
    requires SomeWait(waits, n)
    ensures l in waits && waits[l] == n
  {
    l :| l in waits && waits[l] == n;
  }

  lemma NowWaits(waits: Waits, l: Lane, n: nat)
    requires l in waits && waits[l] == n
    ensures SomeWait(waits, n)
  {}

  /** Two lanes at three or more, one at zero and one at one: there is no fifth. */
  lemma NobodyAtTwo(waits: Waits, green: Lane, l: Lane, a: Lane, b: Lane)
    requires waits.Keys == FOUR_LANES && green in waits && l in waits && a in waits && b in waits && l != green
    requires waits[green] >= 3 && waits[l] >= 3 && waits[a] == 0 && waits[b] == 1
    ensures !SomeWait(waits, 2)
  {
    if c :| c in waits && waits[c] == 2 {
      FiveLanes(l, green, a, b, c);
    }
  }

  lemma FiveLanes(a: Lane, b: Lane, c: Lane, d: Lane, e: Lane)
    requires {a, b, c, d, e} <= FOUR_LANES
    ensures a == b || a == c || a == d || a == e || b == c || b == d || b == e || c == d || c == e || d == e
  {
    assert a in FOUR_LANES && b in FOUR_LANES && c in FOUR_LANES && d in FOUR_LANES && e in FOUR_LANES;
  }

  lemma LimitAtLeastThree(xs: seq<PriorityScore>, perCycle: real, cap: real, limit: nat)
    requires FourScores(xs) && perCycle > 0.0
    requires CapReachedAt(limit, perCycle, cap) && SpreadBelow(xs, cap - 2.0 * perCycle)
    ensures limit >= 3
  {
    assert xs[0].score - xs[0].score < cap - 2.0 * perCycle;
    assert 2 as real * perCycle == 2.0 * perCycle;
    MulOrder(limit, 2, perCycle);
  }

  /**
   Bounded waiting: while base scores are spread by strictly less than cap - 2 * perCycle, no lane
   ever waits more rounds than it takes the bonus to reach its cap (5 with the shipped 5.0 and 25.0).
   */
  lemma {:induction false} BoundedWait(rounds: seq<seq<PriorityScore>>, perCycle: real, cap: real, limit: nat)
    requires perCycle > 0.0 && CapReachedAt(limit, perCycle, cap)
    requires FourEach(rounds, cap - 2.0 * perCycle)
    ensures Loop(rounds, perCycle, cap).Keys == FOUR_LANES
    ensures forall l :: WaitOf(Loop(rounds, perCycle, cap), l) <= limit
  {
    if rounds != [] {
      LoopIsFair(rounds, perCycle, cap, limit);
    }
  }

  lemma {:induction false} LoopIsFair(rounds: seq<seq<PriorityScore>>, perCycle: real, cap: real, limit: nat)
    requires rounds != []
    requires perCycle > 0.0 && CapReachedAt(limit, perCycle, cap)
    requires FourEach(rounds, cap - 2.0 * perCycle)
    ensures Fair(Loop(rounds, perCycle, cap), limit)
  {
    var n := |rounds| - 1;
    var last := rounds[n];
    LimitAtLeastThree(last, perCycle, cap, limit);
    var before := Loop(rounds[..n], perCycle, cap);
    if n > 0 {
      LoopIsFair(rounds[..n], perCycle, cap, limit);
    }
    RoundKeepsFair(last, before, perCycle, cap, limit);
  }

  // ----- the bound is attained, and the spread condition is exact --------------------------------

  const NO_BREAKDOWN := Breakdown(0.0, 0.0, 0.0, 0.0, 0.0, 0.0, 0.0)

  function BusyLane(i: nat): Lane {
    if i == 0 then North else if i == 1 then East else South
  }

  /** Three lanes with base score s ahead of an idle West. */
  function Busy(s: real): (xs: seq<PriorityScore>)
    ensures |xs| == 4
  {
    [PriorityScore(BusyLane(0), s, 1, NO_BREAKDOWN), PriorityScore(BusyLane(1), s, 2, NO_BREAKDOWN),
     PriorityScore(BusyLane(2), s, 3, NO_BREAKDOWN), PriorityScore(West, 0.0, 4, NO_BREAKDOWN)]
  }

  function Repeat(s: real, n: nat): (r: seq<seq<PriorityScore>>)
    ensures |r| == n && forall i | 0 <= i < n :: r[i] == Busy(s)
  {
    seq(n, i => Busy(s))
  }

  /** Rounds since busy lane i was served, after n rounds of taking turns. */
  function Age(n: nat, i: nat): nat
    requires i < 3
  {
    if n < 2 then (if n == 0 || i == 0 then 0 else 1) else (n + 2 - i) % 3
  }

  lemma AgeStep(n: nat, i: nat)
    requires i < 3
    ensures Age(n + 1, i) == if i == n % 3 then 0 else Age(n, i) + 1
    ensures Age(n, n % 3) == if n < 2 then n else 2
    ensures i < n % 3 ==> Age(n, i) < Age(n, n % 3)
    ensures i != n % 3 ==> Age(n, i) <= Age(n, n % 3) && (n >= 2 ==> Age(n, i) < 2)
  {}

  /** Counters after n such rounds: the three busy lanes rotate, West only waits. */
  function Rotation(n: nat): Waits {
    map[North := Age(n, 0), East := Age(n, 1), South := Age(n, 2), West := n]
  }

  /** The spread of these scores is exactly s. */
  lemma BusyIsFour(s: real)
    requires s >= 0.0
    ensures FourScores(Busy(s)) && forall limit :: SpreadBelow(Busy(s), limit) <==> s < limit
  {
    forall limit ensures SpreadBelow(Busy(s), limit) <==> s < limit {
      if SpreadBelow(Busy(s), limit) {
        assert Busy(s)[0].score - Busy(s)[3].score < limit;
      }
    }
  }

  lemma BusyCents(s: real)
    ensures IsCents(s) ==> AllCents(Busy(s))
  {
    CentsInteger(0);
  }

  /** Among the busy lanes the first of those with the largest bonus wins. */
  lemma BusyWinner(s: real, waits: Waits, perCycle: real, cap: real, green: nat)
    requires green < 3
    requires forall i | 0 <= i < green ::
      Bonus(WaitOf(waits, BusyLane(i)), perCycle, cap) < Bonus(WaitOf(waits, BusyLane(green)), perCycle, cap)
    requires forall i | green < i < 3 ::
      Bonus(WaitOf(waits, BusyLane(i)), perCycle, cap) <= Bonus(WaitOf(waits, BusyLane(green)), perCycle, cap)
    requires Bonus(WaitOf(waits, West), perCycle, cap) <= s + Bonus(WaitOf(waits, BusyLane(green)), perCycle, cap)
    ensures Winner(Busy(s), waits, perCycle, cap) == BusyLane(green)
  {
    var xs, total := Busy(s), Total(waits, perCycle, cap);
    assert forall i | 0 <= i < 3 :: total(xs[i]) == s + Bonus(WaitOf(waits, BusyLane(i)), perCycle, cap);
    assert total(xs[3]) == Bonus(WaitOf(waits, West), perCycle, cap);
    FirstBestIs(xs, total, green);
  }

  lemma SmallBonuses(perCycle: real, cap: real)
    requires 0.0 < 2.0 * perCycle <= cap
    ensures Bonus(0, perCycle, cap) == 0.0 && Bonus(1, perCycle, cap) == perCycle
            && Bonus(2, perCycle, cap) == 2.0 * perCycle
  {
    assert 0.0 == 0 as real * perCycle && perCycle == 1 as real * perCycle && 2.0 * perCycle == 2 as real * perCycle;
  }

  lemma RotationServed(n: nat)
    ensures Served(Rotation(n), BusyLane(n % 3)) == Rotation(n + 1)
  {
    hide Age;
    AgeStep(n, 0);
    AgeStep(n, 1);
    AgeStep(n, 2);
    ServedTable(Age(n, 0), Age(n, 1), Age(n, 2), n, n % 3);
  }

  /** Four counters after one of the three busy lanes was served. */
  lemma ServedTable(a: nat, b: nat, c: nat, d: nat, i: nat)
    requires i < 3
    ensures Served(map[North := a, East := b, South := c, West := d], BusyLane(i))
            == map[North := if i == 0 then 0 else a + 1, East := if i == 1 then 0 else b + 1,
                   South := if i == 2 then 0 else c + 1, West := d + 1]
  {
  }

  lemma RotationBonus(n: nat, i: nat, perCycle: real, cap: real)
    requires i < 3 && 0.0 < 2.0 * perCycle <= cap
    ensures WaitOf(Rotation(n), BusyLane(i)) == Age(n, i)
    ensures i < n % 3 ==> Bonus(Age(n, i), perCycle, cap) < Bonus(Age(n, n % 3), perCycle, cap)
    ensures Bonus(Age(n, i), perCycle, cap) <= Bonus(Age(n, n % 3), perCycle, cap)
    ensures n >= 2 ==> Bonus(Age(n, n % 3), perCycle, cap) == 2.0 * perCycle
    ensures n < 2 ==> Bonus(Age(n, n % 3), perCycle, cap) == Bonus(n, perCycle, cap)
  {
    AgeStep(n, i);
    SmallBonuses(perCycle, cap);
  }

  lemma RotationWinner(s: real, n: nat, perCycle: real, cap: real)
    requires s >= 0.0 && 0.0 < 2.0 * perCycle <= cap
    requires Bonus(n, perCycle, cap) <= s + 2.0 * perCycle
    ensures Winner(Busy(s), Rotation(n), perCycle, cap) == BusyLane(n % 3)
  {
    forall i | 0 <= i < 3
      ensures WaitOf(Rotation(n), BusyLane(i)) == Age(n, i)
      ensures i < n % 3 ==> Bonus(Age(n, i), perCycle, cap) < Bonus(Age(n, n % 3), perCycle, cap)
      ensures Bonus(Age(n, i), perCycle, cap) <= Bonus(Age(n, n % 3), perCycle, cap)
    {
      RotationBonus(n, i, perCycle, cap);
    }
    RotationBonus(n, n % 3, perCycle, cap);
    BusyWinner(s, Rotation(n), perCycle, cap, n % 3);
  }

  lemma {:induction false} RotationRuns(s: real, n: nat, perCycle: real, cap: real)
    requires s >= 0.0 && 0.0 < 2.0 * perCycle <= cap
    requires n > 0 ==> Bonus(n - 1, perCycle, cap) <= s + 2.0 * perCycle
    ensures Loop(Repeat(s, n), perCycle, cap) == Rotation(n)
  {
    if n > 0 {
      assert Repeat(s, n)[..n - 1] == Repeat(s, n - 1);
      if n > 1 {
        BonusMonotone(n - 2, n - 1, perCycle, cap);
      }
      RotationRuns(s, n - 1, perCycle, cap);
      RotationWinner(s, n - 1, perCycle, cap);
      RotationServed(n - 1);
    }
  }

  /** At a spread of cap - 2 * perCycle the guarantee is lost: West is never served, however long the run. */
  lemma StarvationAtTheBoundary(s: real, n: nat, perCycle: real, cap: real)
    requires s >= 0.0 && 0.0 < 2.0 * perCycle <= cap
    requires s >= cap - 2.0 * perCycle
    ensures FourScores(Busy(s)) && (IsCents(s) ==> AllCents(Busy(s)))
    ensures forall limit :: SpreadBelow(Busy(s), limit) <==> s < limit
    ensures WaitOf(Loop(Repeat(s, n), perCycle, cap), West) == n
  {
    BusyIsFour(s);
    BusyCents(s);
    RotationRuns(s, n, perCycle, cap);
  }

  /** The bound itself is reached: some lane does wait `limit` rounds within the allowed spread. */
  lemma BoundAttained(s: real, perCycle: real, cap: real, limit: nat)
    requires IsCents(s) && perCycle > 0.0 && CapReachedAt(limit, perCycle, cap)
    requires 0.0 <= s && limit as real * perCycle - 3.0 * perCycle <= s < cap - 2.0 * perCycle
    ensures FourScores(Busy(s)) && SpreadBelow(Busy(s), cap - 2.0 * perCycle) && AllCents(Busy(s))
    ensures WaitOf(Loop(Repeat(s, limit), perCycle, cap), West) == limit
  {
    BusyIsFour(s);
    BusyCents(s);
    if limit > 0 {
      assert (limit - 1) as real * perCycle == limit as real * perCycle - perCycle;
    }
    RotationRuns(s, limit, perCycle, cap);
  }

  /** Nobody waits more than n rounds while base scores are spread by less than this. */
  ghost predicate WaitsAtMost(n: nat, spread: real, perCycle: real, cap: real) {
    forall rounds, l | FourEach(rounds, spread) && l in FOUR_LANES :: WaitOf(Loop(rounds, perCycle, cap), l) <= n
  }

  lemma NarrowerIsWithin(rounds: seq<seq<PriorityScore>>, spread: real, wider: real)
    requires FourEach(rounds, spread) && spread <= wider
    ensures FourEach(rounds, wider)
  {
    hide FourScores;
    forall i | 0 <= i < |rounds| ensures SpreadBelow(rounds[i], wider) {
      assert SpreadBelow(rounds[i], spread);
    }
  }

  lemma RepeatIsWithin(s: real, n: nat, spread: real)
    requires FourScores(Busy(s)) && SpreadBelow(Busy(s), spread)
    ensures FourEach(Repeat(s, n), spread)
  {
    hide FourScores, SpreadBelow, Busy;
  }

  /** The spread up to which waiting is bounded, by `limit` or by anything larger, is exactly cap - 2 * perCycle. */
  lemma SpreadExactly(n: nat, limit: nat, spread: real, perCycle: real, cap: real)
    requires 0.0 < 2.0 * perCycle <= cap && CapReachedAt(limit, perCycle, cap) && limit <= n
    ensures WaitsAtMost(n, spread, perCycle, cap) <==> spread <= cap - 2.0 * perCycle
  {
    hide Loop, SpreadBelow, FourScores, CapReachedAt, FourEach, WaitOf, Repeat;
    if spread <= cap - 2.0 * perCycle {
      forall rounds, l | FourEach(rounds, spread) && l in FOUR_LANES
        ensures WaitOf(Loop(rounds, perCycle, cap), l) <= n
      {
        NarrowerIsWithin(rounds, spread, cap - 2.0 * perCycle);
        BoundedWait(rounds, perCycle, cap, limit);
      }
    } else {
      var s := cap - 2.0 * perCycle;
      StarvationAtTheBoundary(s, n + 1, perCycle, cap);
      RepeatIsWithin(s, n + 1, spread);
      assert WaitOf(Loop(Repeat(s, n + 1), perCycle, cap), West) == n + 1;
    }
  }

  /** With the shipped configuration: 5.0 per cycle, capped at 25.0, a spread below 15.0 means at most 5 rounds. */
  lemma ShippedBound(rounds: seq<seq<PriorityScore>>, perCycle: real, cap: real)
    requires perCycle == 5.0 && cap == 25.0
    requires FourEach(rounds, 15.0)
    ensures forall l | l in FOUR_LANES :: WaitOf(Loop(rounds, perCycle, cap), l) <= 5
  {
    BoundedWait(rounds, perCycle, cap, 5);
  }
}
