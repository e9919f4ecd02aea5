/**
 Average precision of a list of outcomes against `total` ground truths: for each true positive, the
 best precision from there on, averaged over the ground truths.
 */
module AveragePrecision {

  function CountTrue(flags: seq<bool>): nat {
    if flags == [] then 0 else CountTrue(flags[..|flags| - 1]) + if flags[|flags| - 1] then 1 else 0
  }

  lemma {:induction false} CountTrueBounds(flags: seq<bool>, n: nat)
    requires n <= |flags|
    ensures CountTrue(flags[..n]) <= n
    ensures CountTrue(flags[..n]) == n <==> forall i | 0 <= i < n :: flags[i]
  {
    if n > 0 {
      assert flags[..n][..n - 1] == flags[..n - 1];
      CountTrueBounds(flags, n - 1);
    }
  }

  lemma {:induction false} CountTrueMonotone(flags: seq<bool>, m: nat, n: nat)
    requires m <= n <= |flags|
    ensures CountTrue(flags[..m]) <= CountTrue(flags[..n])
    decreases n
  {
    if m < n {
      assert flags[..n][..n - 1] == flags[..n - 1];
      CountTrueMonotone(flags, m, n - 1);
    }
  }

  /** The hits among the first `n` outcomes. */
  ghost function Hits(flags: seq<bool>, n: nat): set<nat>
    requires n <= |flags|
  {
    set i | 0 <= i < n && flags[i]
  }

  lemma {:induction false} CountTrueIsHits(flags: seq<bool>, n: nat)
    requires n <= |flags|
    ensures CountTrue(flags[..n]) == |Hits(flags, n)|
  {
    if n > 0 {
      assert flags[..n][..n - 1] == flags[..n - 1];
      CountTrueIsHits(flags, n - 1);
      assert Hits(flags, n) == Hits(flags, n - 1) + if flags[n - 1] then {n - 1} else {};
    } else {
      assert Hits(flags, 0) == {};
    }
  }

  function Precision(flags: seq<bool>, j: nat): real
    requires j < |flags|
  {
    CountTrue(flags[..j + 1]) as real / (j + 1) as real
  }

  /** The largest precision at or after position j; zero past the end. */
  function BestFrom(flags: seq<bool>, j: nat): real
    requires j <= |flags|
    decreases |flags| - j
  {
    if j == |flags| then 0.0
    else if Precision(flags, j) >= BestFrom(flags, j + 1) then Precision(flags, j)
    else BestFrom(flags, j + 1)
  }

  function BestSum(flags: seq<bool>, j: nat): real
    requires j <= |flags|
    decreases |flags| - j
  {
    if j == |flags| then 0.0 else (if flags[j] then BestFrom(flags, j) else 0.0) + BestSum(flags, j + 1)
  }

  function ApOf(flags: seq<bool>, total: nat): real {
    if total == 0 || flags == [] then 0.0 else BestSum(flags, 0) / total as real
  }

  lemma PrecisionBounds(flags: seq<bool>, j: nat)
    requires j < |flags|
    ensures 0.0 <= Precision(flags, j) <= 1.0
    ensures Precision(flags, j) == 1.0 <==> forall i | 0 <= i <= j :: flags[i]
  {
    CountTrueBounds(flags, j + 1);
    Quotient(CountTrue(flags[..j + 1]), j + 1);
  }

  lemma Quotient(a: nat, b: nat)
    requires a <= b && b > 0
    ensures 0.0 <= a as real / b as real <= 1.0
    ensures a as real / b as real == 1.0 <==> a == b
  {}

  /** BestFrom is the suffix maximum, attained when there is a suffix. */
  lemma {:induction false} BestFromIsMax(flags: seq<bool>, j: nat)
    requires j <= |flags|
    ensures 0.0 <= BestFrom(flags, j) <= 1.0
    ensures forall m | j <= m < |flags| :: Precision(flags, m) <= BestFrom(flags, j)
    ensures j < |flags| ==> exists m :: j <= m < |flags| && Precision(flags, m) == BestFrom(flags, j)
    decreases |flags| - j
  {
    if j < |flags| {
      PrecisionBounds(flags, j);
      BestFromIsMax(flags, j + 1);
      if BestFrom(flags, j) != Precision(flags, j) && j + 1 < |flags| {
        var m :| j + 1 <= m < |flags| && Precision(flags, m) == BestFrom(flags, j + 1);
      }
    }
  }

  /** Hits from position j on. */
  function TrueFrom(flags: seq<bool>, j: nat): nat
    requires j <= |flags|
    decreases |flags| - j
  {
    if j == |flags| then 0 else (if flags[j] then 1 else 0) + TrueFrom(flags, j + 1)
  }

  lemma {:induction false} TrueFromSplit(flags: seq<bool>, j: nat)
    requires j <= |flags|
    ensures CountTrue(flags[..j]) + TrueFrom(flags, j) == CountTrue(flags)
    decreases |flags| - j
  {
    if j < |flags| {
      TrueFromSplit(flags, j + 1);
      assert flags[..j + 1][..j] == flags[..j];
    } else {
      assert flags[..j] == flags;
    }
  }

  lemma {:induction false} BestSumBounds(flags: seq<bool>, j: nat)
    requires j <= |flags|
    ensures 0.0 <= BestSum(flags, j) <= TrueFrom(flags, j) as real
    ensures BestSum(flags, j) == TrueFrom(flags, j) as real ==> forall m | j <= m < |flags| && flags[m] ::
      BestFrom(flags, m) == 1.0
    ensures (forall m | j <= m < |flags| && flags[m] :: BestFrom(flags, m) == 1.0) ==>
      BestSum(flags, j) == TrueFrom(flags, j) as real
    decreases |flags| - j
  {
    if j < |flags| {
      BestFromIsMax(flags, j);
      BestSumBounds(flags, j + 1);
    }
  }

  lemma DivideLe(x: real, y: real, d: real)
    requires x <= y && d > 0.0
    ensures x / d <= y / d
  {}

  /** Average precision lies between zero and the final recall. */
  lemma ApBounds(flags: seq<bool>, total: nat)
    requires total > 0 && CountTrue(flags) <= total
    ensures 0.0 <= ApOf(flags, total) <= CountTrue(flags) as real / total as real <= 1.0
  {
    TrueFromSplit(flags, 0);
    BestSumBounds(flags, 0);
    Quotient(CountTrue(flags), total);
    DivideLe(BestSum(flags, 0), CountTrue(flags) as real, total as real);
    DivideLe(0.0, BestSum(flags, 0), total as real);
  }

  /** It is 1 exactly when the first `total` predictions all hit, so that nothing wrong ranks above a hit. */
  lemma ApIsOne(flags: seq<bool>, total: nat)
    requires total > 0 && CountTrue(flags) <= total
    ensures ApOf(flags, total) == 1.0 <==> total <= |flags| && forall i | 0 <= i < total :: flags[i]
  {
    TrueFromSplit(flags, 0);
    BestSumBounds(flags, 0);
    var perfect := total <= |flags| && forall i | 0 <= i < total :: flags[i];
    if perfect {
      PerfectSum(flags, total);
      Quotient(total, total);
    } else if ApOf(flags, total) == 1.0 {
      assert BestSum(flags, 0) == total as real by {
        assert flags != [];
        assert BestSum(flags, 0) == (BestSum(flags, 0) / total as real) * total as real;
      }
      LastHitIsPerfect(flags, total);
    }
  }

  lemma PerfectCount(flags: seq<bool>, total: nat)
    requires 0 < total <= |flags| && CountTrue(flags) <= total && forall i | 0 <= i < total :: flags[i]
    ensures CountTrue(flags) == total == CountTrue(flags[..total])
  {
    CountTrueBounds(flags, total);
    CountTrueMonotone(flags, total, |flags|);
    assert flags[..|flags|] == flags;
  }

  /** With all hits in front none comes later. */
  lemma NoLateHit(flags: seq<bool>, total: nat, m: nat)
    requires 0 < total <= |flags| && CountTrue(flags) <= total && forall i | 0 <= i < total :: flags[i]
    requires total <= m < |flags|
    ensures !flags[m]
  {
    PerfectCount(flags, total);
    CountTrueMonotone(flags, total, m);
    CountTrueMonotone(flags, m + 1, |flags|);
    assert flags[..|flags|] == flags && flags[..m + 1][..m] == flags[..m];
  }

  lemma PerfectSum(flags: seq<bool>, total: nat)
    requires 0 < total <= |flags| && CountTrue(flags) <= total && forall i | 0 <= i < total :: flags[i]
    ensures CountTrue(flags) == total && BestSum(flags, 0) == total as real
  {
    hide Precision, CountTrue;
    PerfectCount(flags, total);
    TrueFromSplit(flags, 0);
    EmptyCount(flags);
    PrecisionBounds(flags, total - 1);
    forall m | 0 <= m < |flags| && flags[m] ensures BestFrom(flags, m) == 1.0 {
      if m >= total {
        NoLateHit(flags, total, m);
      }
      BestFromIsMax(flags, m);
      assert Precision(flags, total - 1) <= BestFrom(flags, m);
    }
    BestSumBounds(flags, 0);
  }

  lemma EmptyCount(flags: seq<bool>)
    ensures CountTrue(flags[..0]) == 0
  {}

  lemma {:induction false} LastHit(flags: seq<bool>) returns (k: nat)
    requires CountTrue(flags) > 0
    ensures k < |flags| && flags[k] && CountTrue(flags[..k + 1]) == CountTrue(flags)
  {
    k := |flags| - 1;
    if flags[k] {
      assert flags[..k + 1] == flags;
    } else {
      k := LastHit(flags[..k]);
      assert flags[..|flags| - 1][..k + 1] == flags[..k + 1];
    }
  }

  lemma LastHitIsPerfect(flags: seq<bool>, total: nat)
    requires total > 0 && CountTrue(flags) <= total && BestSum(flags, 0) == total as real
    ensures total <= |flags| && forall i | 0 <= i < total :: flags[i]
  {
    TrueFromSplit(flags, 0);
    BestSumBounds(flags, 0);
    var k := LastHit(flags);
    BestFromIsMax(flags, k);
    var m :| k <= m < |flags| && Precision(flags, m) == BestFrom(flags, k);
    PrecisionBounds(flags, m);
    CountTrueBounds(flags, k + 1);
    assert CountTrue(flags[..k + 1]) == k + 1 == total;
  }

  // ----- the evaluator's computation -------------------------------------------------------------------

  /** Recall before position j. */
  function RecallAt(flags: seq<bool>, j: nat, total: nat): real
    requires j <= |flags| && total > 0
  {
    CountTrue(flags[..j]) as real / total as real
  }

  lemma RecallStep(flags: seq<bool>, j: nat, total: nat)
    requires j < |flags| && total > 0
    ensures RecallAt(flags, j + 1, total) - RecallAt(flags, j, total) == if flags[j] then 1.0 / total as real else 0.0
    ensures 1.0 / total as real > 0.0
  {
    assert flags[..j + 1][..j] == flags[..j];
    var a, d := CountTrue(flags[..j]) as real, total as real;
    assert (a + 1.0) / d - a / d == 1.0 / d;
  }

  /** Precision and recall after a prediction: the hits up to it, over the predictions up to it and over all to find. */
  lemma PrecisionAndRecall(flags: seq<bool>, j: nat, total: nat)
    requires j < |flags| && total > 0
    ensures Precision(flags, j) == |Hits(flags, j + 1)| as real / (j + 1) as real
    ensures RecallAt(flags, j + 1, total) == |Hits(flags, j + 1)| as real / total as real
  {
    CountTrueIsHits(flags, j + 1);
  }

  /** Cumulative recalls and precisions with the two sentinels at either end. */
  method Curves(flags: seq<bool>, total: nat) returns (mrec: array<real>, mpre: array<real>)
    requires total > 0
    ensures fresh(mrec) && fresh(mpre) && mrec != mpre && mrec.Length == mpre.Length == |flags| + 2
    ensures forall j | 0 <= j <= |flags| :: mrec[j] == RecallAt(flags, j, total)
    ensures forall j | 0 <= j < |flags| :: mpre[j + 1] == Precision(flags, j)
    ensures mrec[|flags| + 1] == 1.0 && mpre[0] == 0.0 && mpre[|flags| + 1] == 0.0
  {
    mrec, mpre := new real[|flags| + 2], new real[|flags| + 2];
    mrec[0], mpre[0] := 0.0, 0.0;
    var cumTp, cumFp, i := 0, 0, 0;
    while i < |flags|
      invariant 0 <= i <= |flags| && cumTp == CountTrue(flags[..i]) && cumTp + cumFp == i
      invariant forall j | 0 <= j <= i :: mrec[j] == RecallAt(flags, j, total)
      invariant forall j | 0 <= j < i :: mpre[j + 1] == Precision(flags, j)
      invariant mpre[0] == 0.0
    {
      assert flags[..i + 1][..i] == flags[..i];
      if flags[i] {
        cumTp := cumTp + 1;
      } else {
        cumFp := cumFp + 1;
      }
      mrec[i + 1] := cumTp as real / total as real;
      mpre[i + 1] := cumTp as real / (cumTp + cumFp) as real;
      i := i + 1;
    }
    mrec[|flags| + 1], mpre[|flags| + 1] := 1.0, 0.0;
  }

  /** The right-to-left envelope, in place. */
  method Envelope(flags: seq<bool>, mpre: array<real>)
    requires mpre.Length == |flags| + 2 && mpre[|flags| + 1] == 0.0
    requires forall j | 0 <= j < |flags| :: mpre[j + 1] == Precision(flags, j)
    modifies mpre
    ensures forall j | 0 <= j <= |flags| :: mpre[j + 1] == BestFrom(flags, j)
  {
    var j := mpre.Length - 1;
    while j > 0
      invariant 0 <= j <= |flags| + 1
      invariant forall i | j <= i <= |flags| + 1 && i > 0 :: mpre[i] == BestFrom(flags, i - 1)
      invariant forall i | 0 < i < j :: mpre[i] == Precision(flags, i - 1)
    {
      if mpre[j] > mpre[j - 1] {
        mpre[j - 1] := mpre[j];
      }
      j := j - 1;
    }
  }

  /** One rectangle under the envelope for each hit from position j on. */
  ghost function AreaFrom(flags: seq<bool>, j: nat, total: nat): real
    requires j <= |flags| && total > 0
    decreases |flags| - j
  {
    if j == |flags| then 0.0
    else (if flags[j] then (1.0 / total as real) * BestFrom(flags, j) else 0.0) + AreaFrom(flags, j + 1, total)
  }

  lemma {:induction false} AreaIsBestSum(flags: seq<bool>, j: nat, total: nat)
    requires j <= |flags| && total > 0
    ensures AreaFrom(flags, j, total) == BestSum(flags, j) / total as real
    decreases |flags| - j
  {
    hide BestFrom;
    if j < |flags| {
      AreaIsBestSum(flags, j + 1, total);
      SplitQuotient(BestFrom(flags, j), BestSum(flags, j + 1), total as real);
    }
  }

  lemma SplitQuotient(a: real, b: real, d: real)
    requires d > 0.0
    ensures (a + b) / d == (1.0 / d) * a + b / d
  {}

  /** The area over the steps where recall moves; steps of no width would add nothing. */
  method Area(flags: seq<bool>, total: nat, mrec: array<real>, mpre: array<real>) returns (ap: real)
    requires total > 0 && mrec.Length == mpre.Length == |flags| + 2
    requires forall j | 0 <= j <= |flags| :: mrec[j] == RecallAt(flags, j, total)
    requires forall j | 0 <= j <= |flags| :: mpre[j + 1] == BestFrom(flags, j)
    ensures ap == AreaFrom(flags, 0, total)
  {
    hide BestFrom, CountTrue, RecallAt;
    ap := 0.0;
    var i := 0;
    while i < mrec.Length - 1
      invariant 0 <= i <= |flags| + 1
      invariant ap + AreaFrom(flags, Clip(i, |flags|), total) == AreaFrom(flags, 0, total)
    {
      Step(flags, i, total, mrec[i + 1] - mrec[i], mpre[i + 1]);
      if mrec[i + 1] != mrec[i] {
        ap := ap + (mrec[i + 1] - mrec[i]) * mpre[i + 1];
      }
      i := i + 1;
    }
  }

  function Clip(i: nat, n: nat): nat { if i < n then i else n }

  lemma AreaStep(flags: seq<bool>, i: nat, total: nat)
    requires i < |flags| && total > 0
    ensures AreaFrom(flags, i, total)
            == (if flags[i] then (1.0 / total as real) * BestFrom(flags, i) else 0.0) + AreaFrom(flags, i + 1, total)
  {
    hide BestFrom;
  }

  lemma AreaEnd(flags: seq<bool>, total: nat)
    requires total > 0
    ensures AreaFrom(flags, |flags|, total) == 0.0 && BestFrom(flags, |flags|) == 0.0
  {}

  lemma Step(flags: seq<bool>, i: nat, total: nat, width: real, height: real)
    requires i <= |flags| && total > 0 && height == BestFrom(flags, i)
    requires i < |flags| ==> width == RecallAt(flags, i + 1, total) - RecallAt(flags, i, total)
    ensures AreaFrom(flags, i, total) == width * height + AreaFrom(flags, Clip(i + 1, |flags|), total)
    ensures width == 0.0 ==> width * height == 0.0
  {
    hide BestFrom, AreaFrom, RecallAt;
    if i < |flags| {
      RecallStep(flags, i, total);
      AreaStep(flags, i, total);
    } else {
      AreaEnd(flags, total);
    }
  }

  /** Envelope and area together are the average precision. */
  method Integrate(flags: seq<bool>, total: nat) returns (ap: real)
    ensures ap == ApOf(flags, total)
  {
    if total == 0 || flags == [] {
      return 0.0;
    }
    var mrec, mpre := Curves(flags, total);
    Envelope(flags, mpre);
    AreaIsBestSum(flags, 0, total);
    ap := Area(flags, total, mrec, mpre);
  }
}
