/**
 Greedy matching of predictions to ground truths. `Flags` and `Final` are one reference matching
 over all images and classes at once; both passes of the evaluator turn out to be its restrictions.
 */
module Matching {
  import opened StableSort

  datatype Box = Box(x1: int, y1: int, x2: int, y2: int)

  datatype GroundTruth = GroundTruth(image: string, cls: string, box: Box)

  datatype Prediction = Prediction(image: string, cls: string, box: Box, confidence: real)

  function ConfidenceOf(p: Prediction): real { p.confidence }

  function Max(a: int, b: int): int { if a > b then a else b }

  function Min(a: int, b: int): int { if a < b then a else b }

  function Overlap(a1: int, a2: int, b1: int, b2: int): nat {
    Max(0, Min(a2, b2) - Max(a1, b1))
  }

  function Intersection(a: Box, b: Box): int {
    Overlap(a.x1, a.x2, b.x1, b.x2) * Overlap(a.y1, a.y2, b.y1, b.y2)
  }

  function Area(a: Box): int {
    Max(0, a.x2 - a.x1) * Max(0, a.y2 - a.y1)
  }

  function Iou(a: Box, b: Box): real {
    var union := Area(a) + Area(b) - Intersection(a, b);
    if union <= 0 then 0.0 else Intersection(a, b) as real / union as real
  }

  lemma MulBounds(a: nat, b: nat, c: nat, d: nat)
    requires a <= c && b <= d
    ensures 0 <= a * b <= c * d
    ensures a * b == c * d && c * d > 0 ==> a == c && b == d
  {
    assert a * b <= a * d <= c * d;
    if a * b == c * d && c * d > 0 {
      assert (c - a) * d == 0 && a * (d - b) == 0;
    }
  }

  lemma IntersectionBounds(a: Box, b: Box)
    ensures 0 <= Intersection(a, b) <= Area(a) && Intersection(a, b) <= Area(b)
    ensures Area(a) == Intersection(a, b) == Area(b) > 0 ==> a == b
  {
    var w, h := Overlap(a.x1, a.x2, b.x1, b.x2), Overlap(a.y1, a.y2, b.y1, b.y2);
    MulBounds(w, h, Max(0, a.x2 - a.x1), Max(0, a.y2 - a.y1));
    MulBounds(w, h, Max(0, b.x2 - b.x1), Max(0, b.y2 - b.y1));
  }

  /** Overlap is a symmetric number in [0, 1], and 1 exactly for a box with itself when it has any area. */
  lemma IouFacts(a: Box, b: Box)
    ensures 0.0 <= Iou(a, b) <= 1.0 && Iou(a, b) == Iou(b, a)
    ensures Iou(a, b) == 1.0 <==> a == b && Area(a) > 0
  {
    IntersectionBounds(a, b);
    var i, u := Intersection(a, b), Area(a) + Area(b) - Intersection(a, b);
    if u > 0 {
      RatioOfWhole(i, u);
    }
    if a == b {
      assert Intersection(a, b) == Area(a);
    }
  }

  lemma RatioOfWhole(i: nat, u: nat)
    requires i <= u && u > 0
    ensures 0.0 <= i as real / u as real <= 1.0
    ensures i as real / u as real == 1.0 <==> i == u
  {}

  // ----- what the overlap measures -------------------------------------------------------------------

  /** The cells of the pixel grid that a box covers. */
  ghost function Cells(b: Box): set<(int, int)> {
    set x, y | b.x1 <= x < b.x2 && b.y1 <= y < b.y2 :: (x, y)
  }

  lemma {:induction false} ColumnSize(x: int, y1: int, y2: int)
    ensures |Cells(Box(x, y1, x + 1, y2))| == Max(0, y2 - y1)
    decreases y2 - y1
  {
    var column := Cells(Box(x, y1, x + 1, y2));
    if y1 < y2 {
      ColumnSize(x, y1, y2 - 1);
      assert column == Cells(Box(x, y1, x + 1, y2 - 1)) + {(x, y2 - 1)};
    } else {
      assert column == {};
    }
  }

  lemma OneColumnMore(w: nat, h: nat)
    ensures (w + 1) * h == w * h + h
  {}

  lemma {:induction false} BoxSize(b: Box)
    ensures |Cells(b)| == Area(b)
    decreases b.x2 - b.x1
  {
    if b.x1 < b.x2 {
      var left, last := b.(x2 := b.x2 - 1), Box(b.x2 - 1, b.y1, b.x2, b.y2);
      BoxSize(left);
      ColumnSize(b.x2 - 1, b.y1, b.y2);
      assert Cells(b) == Cells(left) + Cells(last) && Cells(left) !! Cells(last);
      OneColumnMore(b.x2 - 1 - b.x1, Max(0, b.y2 - b.y1));
    } else {
      assert Cells(b) == {};
    }
  }

  function Common(a: Box, b: Box): Box {
    Box(Max(a.x1, b.x1), Max(a.y1, b.y1), Min(a.x2, b.x2), Min(a.y2, b.y2))
  }

  lemma CommonCells(a: Box, b: Box)
    ensures Cells(a) * Cells(b) == Cells(Common(a, b))
  {}

  lemma CommonSize(a: Box, b: Box)
    ensures |Cells(a) * Cells(b)| == Intersection(a, b)
  {
    hide Cells;
    CommonCells(a, b);
    BoxSize(Common(a, b));
  }

  /** The overlap of two boxes is the share of the cells that either covers which both cover. */
  lemma IouIsCells(a: Box, b: Box)
    ensures Iou(a, b) == if Cells(a) + Cells(b) == {} then 0.0
                         else |Cells(a) * Cells(b)| as real / |Cells(a) + Cells(b)| as real
  {
    hide Cells;
    BoxSize(a);
    BoxSize(b);
    CommonSize(a, b);
    assert |Cells(a) + Cells(b)| == |Cells(a)| + |Cells(b)| - |Cells(a) * Cells(b)|;
  }

  // ----- the reference matching ----------------------------------------------------------------------

  datatype Slot = Slot(gt: GroundTruth, used: bool)

  datatype Best = Best(iou: real, index: int)

  function Slots(gts: seq<GroundTruth>): (r: seq<Slot>)
    ensures |r| == |gts|
    ensures forall i | 0 <= i < |gts| :: r[i] == Slot(gts[i], false)
  {
    seq(|gts|, i requires 0 <= i < |gts| => Slot(gts[i], false))
  }

  predicate Eligible(p: Prediction, s: Slot) {
    !s.used && s.gt.image == p.image && s.gt.cls == p.cls
  }

  /** The scan for the best free ground truth, after the first n of them. */
  function BestUpTo(p: Prediction, slots: seq<Slot>, n: nat): Best
    requires n <= |slots|
  {
    if n == 0 then Best(0.0, -1)
    else
      var b := BestUpTo(p, slots, n - 1);
      if Eligible(p, slots[n - 1]) && Iou(p.box, slots[n - 1].gt.box) > b.iou
      then Best(Iou(p.box, slots[n - 1].gt.box), n - 1) else b
  }

  predicate Hit(p: Prediction, slots: seq<Slot>, threshold: real) {
    var b := BestUpTo(p, slots, |slots|);
    b.iou >= threshold && b.index >= 0
  }

  lemma {:induction false} BestIndex(p: Prediction, slots: seq<Slot>, n: nat)
    requires n <= |slots|
    ensures var b := BestUpTo(p, slots, n);
      && -1 <= b.index < n && b.iou >= 0.0 && (b.index < 0 ==> b.iou == 0.0)
      && (b.index >= 0 ==> Eligible(p, slots[b.index]) && b.iou == Iou(p.box, slots[b.index].gt.box) > 0.0)
      && (forall i | 0 <= i < n && Eligible(p, slots[i]) :: Iou(p.box, slots[i].gt.box) <= b.iou)
      && (forall i | 0 <= i < b.index && Eligible(p, slots[i]) :: Iou(p.box, slots[i].gt.box) < b.iou)
  {
    if n > 0 {
      BestIndex(p, slots, n - 1);
    }
  }

  function Use(slots: seq<Slot>, i: int): seq<Slot> {
    if 0 <= i < |slots| then slots[i := slots[i].(used := true)] else slots
  }

  function Take(p: Prediction, slots: seq<Slot>, threshold: real): seq<Slot> {
    if Hit(p, slots, threshold) then Use(slots, BestUpTo(p, slots, |slots|).index) else slots
  }

  /** Which predictions, taken in order, find a free ground truth. */
  function Flags(ps: seq<Prediction>, slots: seq<Slot>, threshold: real): seq<bool> {
    if ps == [] then []
    else [Hit(ps[0], slots, threshold)] + Flags(ps[1..], Take(ps[0], slots, threshold), threshold)
  }

  /** The ground truths after all of them. */
  function Final(ps: seq<Prediction>, slots: seq<Slot>, threshold: real): seq<Slot> {
    if ps == [] then slots else Final(ps[1..], Take(ps[0], slots, threshold), threshold)
  }

  lemma {:induction false} FlagsLength(ps: seq<Prediction>, slots: seq<Slot>, threshold: real)
    ensures |Flags(ps, slots, threshold)| == |ps| && |Final(ps, slots, threshold)| == |slots|
  {
    if ps != [] {
      FlagsLength(ps[1..], Take(ps[0], slots, threshold), threshold);
    }
  }

  /** A ground truth of the prediction's image and class that nobody has taken and that overlaps it enough. */
  ghost predicate Finds(p: Prediction, s: Slot, threshold: real) {
    !s.used && s.gt.image == p.image && s.gt.cls == p.cls && Iou(p.box, s.gt.box) > 0.0
    && Iou(p.box, s.gt.box) >= threshold
  }

  /** The first of those that overlap it most. */
  ghost predicate FindsBest(p: Prediction, slots: seq<Slot>, i: nat, threshold: real) {
    && i < |slots| && Finds(p, slots[i], threshold)
    && (forall j | 0 <= j < |slots| && Finds(p, slots[j], threshold) ::
          Iou(p.box, slots[j].gt.box) <= Iou(p.box, slots[i].gt.box))
    && forall j | 0 <= j < i && Finds(p, slots[j], threshold) ::
         Iou(p.box, slots[j].gt.box) < Iou(p.box, slots[i].gt.box)
  }

  /** A prediction hits exactly when it finds one, and takes the best. */
  lemma HitExactly(p: Prediction, slots: seq<Slot>, threshold: real)
    ensures Hit(p, slots, threshold) <==> exists i :: 0 <= i < |slots| && Finds(p, slots[i], threshold)
    ensures Hit(p, slots, threshold) ==>
      exists i: nat :: FindsBest(p, slots, i, threshold)
                       && Take(p, slots, threshold) == slots[i := slots[i].(used := true)]
    ensures !Hit(p, slots, threshold) ==> Take(p, slots, threshold) == slots
  {
    hide Iou;
    var b := BestUpTo(p, slots, |slots|);
    BestIndex(p, slots, |slots|);
    if Hit(p, slots, threshold) {
      assert Finds(p, slots[b.index], threshold) && FindsBest(p, slots, b.index, threshold);
    }
  }

  lemma {:induction false} FlagsAt(ps: seq<Prediction>, slots: seq<Slot>, threshold: real, k: nat)
    requires k < |ps|
    ensures |Flags(ps, slots, threshold)| == |ps|
    ensures var before := Final(ps[..k], slots, threshold);
      && Flags(ps, slots, threshold)[k] == Hit(ps[k], before, threshold)
      && Final(ps[..k + 1], slots, threshold) == Take(ps[k], before, threshold)
  {
    hide Hit, Take;
    FlagsLength(ps, slots, threshold);
    var next := Take(ps[0], slots, threshold);
    if k > 0 {
      FlagsAt(ps[1..], next, threshold, k - 1);
      assert ps[..k][1..] == ps[1..][..k - 1] && ps[..k + 1][1..] == ps[1..][..k];
    } else {
      assert ps[..1][1..] == [] && ps[..0] == [];
    }
  }

  /**
   The reference matching is greedy: in turn each prediction is a hit exactly when the ones before it have left a ground
   truth of its image and class that overlaps it by the threshold, and it takes the first of largest overlap.
   */
  lemma GreedyMatching(ps: seq<Prediction>, slots: seq<Slot>, threshold: real, k: nat)
    requires k < |ps|
    ensures |Flags(ps, slots, threshold)| == |ps|
    ensures var before, after := Final(ps[..k], slots, threshold), Final(ps[..k + 1], slots, threshold);
      && (Flags(ps, slots, threshold)[k] <==> exists i :: 0 <= i < |before| && Finds(ps[k], before[i], threshold))
      && if Flags(ps, slots, threshold)[k]
         then exists i: nat :: FindsBest(ps[k], before, i, threshold) && after == before[i := before[i].(used := true)]
         else after == before
  {
    hide Hit, Take, Finds, FindsBest;
    FlagsAt(ps, slots, threshold, k);
    HitExactly(ps[k], Final(ps[..k], slots, threshold), threshold);
  }

  // ----- restriction to one image or one class ---------------------------------------------------------

  datatype Scope = OfImage(image: string) | OfClass(cls: string)

  predicate InScope(scope: Scope, image: string, cls: string) {
    match scope
    case OfImage(i) => i == image
    case OfClass(c) => c == cls
  }

  function KeepPrediction(scope: Scope): Prediction -> bool {
    (p: Prediction) => InScope(scope, p.image, p.cls)
  }

  function KeepTruth(scope: Scope): GroundTruth -> bool {
    (g: GroundTruth) => InScope(scope, g.image, g.cls)
  }

  function KeepSlot(scope: Scope): Slot -> bool {
    (s: Slot) => InScope(scope, s.gt.image, s.gt.cls)
  }

  /** The flags of the predictions in scope. */
  function Pick(ps: seq<Prediction>, flags: seq<bool>, scope: Scope): seq<bool>
    requires |ps| == |flags|
  {
    if ps == [] then []
    else if KeepPrediction(scope)(ps[0]) then [flags[0]] + Pick(ps[1..], flags[1..], scope)
    else Pick(ps[1..], flags[1..], scope)
  }

  lemma {:induction false} BestOfPrefix(p: Prediction, xs: seq<Slot>, ys: seq<Slot>, n: nat)
    requires n <= |xs|
    ensures BestUpTo(p, xs + ys, n) == BestUpTo(p, xs, n)
  {
    if n > 0 {
      BestOfPrefix(p, xs, ys, n - 1);
    }
  }

  /** A prediction in scope finds the same ground truth among those in scope, at its place there. */
  lemma {:induction false} BestProjects(p: Prediction, slots: seq<Slot>, n: nat, scope: Scope)
    requires n <= |slots| && KeepPrediction(scope)(p)
    ensures var b := BestUpTo(p, slots, n); var kept := Filter(slots[..n], KeepSlot(scope));
      && -1 <= b.index < n
      && BestUpTo(p, kept, |kept|)
         == Best(b.iou, if b.index < 0 then -1 else |Filter(slots[..b.index], KeepSlot(scope))|)
  {
    if n > 0 {
      var last := slots[n - 1];
      var before := Filter(slots[..n - 1], KeepSlot(scope));
      BestProjects(p, slots, n - 1, scope);
      assert slots[..n] == slots[..n - 1] + [last];
      FilterConcat(slots[..n - 1], [last], KeepSlot(scope));
      BestOfPrefix(p, before, Filter([last], KeepSlot(scope)), |before|);
    }
  }

  lemma UseProjects(slots: seq<Slot>, i: nat, scope: Scope)
    requires i < |slots|
    ensures Filter(Use(slots, i), KeepSlot(scope))
         == if KeepSlot(scope)(slots[i]) then Use(Filter(slots, KeepSlot(scope)), |Filter(slots[..i], KeepSlot(scope))|)
            else Filter(slots, KeepSlot(scope))
  {
    FilterUpdate(slots, i, slots[i].(used := true), KeepSlot(scope));
    if KeepSlot(scope)(slots[i]) {
      FilterAt(slots, i, KeepSlot(scope));
    }
  }

  lemma TakeProjects(p: Prediction, slots: seq<Slot>, threshold: real, scope: Scope)
    ensures KeepPrediction(scope)(p) ==>
      && Hit(p, Filter(slots, KeepSlot(scope)), threshold) == Hit(p, slots, threshold)
      && Filter(Take(p, slots, threshold), KeepSlot(scope)) == Take(p, Filter(slots, KeepSlot(scope)), threshold)
    ensures !KeepPrediction(scope)(p) ==>
      Filter(Take(p, slots, threshold), KeepSlot(scope)) == Filter(slots, KeepSlot(scope))
  {
    var b := BestUpTo(p, slots, |slots|);
    BestIndex(p, slots, |slots|);
    assert slots[..|slots|] == slots;
    if KeepPrediction(scope)(p) {
      BestProjects(p, slots, |slots|, scope);
    }
    if b.index >= 0 {
      UseProjects(slots, b.index, scope);
    }
  }

  /** Restricting the reference matching to a scope is matching within the scope alone. */
  lemma {:induction false} Projection(ps: seq<Prediction>, slots: seq<Slot>, threshold: real, scope: Scope)
    ensures |Flags(ps, slots, threshold)| == |ps|
    ensures Pick(ps, Flags(ps, slots, threshold), scope)
         == Flags(Filter(ps, KeepPrediction(scope)), Filter(slots, KeepSlot(scope)), threshold)
    ensures Filter(Final(ps, slots, threshold), KeepSlot(scope))
         == Final(Filter(ps, KeepPrediction(scope)), Filter(slots, KeepSlot(scope)), threshold)
  {
    hide Hit, Take, KeepSlot;
    FlagsLength(ps, slots, threshold);
    if ps != [] {
      var next := Take(ps[0], slots, threshold);
      var rest := Filter(ps[1..], KeepPrediction(scope));
      TakeProjects(ps[0], slots, threshold, scope);
      Projection(ps[1..], next, threshold, scope);
      assert Flags(ps, slots, threshold)[1..] == Flags(ps[1..], next, threshold);
      if KeepPrediction(scope)(ps[0]) {
        assert ([ps[0]] + rest)[1..] == rest;
      }
    }
  }

  lemma {:induction false} SlotsFilter(gts: seq<GroundTruth>, scope: Scope)
    ensures Filter(Slots(gts), KeepSlot(scope)) == Slots(Filter(gts, KeepTruth(scope)))
  {
    if gts != [] {
      SlotsFilter(gts[1..], scope);
      assert Slots(gts)[1..] == Slots(gts[1..]);
    }
  }

  /** All predictions in order of confidence, equal ones in their given order. */
  function Ordered(ps: seq<Prediction>): seq<Prediction> {
    SortDesc(ps, ConfidenceOf)
  }

  function ConfidentBy(c: real): Prediction -> bool {
    (p: Prediction) => p.confidence == c
  }

  /** Those are all the predictions, the more confident ahead, and equally confident ones as they were given. */
  lemma OrderedIs(ps: seq<Prediction>)
    ensures multiset(Ordered(ps)) == multiset(ps)
    ensures forall i, j | 0 <= i < j < |Ordered(ps)| :: Ordered(ps)[i].confidence >= Ordered(ps)[j].confidence
    ensures forall c :: Filter(Ordered(ps), ConfidentBy(c)) == Filter(ps, ConfidentBy(c))
  {
    hide SortDesc;
    SortFacts(ps, ConfidenceOf);
    forall c ensures Filter(Ordered(ps), ConfidentBy(c)) == Filter(ps, ConfidentBy(c)) {
      var same := Filter(ps, ConfidentBy(c));
      FilterSort(ps, ConfidenceOf, ConfidentBy(c));
      FilterFacts(ps, ConfidentBy(c));
      forall i | 0 <= i < |same| ensures ConfidenceOf(same[i]) == c {
        assert same[i] in same;
      }
      SortSorted(same, ConfidenceOf);
    }
    forall i, j | 0 <= i < j < |Ordered(ps)| ensures Ordered(ps)[i].confidence >= Ordered(ps)[j].confidence {
      assert ConfidenceOf(Ordered(ps)[i]) >= ConfidenceOf(Ordered(ps)[j]);
    }
  }

  /** A pass over one image, or over one class: its own predictions, sorted, against its own ground truths. */
  function PassFlags(ps: seq<Prediction>, gts: seq<GroundTruth>, threshold: real, scope: Scope): seq<bool> {
    Flags(Ordered(Filter(ps, KeepPrediction(scope))), Slots(Filter(gts, KeepTruth(scope))), threshold)
  }

  function PassFinal(ps: seq<Prediction>, gts: seq<GroundTruth>, threshold: real, scope: Scope): seq<Slot> {
    Final(Ordered(Filter(ps, KeepPrediction(scope))), Slots(Filter(gts, KeepTruth(scope))), threshold)
  }

  /** Each pass is the reference matching of everything, seen from its scope. */
  lemma PassIsRestriction(ps: seq<Prediction>, gts: seq<GroundTruth>, threshold: real, scope: Scope)
    ensures |Flags(Ordered(ps), Slots(gts), threshold)| == |Ordered(ps)|
    ensures PassFlags(ps, gts, threshold, scope) == Pick(Ordered(ps), Flags(Ordered(ps), Slots(gts), threshold), scope)
    ensures PassFinal(ps, gts, threshold, scope) == Filter(Final(Ordered(ps), Slots(gts), threshold), KeepSlot(scope))
    ensures Ordered(Filter(ps, KeepPrediction(scope))) == Filter(Ordered(ps), KeepPrediction(scope))
  {
    FilterSort(ps, ConfidenceOf, KeepPrediction(scope));
    SlotsFilter(gts, scope);
    Projection(Ordered(ps), Slots(gts), threshold, scope);
  }

  /**
   The two passes agree: for every image and class, the outcomes the mixed-class pass of that image
   gives that class are those the cross-image pass of that class gives that image, prediction by
   prediction.
   */
  lemma PassesAgree(ps: seq<Prediction>, gts: seq<GroundTruth>, threshold: real, image: string, cls: string)
    ensures var byImage, byClass := OfImage(image), OfClass(cls);
      var inImage := Ordered(Filter(ps, KeepPrediction(byImage)));
      var inClass := Ordered(Filter(ps, KeepPrediction(byClass)));
      && |PassFlags(ps, gts, threshold, byImage)| == |inImage| && |PassFlags(ps, gts, threshold, byClass)| == |inClass|
      && Pick(inImage, PassFlags(ps, gts, threshold, byImage), byClass)
         == Pick(inClass, PassFlags(ps, gts, threshold, byClass), byImage)
      && Filter(inImage, KeepPrediction(byClass)) == Filter(inClass, KeepPrediction(byImage))
  {
    var byImage, byClass := OfImage(image), OfClass(cls);
    PassIsRestriction(ps, gts, threshold, byImage);
    PassIsRestriction(ps, gts, threshold, byClass);
    FlagsLength(Ordered(Filter(ps, KeepPrediction(byImage))), Slots(Filter(gts, KeepTruth(byImage))), threshold);
    FlagsLength(Ordered(Filter(ps, KeepPrediction(byClass))), Slots(Filter(gts, KeepTruth(byClass))), threshold);
    PickSwap(Ordered(ps), Flags(Ordered(ps), Slots(gts), threshold), byImage, byClass);
  }

  lemma {:induction false} PickLength(ps: seq<Prediction>, flags: seq<bool>, scope: Scope)
    requires |ps| == |flags|
    ensures |Pick(ps, flags, scope)| == |Filter(ps, KeepPrediction(scope))|
  {
    if ps != [] {
      PickLength(ps[1..], flags[1..], scope);
    }
  }

  lemma {:induction false} PickSwap(ps: seq<Prediction>, flags: seq<bool>, s: Scope, t: Scope)
    requires |ps| == |flags|
    ensures |Pick(ps, flags, s)| == |Filter(ps, KeepPrediction(s))|
            && |Pick(ps, flags, t)| == |Filter(ps, KeepPrediction(t))|
    ensures Pick(Filter(ps, KeepPrediction(s)), Pick(ps, flags, s), t)
            == Pick(Filter(ps, KeepPrediction(t)), Pick(ps, flags, t), s)
    ensures Filter(Filter(ps, KeepPrediction(s)), KeepPrediction(t))
            == Filter(Filter(ps, KeepPrediction(t)), KeepPrediction(s))
  {
    PickLength(ps, flags, s);
    PickLength(ps, flags, t);
    if ps != [] {
      var rest, bits := ps[1..], flags[1..];
      PickSwap(rest, bits, s, t);
      PickCons(ps[0], flags[0], Filter(rest, KeepPrediction(s)), Pick(rest, bits, s), t);
      PickCons(ps[0], flags[0], Filter(rest, KeepPrediction(t)), Pick(rest, bits, t), s);
    }
  }

  lemma PickCons(p: Prediction, flag: bool, ps: seq<Prediction>, flags: seq<bool>, scope: Scope)
    requires |ps| == |flags|
    ensures Pick([p] + ps, [flag] + flags, scope)
            == if KeepPrediction(scope)(p) then [flag] + Pick(ps, flags, scope) else Pick(ps, flags, scope)
    ensures Filter([p] + ps, KeepPrediction(scope))
            == if KeepPrediction(scope)(p) then [p] + Filter(ps, KeepPrediction(scope))
               else Filter(ps, KeepPrediction(scope))
  {
    assert ([p] + ps)[1..] == ps && ([flag] + flags)[1..] == flags;
  }
}
