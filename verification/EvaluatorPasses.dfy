/** The evaluator's own loops, proved against the reference matching. */
module EvaluatorPasses {
  import opened StableSort
  import opened Matching
  import opened AveragePrecision
  import opened Evaluation

  const BACKGROUND := "background"

  /** The entry of the confusion matrix that the three counters call for. */
  function Cell(tp: map<string, nat>, fp: map<string, nat>, fn: map<string, nat>, truth: string, said: string): nat {
    (if truth == said && truth in tp then tp[truth] else 0)
    + (if truth == BACKGROUND && said in fp then fp[said] else 0)
    + (if said == BACKGROUND && truth in fn then fn[truth] else 0)
  }

  function Labels(classes: set<string>): set<string> {
    classes + {BACKGROUND}
  }

  /** The dictionaries that `evaluate` fills. */
  class Tally {
    const classes: set<string>
    var tp: map<string, nat>
    var fp: map<string, nat>
    var fn: map<string, nat>
    var confusion: map<(string, string), nat>

    ghost predicate Valid()
      reads this
    {
      && tp.Keys == classes && fp.Keys == classes && fn.Keys == classes
      && (forall a, b | a in Labels(classes) && b in Labels(classes) ::
            (a, b) in confusion && confusion[(a, b)] == Cell(tp, fp, fn, a, b))
    }

    constructor (classes: set<string>)
      ensures Valid() && this.classes == classes
      ensures forall c | c in classes :: tp[c] == 0 && fp[c] == 0 && fn[c] == 0
    {
      this.classes := classes;
      tp := map c | c in classes :: 0;
      fp := map c | c in classes :: 0;
      fn := map c | c in classes :: 0;
      confusion := map a, b | a in Labels(classes) && b in Labels(classes) :: (a, b) := 0;
    }

    method Hit(c: string)
      requires Valid() && c in classes
      modifies this
      ensures Valid() && tp == old(tp)[c := old(tp)[c] + 1] && fp == old(fp) && fn == old(fn)
    {
      tp := tp[c := tp[c] + 1];
      confusion := confusion[(c, c) := confusion[(c, c)] + 1];
    }

    method Miss(c: string)
      requires Valid() && c in classes
      modifies this
      ensures Valid() && tp == old(tp) && fp == old(fp)[c := old(fp)[c] + 1] && fn == old(fn)
    {
      fp := fp[c := fp[c] + 1];
      confusion := confusion[(BACKGROUND, c) := confusion[(BACKGROUND, c)] + 1];
    }

    method Missed(c: string)
      requires Valid() && c in classes
      modifies this
      ensures Valid() && tp == old(tp) && fp == old(fp) && fn == old(fn)[c := old(fn)[c] + 1]
    {
      fn := fn[c := fn[c] + 1];
      confusion := confusion[(c, BACKGROUND) := confusion[(c, BACKGROUND)] + 1];
    }
  }

  /** The counters of one class, as the evaluator leaves them. */
  ghost predicate CountsOf(tp: map<string, nat>, fp: map<string, nat>, fn: map<string, nat>, ps: seq<Prediction>,
                           gts: seq<GroundTruth>, threshold: real, cls: string) {
    && cls in tp && cls in fp && cls in fn
    && tp[cls] == TruePositives(ps, gts, threshold, cls) && fp[cls] == FalsePositives(ps, gts, threshold, cls)
    && fn[cls] == FalseNegatives(ps, gts, threshold, cls)
  }

  type Matrix = map<(string, string), nat>

  /** A matrix and three counters as the evaluator leaves them. */
  ghost predicate Tallied(m: Matrix, tp: map<string, nat>, fp: map<string, nat>, fn: map<string, nat>,
                          ps: seq<Prediction>, gts: seq<GroundTruth>, threshold: real, classes: set<string>) {
    && classes == Classes(ps, gts) && tp.Keys == classes && fp.Keys == classes && fn.Keys == classes
    && (forall a, b | a in Labels(classes) && b in Labels(classes) ::
          (a, b) in m && m[(a, b)] == Cell(tp, fp, fn, a, b))
    && forall c | c in classes :: CountsOf(tp, fp, fn, ps, gts, threshold, c)
  }

  // ----- grouping by image ---------------------------------------------------------------------------

  function ListFor<T>(m: map<string, seq<T>>, image: string): seq<T> {
    if image in m then m[image] else []
  }

  method GroupTruths(gts: seq<GroundTruth>) returns (m: map<string, seq<GroundTruth>>)
    ensures forall i :: ListFor(m, i) == Filter(gts, KeepTruth(OfImage(i)))
    ensures forall g | g in gts :: g.image in m
  {
    m := map[];
    var k := 0;
    while k < |gts|
      invariant 0 <= k <= |gts|
      invariant forall i :: ListFor(m, i) == Filter(gts[..k], KeepTruth(OfImage(i)))
      invariant forall j | 0 <= j < k :: gts[j].image in m
    {
      var g := gts[k];
      ghost var before := m;
      m := m[g.image := ListFor(m, g.image) + [g]];
      assert gts[..k + 1] == gts[..k] + [g];
      forall i ensures ListFor(m, i) == Filter(gts[..k + 1], KeepTruth(OfImage(i))) {
        FilterConcat(gts[..k], [g], KeepTruth(OfImage(i)));
        assert ListFor(before, i) == Filter(gts[..k], KeepTruth(OfImage(i)));
      }
      k := k + 1;
    }
    assert gts[..|gts|] == gts;
  }

  method GroupPredictions(ps: seq<Prediction>) returns (m: map<string, seq<Prediction>>)
    ensures forall i :: ListFor(m, i) == Filter(ps, KeepPrediction(OfImage(i)))
    ensures forall p | p in ps :: p.image in m
  {
    m := map[];
    var k := 0;
    while k < |ps|
      invariant 0 <= k <= |ps|
      invariant forall i :: ListFor(m, i) == Filter(ps[..k], KeepPrediction(OfImage(i)))
      invariant forall j | 0 <= j < k :: ps[j].image in m
    {
      var p := ps[k];
      ghost var before := m;
      m := m[p.image := ListFor(m, p.image) + [p]];
      assert ps[..k + 1] == ps[..k] + [p];
      forall i ensures ListFor(m, i) == Filter(ps[..k + 1], KeepPrediction(OfImage(i))) {
        FilterConcat(ps[..k], [p], KeepPrediction(OfImage(i)));
        assert ListFor(before, i) == Filter(ps[..k], KeepPrediction(OfImage(i)));
      }
      k := k + 1;
    }
    assert ps[..|ps|] == ps;
  }

  // ----- the per-image pass ----------------------------------------------------------------------------

  /** The ground truths of a list, taken where an index is in the matched set. */
  function Mark(gts: seq<GroundTruth>, matched: set<nat>): (r: seq<Slot>)
    ensures |r| == |gts|
    ensures forall i | 0 <= i < |gts| :: r[i] == Slot(gts[i], i in matched)
  {
    seq(|gts|, i requires 0 <= i < |gts| => Slot(gts[i], i in matched))
  }

  /** Scan of the mixed-class pass: the image is fixed, the class is compared. */
  method BestInImage(p: Prediction, gts: seq<GroundTruth>, matched: set<nat>) returns (iou: real, index: int)
    requires forall i | 0 <= i < |gts| :: gts[i].image == p.image
    ensures Best(iou, index) == BestUpTo(p, Mark(gts, matched), |gts|)
  {
    iou, index := 0.0, -1;
    var idx := 0;
    while idx < |gts|
      invariant 0 <= idx <= |gts| && Best(iou, index) == BestUpTo(p, Mark(gts, matched), idx)
    {
      if !(idx in matched || gts[idx].cls != p.cls) {
        var overlap := Iou(p.box, gts[idx].box);
        if overlap > iou {
          iou, index := overlap, idx;
        }
      }
      idx := idx + 1;
    }
  }

  lemma MarkUse(gts: seq<GroundTruth>, matched: set<nat>, i: nat)
    requires i < |gts|
    ensures Mark(gts, matched + {i}) == Use(Mark(gts, matched), i)
  {}

  /** One image: hits and misses in order of confidence, then what nobody found. */
  method EvaluateImage(tally: Tally, image: string, ps: seq<Prediction>, gts: seq<GroundTruth>, threshold: real)
    requires tally.Valid()
    requires forall i | 0 <= i < |ps| :: ps[i].image == image && ps[i].cls in tally.classes
    requires forall i | 0 <= i < |gts| :: gts[i].image == image && gts[i].cls in tally.classes
    modifies tally
    ensures tally.Valid() && |Flags(ps, Slots(gts), threshold)| == |ps|
    ensures forall c | c in tally.classes ::
      && tally.tp[c] == old(tally.tp)[c] + Count(ps, Flags(ps, Slots(gts), threshold), true, c)
      && tally.fp[c] == old(tally.fp)[c] + Count(ps, Flags(ps, Slots(gts), threshold), false, c)
      && tally.fn[c] == old(tally.fn)[c] + CountSlots(Final(ps, Slots(gts), threshold), false, c)
  {
    var matched := MatchImage(tally, image, ps, gts, threshold);
    CountMissed(tally, gts, matched);
  }

  method MatchImage(tally: Tally, image: string, ps: seq<Prediction>, gts: seq<GroundTruth>, threshold: real)
      returns (matched: set<nat>)
    requires tally.Valid()
    requires forall i | 0 <= i < |ps| :: ps[i].image == image && ps[i].cls in tally.classes
    requires forall i | 0 <= i < |gts| :: gts[i].image == image
    modifies tally
    ensures tally.Valid() && tally.fn == old(tally.fn) && |Flags(ps, Slots(gts), threshold)| == |ps|
    ensures Mark(gts, matched) == Final(ps, Slots(gts), threshold)
    ensures forall c | c in tally.classes ::
      && tally.tp[c] == old(tally.tp)[c] + Count(ps, Flags(ps, Slots(gts), threshold), true, c)
      && tally.fp[c] == old(tally.fp)[c] + Count(ps, Flags(ps, Slots(gts), threshold), false, c)
  {
    hide Hit, Take, Flags, Final, Count, Mark;
    matched := {};
    MarkNone(gts);
    FlagsLength(ps, Slots(gts), threshold);
    assert ps[0..] == ps;
    var k := 0;
    while k < |ps|
      invariant 0 <= k <= |ps| && tally.Valid() && tally.fn == old(tally.fn)
      invariant Final(ps[k..], Mark(gts, matched), threshold) == Final(ps, Slots(gts), threshold)
      invariant |Flags(ps[k..], Mark(gts, matched), threshold)| == |ps| - k
      invariant forall c | c in tally.classes ::
        tally.tp[c] + Count(ps[k..], Flags(ps[k..], Mark(gts, matched), threshold), true, c)
          == old(tally.tp)[c] + Count(ps, Flags(ps, Slots(gts), threshold), true, c)
      invariant forall c | c in tally.classes ::
        tally.fp[c] + Count(ps[k..], Flags(ps[k..], Mark(gts, matched), threshold), false, c)
          == old(tally.fp)[c] + Count(ps, Flags(ps, Slots(gts), threshold), false, c)
    {
      Unroll(ps, k, Mark(gts, matched), threshold);
      matched := MatchOne(tally, ps[k], gts, matched, threshold);
      k := k + 1;
    }
    Nothing(ps[k..], Mark(gts, matched), threshold);
  }

  lemma MarkNone(gts: seq<GroundTruth>)
    ensures Mark(gts, {}) == Slots(gts)
  {}

  lemma Nothing(ps: seq<Prediction>, slots: seq<Slot>, threshold: real)
    requires ps == []
    ensures Final(ps, slots, threshold) == slots && Flags(ps, slots, threshold) == []
    ensures forall want, c :: Count(ps, [], want, c) == 0
  {}

  method MatchOne(tally: Tally, p: Prediction, gts: seq<GroundTruth>, matched: set<nat>, threshold: real)
      returns (matched': set<nat>)
    requires tally.Valid() && p.cls in tally.classes
    requires forall i | 0 <= i < |gts| :: gts[i].image == p.image
    modifies tally
    ensures tally.Valid() && tally.fn == old(tally.fn)
    ensures Mark(gts, matched') == Take(p, Mark(gts, matched), threshold)
    ensures var hit := Hit(p, Mark(gts, matched), threshold);
      && tally.tp == (if hit then old(tally.tp)[p.cls := old(tally.tp)[p.cls] + 1] else old(tally.tp))
      && tally.fp == (if hit then old(tally.fp) else old(tally.fp)[p.cls := old(tally.fp)[p.cls] + 1])
  {
    hide Hit, Take, BestUpTo, Cell;
    ghost var slots := Mark(gts, matched);
    var iou, index := BestInImage(p, gts, matched);
    BestIndex(p, slots, |slots|);
    TakeIs(p, slots, threshold, iou, index);
    matched' := matched;
    if iou >= threshold && index >= 0 {
      MarkUse(gts, matched, index);
      matched' := matched + {index};
      tally.Hit(p.cls);
    } else {
      tally.Miss(p.cls);
    }
  }

  lemma TakeIs(p: Prediction, slots: seq<Slot>, threshold: real, iou: real, index: int)
    requires Best(iou, index) == BestUpTo(p, slots, |slots|)
    ensures Hit(p, slots, threshold) <==> iou >= threshold && index >= 0
    ensures Take(p, slots, threshold) == if iou >= threshold && index >= 0 then Use(slots, index) else slots
  {}

  /** One prediction of a pass and the rest of it. */
  lemma Unroll(ps: seq<Prediction>, k: nat, slots: seq<Slot>, threshold: real)
    requires k < |ps| && |Flags(ps[k..], slots, threshold)| == |ps| - k
    ensures var next := Take(ps[k], slots, threshold); var hit := Hit(ps[k], slots, threshold);
      && Flags(ps[k..], slots, threshold) == [hit] + Flags(ps[k + 1..], next, threshold)
      && |Flags(ps[k + 1..], next, threshold)| == |ps| - k - 1
      && Final(ps[k..], slots, threshold) == Final(ps[k + 1..], next, threshold)
      && forall want, c :: Count(ps[k..], Flags(ps[k..], slots, threshold), want, c)
           == (if hit == want && ps[k].cls == c then 1 else 0)
           + Count(ps[k + 1..], Flags(ps[k + 1..], next, threshold), want, c)
  {
    assert ps[k..][1..] == ps[k + 1..];
    var next := Take(ps[k], slots, threshold);
    assert Flags(ps[k..], slots, threshold)[1..] == Flags(ps[k + 1..], next, threshold);
  }

  method CountMissed(tally: Tally, gts: seq<GroundTruth>, matched: set<nat>)
    requires tally.Valid() && forall i | 0 <= i < |gts| :: gts[i].cls in tally.classes
    modifies tally
    ensures tally.Valid() && tally.tp == old(tally.tp) && tally.fp == old(tally.fp)
    ensures forall c | c in tally.classes :: tally.fn[c] == old(tally.fn)[c] + CountSlots(Mark(gts, matched), false, c)
  {
    var idx := 0;
    ghost var slots := Mark(gts, matched);
    while idx < |gts|
      invariant 0 <= idx <= |gts| && tally.Valid() && tally.tp == old(tally.tp) && tally.fp == old(tally.fp)
      invariant forall c | c in tally.classes ::
        tally.fn[c] + CountSlots(slots[idx..], false, c) == old(tally.fn)[c] + CountSlots(slots, false, c)
    {
      assert slots[idx..][1..] == slots[idx + 1..];
      if idx !in matched {
        tally.Missed(gts[idx].cls);
      }
      idx := idx + 1;
    }
    assert slots[idx..] == [];
  }

  // ----- the per-class pass ------------------------------------------------------------------------------

  /** Scan of the cross-image pass: image and class are fixed by the list itself. */
  method BestInClass(p: Prediction, gts: seq<GroundTruth>, matched: set<nat>) returns (iou: real, index: int)
    requires forall i | 0 <= i < |gts| :: gts[i].image == p.image && gts[i].cls == p.cls
    ensures Best(iou, index) == BestUpTo(p, Mark(gts, matched), |gts|)
  {
    iou, index := 0.0, -1;
    var idx := 0;
    while idx < |gts|
      invariant 0 <= idx <= |gts| && Best(iou, index) == BestUpTo(p, Mark(gts, matched), idx)
    {
      if idx !in matched {
        var overlap := Iou(p.box, gts[idx].box);
        if overlap > iou {
          iou, index := overlap, idx;
        }
      }
      idx := idx + 1;
    }
  }

  lemma {:induction false} FilterSwap<T(!new)>(xs: seq<T>, p: T -> bool, q: T -> bool)
    ensures Filter(Filter(xs, p), q) == Filter(Filter(xs, q), p)
  {
    if xs != [] {
      FilterSwap(xs[1..], p, q);
      var f, g := Filter(xs[1..], p), Filter(xs[1..], q);
      assert ([xs[0]] + f)[1..] == f && ([xs[0]] + g)[1..] == g;
    }
  }

  function MatchedIn(m: map<string, set<nat>>, image: string): set<nat> {
    if image in m then m[image] else {}
  }

  /** The ground truths of one class in one image, in dataset order. */
  function ClassInImage(gts: seq<GroundTruth>, cls: string, image: string): seq<GroundTruth> {
    Filter(Filter(gts, KeepTruth(OfImage(image))), KeepTruth(OfClass(cls)))
  }

  /** The matched sets kept per image say which ground truths of the class are taken. */
  ghost predicate Tracks(slots: seq<Slot>, gts: seq<GroundTruth>, cls: string, m: map<string, set<nat>>) {
    forall image :: Filter(slots, KeepSlot(OfImage(image))) == Mark(ClassInImage(gts, cls, image), MatchedIn(m, image))
  }

  lemma TracksStart(gts: seq<GroundTruth>, cls: string)
    ensures Tracks(Slots(Filter(gts, KeepTruth(OfClass(cls)))), gts, cls, map[])
  {
    var classGts := Filter(gts, KeepTruth(OfClass(cls)));
    forall image
      ensures Filter(Slots(classGts), KeepSlot(OfImage(image)))
              == Mark(ClassInImage(gts, cls, image), MatchedIn(map[], image))
    {
      SlotsFilter(classGts, OfImage(image));
      FilterSwap(gts, KeepTruth(OfImage(image)), KeepTruth(OfClass(cls)));
      MarkNone(ClassInImage(gts, cls, image));
    }
  }

  lemma ClassInImageIs(gts: seq<GroundTruth>, cls: string, image: string)
    ensures var xs := ClassInImage(gts, cls, image);
      forall i | 0 <= i < |xs| :: xs[i].image == image && xs[i].cls == cls
  {
    var xs := ClassInImage(gts, cls, image);
    FilterFacts(Filter(gts, KeepTruth(OfImage(image))), KeepTruth(OfClass(cls)));
    FilterFacts(gts, KeepTruth(OfImage(image)));
    forall i | 0 <= i < |xs| ensures xs[i].image == image && xs[i].cls == cls {
      assert xs[i] in xs;
      assert KeepTruth(OfClass(cls))(xs[i]) && KeepTruth(OfImage(image))(xs[i]);
    }
  }

  /** What one prediction does to the per-image sets is what it does to the reference matching. */
  lemma TracksStep(p: Prediction, slots: seq<Slot>, gts: seq<GroundTruth>, cls: string, m: map<string, set<nat>>,
                   threshold: real, iou: real, index: int, m': map<string, set<nat>>)
    requires Tracks(slots, gts, cls, m)
    requires var mine := ClassInImage(gts, cls, p.image);
      && Best(iou, index) == BestUpTo(p, Mark(mine, MatchedIn(m, p.image)), |mine|)
      && m' == m[p.image := if iou >= threshold && index >= 0 then MatchedIn(m, p.image) + {index}
                              else MatchedIn(m, p.image)]
    ensures Hit(p, slots, threshold) <==> iou >= threshold && index >= 0
    ensures Tracks(Take(p, slots, threshold), gts, cls, m')
  {
    hide Hit, Take, BestUpTo, KeepSlot;
    var mine := ClassInImage(gts, cls, p.image);
    var mark := Mark(mine, MatchedIn(m, p.image));
    TakeProjects(p, slots, threshold, OfImage(p.image));
    assert KeepPrediction(OfImage(p.image))(p);
    BestIndex(p, mark, |mark|);
    TakeIs(p, mark, threshold, iou, index);
    forall image
      ensures Filter(Take(p, slots, threshold), KeepSlot(OfImage(image)))
              == Mark(ClassInImage(gts, cls, image), MatchedIn(m', image))
    {
      TakeProjects(p, slots, threshold, OfImage(image));
      if image != p.image {
        assert !KeepPrediction(OfImage(image))(p);
      } else if iou >= threshold && index >= 0 {
        MarkUse(mine, MatchedIn(m, p.image), index);
      }
    }
  }

  /** The true-positive flags of one class over all images. */
  method ClassPass(sorted: seq<Prediction>, gts: seq<GroundTruth>, gtByImage: map<string, seq<GroundTruth>>,
                   cls: string, threshold: real)
      returns (tp: seq<bool>)
    requires forall i :: ListFor(gtByImage, i) == Filter(gts, KeepTruth(OfImage(i)))
    requires forall i | 0 <= i < |sorted| :: sorted[i].cls == cls
    ensures tp == Flags(sorted, Slots(Filter(gts, KeepTruth(OfClass(cls)))), threshold)
  {
    hide Hit, Take, Tracks, BestUpTo, Flags, Filter, Slots, Mark;
    tp := [];
    var matchedByImage: map<string, set<nat>> := map[];
    ghost var slots := Slots(Filter(gts, KeepTruth(OfClass(cls))));
    ghost var all := Flags(sorted, slots, threshold);
    TracksStart(gts, cls);
    FlagsLength(sorted, slots, threshold);
    assert sorted[0..] == sorted;
    var i := 0;
    while i < |sorted|
      invariant 0 <= i <= |sorted| && Tracks(slots, gts, cls, matchedByImage)
      invariant tp + Flags(sorted[i..], slots, threshold) == all
                && |Flags(sorted[i..], slots, threshold)| == |sorted| - i
    {
      var p := sorted[i];
      var imgGts := Filter(ListFor(gtByImage, p.image), KeepTruth(OfClass(cls)));
      ClassInImageIs(gts, cls, p.image);
      assert imgGts == ClassInImage(gts, cls, p.image);
      var matched := MatchedIn(matchedByImage, p.image);
      var iou, index := BestInClass(p, imgGts, matched);
      ghost var before := matchedByImage;
      if iou >= threshold && index >= 0 {
        matched := matched + {index};
      }
      matchedByImage := matchedByImage[p.image := matched];
      TracksStep(p, slots, gts, cls, before, threshold, iou, index, matchedByImage);
      Unroll(sorted, i, slots, threshold);
      tp := tp + [iou >= threshold && index >= 0];
      slots := Take(p, slots, threshold);
      i := i + 1;
    }
    Nothing(sorted[i..], slots, threshold);
  }

  /** Average precision of one class at one threshold. */
  method ClassAp(sorted: seq<Prediction>, gts: seq<GroundTruth>, gtByImage: map<string, seq<GroundTruth>>, cls: string,
                 threshold: real, total: nat) returns (ap: real)
    requires forall i :: ListFor(gtByImage, i) == Filter(gts, KeepTruth(OfImage(i)))
    requires forall i | 0 <= i < |sorted| :: sorted[i].cls == cls
    ensures ap == ApOf(Flags(sorted, Slots(Filter(gts, KeepTruth(OfClass(cls)))), threshold), total)
  {
    var tp := ClassPass(sorted, gts, gtByImage, cls, threshold);
    ap := Integrate(tp, total);
  }

  // ----- evaluate ------------------------------------------------------------------------------------------

  function Classes(ps: seq<Prediction>, gts: seq<GroundTruth>): set<string> {
    (set g | g in gts :: g.cls) + (set p | p in ps :: p.cls)
  }

  /** The three counters hold what the reference matching has in these images. */
  ghost predicate CountsUpTo(tp: map<string, nat>, fp: map<string, nat>, fn: map<string, nat>, classes: set<string>,
                             ps: seq<Prediction>, gts: seq<GroundTruth>, threshold: real, images: set<string>)
    requires classes <= tp.Keys && classes <= fp.Keys && classes <= fn.Keys
    requires |Flags(Ordered(ps), Slots(gts), threshold)| == |Ordered(ps)|
  {
    forall c | c in classes ::
      && tp[c] == CountIn(Ordered(ps), Flags(Ordered(ps), Slots(gts), threshold), true, c, images)
      && fp[c] == CountIn(Ordered(ps), Flags(Ordered(ps), Slots(gts), threshold), false, c, images)
      && fn[c] == CountSlotsIn(Final(Ordered(ps), Slots(gts), threshold), false, c, images)
  }

  /** Counters and confusion matrix over all images, visited in any order. */
  method CountAll(ps: seq<Prediction>, gts: seq<GroundTruth>, gtByImage: map<string, seq<GroundTruth>>,
                  predByImage: map<string, seq<Prediction>>, threshold: real) returns (tally: Tally)
    requires forall i :: ListFor(gtByImage, i) == Filter(gts, KeepTruth(OfImage(i)))
    requires forall i :: ListFor(predByImage, i) == Filter(ps, KeepPrediction(OfImage(i)))
    requires (forall g | g in gts :: g.image in gtByImage) && (forall p | p in ps :: p.image in predByImage)
    ensures fresh(tally) && tally.Valid() && tally.classes == Classes(ps, gts)
    ensures forall c | c in tally.classes ::
      && tally.tp[c] == TruePositives(ps, gts, threshold, c)
      && tally.fp[c] == FalsePositives(ps, gts, threshold, c)
      && tally.fn[c] == FalseNegatives(ps, gts, threshold, c)
  {
    hide Flags, Final, Count, CountIn, CountSlots, CountSlotsIn, Filter, SortDesc, CountsUpTo, Slots, Cell, Classes;
    tally := new Tally(Classes(ps, gts));
    var images := gtByImage.Keys + predByImage.Keys;
    var todo := images;
    FlagsLength(Ordered(ps), Slots(gts), threshold);
    StartCounts(tally, ps, gts, threshold);
    ghost var done: set<string> := {};
    while todo != {}
      invariant done + todo == images && done * todo == {} && tally.Valid()
      invariant CountsUpTo(tally.tp, tally.fp, tally.fn, tally.classes, ps, gts, threshold, done)
    {
      var image :| image in todo;
      CountImage(tally, ps, gts, ListFor(gtByImage, image), ListFor(predByImage, image), threshold, done, image);
      done := done + {image};
      todo := todo - {image};
    }
    EndCounts(tally, ps, gts, threshold, images);
  }

  method CountImage(tally: Tally, ghost ps: seq<Prediction>, ghost gts: seq<GroundTruth>, imgGts: seq<GroundTruth>,
                    imgPreds: seq<Prediction>, threshold: real, ghost images: set<string>, image: string)
    requires imgGts == Filter(gts, KeepTruth(OfImage(image))) && imgPreds == Filter(ps, KeepPrediction(OfImage(image)))
    requires tally.Valid() && tally.classes == Classes(ps, gts) && image !in images
    requires |Flags(Ordered(ps), Slots(gts), threshold)| == |Ordered(ps)|
             && CountsUpTo(tally.tp, tally.fp, tally.fn, tally.classes, ps, gts, threshold, images)
    modifies tally
    ensures tally.Valid()
            && CountsUpTo(tally.tp, tally.fp, tally.fn, tally.classes, ps, gts, threshold, images + {image})
  {
    hide Flags, Final, Count, CountIn, CountSlots, CountSlotsIn, Filter, SortDesc, CountsUpTo, Slots, Cell, Classes;
    ghost var tp, fp, fn := tally.tp, tally.fp, tally.fn;
    ImageLists(ps, gts, image);
    var sorted := SortDesc(imgPreds, ConfidenceOf);
    assert sorted == Ordered(Filter(ps, KeepPrediction(OfImage(image))));
    EvaluateImage(tally, image, sorted, imgGts, threshold);
    AddCounts(tp, fp, fn, tally.tp, tally.fp, tally.fn, tally.classes, ps, gts, threshold, images, image);
  }

  lemma StartCounts(tally: Tally, ps: seq<Prediction>, gts: seq<GroundTruth>, threshold: real)
    requires tally.Valid() && |Flags(Ordered(ps), Slots(gts), threshold)| == |Ordered(ps)|
    requires forall c | c in tally.classes :: tally.tp[c] == 0 && tally.fp[c] == 0 && tally.fn[c] == 0
    ensures CountsUpTo(tally.tp, tally.fp, tally.fn, tally.classes, ps, gts, threshold, {})
  {
    var sorted, slots := Ordered(ps), Slots(gts);
    forall c | c in tally.classes
      ensures CountIn(sorted, Flags(sorted, slots, threshold), true, c, {}) == 0
      ensures CountIn(sorted, Flags(sorted, slots, threshold), false, c, {}) == 0
      ensures CountSlotsIn(Final(sorted, slots, threshold), false, c, {}) == 0
    {
      NoImages(sorted, Flags(sorted, slots, threshold), true, c);
      NoImages(sorted, Flags(sorted, slots, threshold), false, c);
      NoImageSlots(Final(sorted, slots, threshold), false, c);
    }
  }

  lemma ImageLists(ps: seq<Prediction>, gts: seq<GroundTruth>, image: string)
    ensures var mine := Ordered(Filter(ps, KeepPrediction(OfImage(image))));
      forall i | 0 <= i < |mine| :: mine[i].image == image && mine[i].cls in Classes(ps, gts)
    ensures var mine := Filter(gts, KeepTruth(OfImage(image)));
      forall i | 0 <= i < |mine| :: mine[i].image == image && mine[i].cls in Classes(ps, gts)
  {
    var p := Filter(ps, KeepPrediction(OfImage(image)));
    var g := Filter(gts, KeepTruth(OfImage(image)));
    FilterFacts(ps, KeepPrediction(OfImage(image)));
    FilterFacts(gts, KeepTruth(OfImage(image)));
    SortFacts(p, ConfidenceOf);
    forall i | 0 <= i < |p| ensures Ordered(p)[i].image == image && Ordered(p)[i].cls in Classes(ps, gts) {
      assert Ordered(p)[i] in Ordered(p);
      assert Ordered(p)[i] in p && KeepPrediction(OfImage(image))(Ordered(p)[i]);
    }
    forall i | 0 <= i < |g| ensures g[i].image == image && g[i].cls in Classes(ps, gts) {
      assert g[i] in g && KeepTruth(OfImage(image))(g[i]);
    }
  }

  /** The counts of one image are the part of the reference matching that lies in it. */
  lemma ImageShare(ps: seq<Prediction>, gts: seq<GroundTruth>, threshold: real, images: set<string>, image: string,
                   c: string)
    requires image !in images && |Flags(Ordered(ps), Slots(gts), threshold)| == |Ordered(ps)|
    ensures var mine := Ordered(Filter(ps, KeepPrediction(OfImage(image))));
      var truths := Filter(gts, KeepTruth(OfImage(image)));
      var sorted, flags := Ordered(ps), Flags(Ordered(ps), Slots(gts), threshold);
      var final := Final(Ordered(ps), Slots(gts), threshold);
      && |Flags(mine, Slots(truths), threshold)| == |mine|
      && (forall hit :: CountIn(sorted, flags, hit, c, images + {image})
            == CountIn(sorted, flags, hit, c, images) + Count(mine, Flags(mine, Slots(truths), threshold), hit, c))
      && CountSlotsIn(final, false, c, images + {image})
            == CountSlotsIn(final, false, c, images) + CountSlots(Final(mine, Slots(truths), threshold), false, c)
  {
    hide Flags, Final, Count, CountIn, CountSlots, CountSlotsIn, Filter, SortDesc;
    var sorted, flags := Ordered(ps), Flags(Ordered(ps), Slots(gts), threshold);
    var final := Final(Ordered(ps), Slots(gts), threshold);
    PassIsRestriction(ps, gts, threshold, OfImage(image));
    AddImage(sorted, flags, true, c, images, image);
    AddImage(sorted, flags, false, c, images, image);
    AddImageSlots(final, false, c, images, image);
    forall hit
      ensures CountIn(sorted, flags, hit, c, images + {image}) == CountIn(sorted, flags, hit, c, images)
        + Count(Ordered(Filter(ps, KeepPrediction(OfImage(image)))), PassFlags(ps, gts, threshold, OfImage(image)),
                hit, c)
    {
      assert hit == true || hit == false;
    }
  }

  lemma AddCounts(tp: map<string, nat>, fp: map<string, nat>, fn: map<string, nat>,
                  tp': map<string, nat>, fp': map<string, nat>, fn': map<string, nat>, classes: set<string>,
                  ps: seq<Prediction>, gts: seq<GroundTruth>, threshold: real, images: set<string>, image: string)
    requires classes <= tp.Keys && classes <= fp.Keys && classes <= fn.Keys && image !in images
    requires classes <= tp'.Keys && classes <= fp'.Keys && classes <= fn'.Keys
    requires |Flags(Ordered(ps), Slots(gts), threshold)| == |Ordered(ps)|
    requires CountsUpTo(tp, fp, fn, classes, ps, gts, threshold, images)
    requires var mine := Ordered(Filter(ps, KeepPrediction(OfImage(image))));
      var truths := Filter(gts, KeepTruth(OfImage(image)));
      |Flags(mine, Slots(truths), threshold)| == |mine| && forall c | c in classes ::
        && tp'[c] == tp[c] + Count(mine, Flags(mine, Slots(truths), threshold), true, c)
        && fp'[c] == fp[c] + Count(mine, Flags(mine, Slots(truths), threshold), false, c)
        && fn'[c] == fn[c] + CountSlots(Final(mine, Slots(truths), threshold), false, c)
    ensures CountsUpTo(tp', fp', fn', classes, ps, gts, threshold, images + {image})
  {
    hide Flags, Final, Count, CountIn, CountSlots, CountSlotsIn, Filter, SortDesc, Slots;
    forall c | c in classes
      ensures tp'[c] == CountIn(Ordered(ps), Flags(Ordered(ps), Slots(gts), threshold), true, c, images + {image})
      ensures fp'[c] == CountIn(Ordered(ps), Flags(Ordered(ps), Slots(gts), threshold), false, c, images + {image})
      ensures fn'[c] == CountSlotsIn(Final(Ordered(ps), Slots(gts), threshold), false, c, images + {image})
    {
      ImageShare(ps, gts, threshold, images, image, c);
    }
  }

  lemma EndCounts(tally: Tally, ps: seq<Prediction>, gts: seq<GroundTruth>, threshold: real, images: set<string>)
    requires tally.Valid() && |Flags(Ordered(ps), Slots(gts), threshold)| == |Ordered(ps)|
    requires CountsUpTo(tally.tp, tally.fp, tally.fn, tally.classes, ps, gts, threshold, images)
    requires (forall p | p in ps :: p.image in images) && (forall g | g in gts :: g.image in images)
    ensures forall c | c in tally.classes ::
      && tally.tp[c] == TruePositives(ps, gts, threshold, c)
      && tally.fp[c] == FalsePositives(ps, gts, threshold, c)
      && tally.fn[c] == FalseNegatives(ps, gts, threshold, c)
  {
    hide Flags, Final, Count, CountIn, CountSlots, CountSlotsIn, Cell;
    var sorted, slots := Ordered(ps), Slots(gts);
    var final := Final(sorted, slots, threshold);
    SortFacts(ps, ConfidenceOf);
    FinalImages(sorted, slots, threshold, images);
    forall i | 0 <= i < |sorted| ensures sorted[i].image in images {
      assert sorted[i] in sorted;
    }
    forall c | c in tally.classes
      ensures tally.tp[c] == TruePositives(ps, gts, threshold, c)
      ensures tally.fp[c] == FalsePositives(ps, gts, threshold, c)
      ensures tally.fn[c] == FalseNegatives(ps, gts, threshold, c)
    {
      AllImages(sorted, Flags(sorted, slots, threshold), true, c, images);
      AllImages(sorted, Flags(sorted, slots, threshold), false, c, images);
      AllImageSlots(final, false, c, images);
    }
  }

  lemma {:induction false} FinalImages(ps: seq<Prediction>, slots: seq<Slot>, threshold: real, images: set<string>)
    requires forall i | 0 <= i < |slots| :: slots[i].gt.image in images
    ensures forall i | 0 <= i < |Final(ps, slots, threshold)| :: Final(ps, slots, threshold)[i].gt.image in images
  {
    if ps != [] {
      BestIndex(ps[0], slots, |slots|);
      FinalImages(ps[1..], Take(ps[0], slots, threshold), threshold, images);
    }
  }

  class ModelEvaluator {
    const iouThresholds: seq<real>

    constructor (iouThresholds: seq<real>)
      ensures this.iouThresholds == iouThresholds
    {
      this.iouThresholds := iouThresholds;
    }

    /**
     Counts at the primary threshold, and for every class with ground truths one average precision per
     threshold. A class's true positives are the hits of its own average-precision pass.
     */
    method Evaluate(ps: seq<Prediction>, gts: seq<GroundTruth>, primaryIou: real)
        returns (tally: Tally, aps: map<string, seq<real>>)
      ensures fresh(tally) && tally.Valid() && tally.classes == Classes(ps, gts) == aps.Keys
      ensures forall c | c in tally.classes ::
        && tally.tp[c] == CountTrue(PassFlags(ps, gts, primaryIou, OfClass(c)))
        && tally.tp[c] + tally.fp[c] == |Filter(ps, KeepPrediction(OfClass(c)))|
        && tally.tp[c] + tally.fn[c] == |Filter(gts, KeepTruth(OfClass(c)))|
      ensures Tallied(tally.confusion, tally.tp, tally.fp, tally.fn, ps, gts, primaryIou, tally.classes)
      ensures forall c | c in aps :: ApsAre(ps, gts, c, aps[c])
    {
      hide Flags, Final, Filter, SortDesc, CountTrue, BestSum, TruePositives, FalsePositives, FalseNegatives, Cell;
      hide ApOf, PassFlags, ApsAre, ListFor, Tallied, CountsOf, Labels;
      var gtByImage := GroupTruths(gts);
      var predByImage := GroupPredictions(ps);
      tally := CountAll(ps, gts, gtByImage, predByImage, primaryIou);
      forall c | c in tally.classes
        ensures tally.tp[c] == CountTrue(PassFlags(ps, gts, primaryIou, OfClass(c)))
        ensures tally.tp[c] + tally.fp[c] == |Filter(ps, KeepPrediction(OfClass(c)))|
        ensures tally.tp[c] + tally.fn[c] == |Filter(gts, KeepTruth(OfClass(c)))|
      {
        CountsAgree(ps, gts, primaryIou, c);
        Conservation(ps, gts, primaryIou, c);
      }
      TallyHolds(tally, ps, gts, primaryIou);
      aps := AllCurves(ps, gts, gtByImage, tally.classes);
    }

    method AllCurves(ps: seq<Prediction>, gts: seq<GroundTruth>, gtByImage: map<string, seq<GroundTruth>>,
                     classes: set<string>)
        returns (aps: map<string, seq<real>>)
      requires forall i :: ListFor(gtByImage, i) == Filter(gts, KeepTruth(OfImage(i)))
      ensures aps.Keys == classes && forall c | c in aps :: ApsAre(ps, gts, c, aps[c])
    {
      hide ApsAre, ListFor;
      aps := map[];
      var todo := classes;
      while todo != {}
        modifies {}
        invariant todo <= classes && aps.Keys == classes - todo
        invariant forall c | c in aps :: ApsAre(ps, gts, c, aps[c])
      {
        var c :| c in todo;
        var curve := ClassCurve(ps, gts, gtByImage, c);
        aps := aps[c := curve];
        todo := todo - {c};
      }
    }

    /** One average precision per threshold, or none for a class without ground truths. */
    ghost predicate ApsAre(ps: seq<Prediction>, gts: seq<GroundTruth>, c: string, curve: seq<real>) {
      && |curve| == (if Filter(gts, KeepTruth(OfClass(c))) == [] then 0 else |iouThresholds|)
      && forall k | 0 <= k < |curve| ::
           curve[k] == ApOf(PassFlags(ps, gts, iouThresholds[k], OfClass(c)), |Filter(gts, KeepTruth(OfClass(c)))|)
    }

    method ClassCurve(ps: seq<Prediction>, gts: seq<GroundTruth>, gtByImage: map<string, seq<GroundTruth>>, c: string)
        returns (curve: seq<real>)
      requires forall i :: ListFor(gtByImage, i) == Filter(gts, KeepTruth(OfImage(i)))
      ensures ApsAre(ps, gts, c, curve)
    {
      hide Flags, Filter, ApOf;
      var clsPreds := SortDesc(Filter(ps, KeepPrediction(OfClass(c))), ConfidenceOf);
      var clsGts := Filter(gts, KeepTruth(OfClass(c)));
      assert clsPreds == Ordered(Filter(ps, KeepPrediction(OfClass(c))));
      OrderedClass(ps, c, clsPreds);
      curve := [];
      if |clsGts| == 0 {
        return;
      }
      var k := 0;
      while k < |iouThresholds|
        modifies {}
        invariant 0 <= k <= |iouThresholds| && |curve| == k
        invariant forall j | 0 <= j < k :: curve[j] == ApOf(PassFlags(ps, gts, iouThresholds[j], OfClass(c)), |clsGts|)
      {
        var ap := ClassAp(clsPreds, gts, gtByImage, c, iouThresholds[k], |clsGts|);
        curve := curve + [ap];
        k := k + 1;
      }
    }
  }

  lemma TallyHolds(tally: Tally, ps: seq<Prediction>, gts: seq<GroundTruth>, threshold: real)
    requires tally.Valid() && tally.classes == Classes(ps, gts)
    requires forall c | c in tally.classes ::
      && tally.tp[c] == TruePositives(ps, gts, threshold, c)
      && tally.fp[c] == FalsePositives(ps, gts, threshold, c)
      && tally.fn[c] == FalseNegatives(ps, gts, threshold, c)
    ensures Tallied(tally.confusion, tally.tp, tally.fp, tally.fn, ps, gts, threshold, tally.classes)
  {
    hide TruePositives, FalsePositives, FalseNegatives, Cell;
  }

  lemma OrderedClass(ps: seq<Prediction>, c: string, mine: seq<Prediction>)
    requires mine == Ordered(Filter(ps, KeepPrediction(OfClass(c))))
    ensures forall i | 0 <= i < |mine| :: mine[i].cls == c
  {
    var p := Filter(ps, KeepPrediction(OfClass(c)));
    FilterFacts(ps, KeepPrediction(OfClass(c)));
    SortFacts(p, ConfidenceOf);
    forall i | 0 <= i < |mine| ensures mine[i].cls == c {
      assert mine[i] in mine;
      assert KeepPrediction(OfClass(c))(mine[i]);
    }
  }
}
