/** The evaluator: per-image counts, the confusion matrix, and per-class average precision. */
module Evaluation {
  import opened StableSort
  import opened Matching
  import opened AveragePrecision

  // ----- counting outcomes -------------------------------------------------------------------------

  /** Predictions of a class whose outcome is `hit`. */
  function Count(ps: seq<Prediction>, flags: seq<bool>, hit: bool, cls: string): nat
    requires |ps| == |flags|
  {
    if ps == [] then 0
    else (if flags[0] == hit && ps[0].cls == cls then 1 else 0) + Count(ps[1..], flags[1..], hit, cls)
  }

  /** The same, of predictions in a set of images. */
  function CountIn(ps: seq<Prediction>, flags: seq<bool>, hit: bool, cls: string, images: set<string>): nat
    requires |ps| == |flags|
  {
    if ps == [] then 0
    else (if flags[0] == hit && ps[0].cls == cls && ps[0].image in images then 1 else 0)
         + CountIn(ps[1..], flags[1..], hit, cls, images)
  }

  /** Ground truths of a class left free, or taken. */
  function CountSlots(slots: seq<Slot>, used: bool, cls: string): nat {
    if slots == [] then 0
    else (if slots[0].used == used && slots[0].gt.cls == cls then 1 else 0) + CountSlots(slots[1..], used, cls)
  }

  function CountSlotsIn(slots: seq<Slot>, used: bool, cls: string, images: set<string>): nat {
    if slots == [] then 0
    else (if slots[0].used == used && slots[0].gt.cls == cls && slots[0].gt.image in images then 1 else 0)
         + CountSlotsIn(slots[1..], used, cls, images)
  }

  /** One more image adds what the pass over that image alone counts. */
  lemma {:induction false} AddImage(ps: seq<Prediction>, flags: seq<bool>, hit: bool, cls: string, images: set<string>,
                                    image: string)
    requires |ps| == |flags| && image !in images
    ensures |Pick(ps, flags, OfImage(image))| == |Filter(ps, KeepPrediction(OfImage(image)))|
    ensures CountIn(ps, flags, hit, cls, images + {image}) == CountIn(ps, flags, hit, cls, images)
         + Count(Filter(ps, KeepPrediction(OfImage(image))), Pick(ps, flags, OfImage(image)), hit, cls)
  {
    PickLength(ps, flags, OfImage(image));
    if ps != [] {
      AddImage(ps[1..], flags[1..], hit, cls, images, image);
      var rest, bits := Filter(ps[1..], KeepPrediction(OfImage(image))), Pick(ps[1..], flags[1..], OfImage(image));
      assert ([ps[0]] + rest)[1..] == rest && ([flags[0]] + bits)[1..] == bits;
    }
  }

  lemma {:induction false} AddImageSlots(slots: seq<Slot>, used: bool, cls: string, images: set<string>, image: string)
    requires image !in images
    ensures CountSlotsIn(slots, used, cls, images + {image}) == CountSlotsIn(slots, used, cls, images)
         + CountSlots(Filter(slots, KeepSlot(OfImage(image))), used, cls)
  {
    if slots != [] {
      AddImageSlots(slots[1..], used, cls, images, image);
      var rest := Filter(slots[1..], KeepSlot(OfImage(image)));
      assert ([slots[0]] + rest)[1..] == rest;
    }
  }

  lemma {:induction false} AllImages(ps: seq<Prediction>, flags: seq<bool>, hit: bool, cls: string, images: set<string>)
    requires |ps| == |flags| && forall i | 0 <= i < |ps| :: ps[i].image in images
    ensures CountIn(ps, flags, hit, cls, images) == Count(ps, flags, hit, cls)
  {
    if ps != [] {
      AllImages(ps[1..], flags[1..], hit, cls, images);
    }
  }

  lemma {:induction false} AllImageSlots(slots: seq<Slot>, used: bool, cls: string, images: set<string>)
    requires forall i | 0 <= i < |slots| :: slots[i].gt.image in images
    ensures CountSlotsIn(slots, used, cls, images) == CountSlots(slots, used, cls)
  {
    if slots != [] {
      AllImageSlots(slots[1..], used, cls, images);
    }
  }

  lemma {:induction false} NoImages(ps: seq<Prediction>, flags: seq<bool>, hit: bool, cls: string)
    requires |ps| == |flags|
    ensures CountIn(ps, flags, hit, cls, {}) == 0
  {
    if ps != [] {
      NoImages(ps[1..], flags[1..], hit, cls);
    }
  }

  lemma {:induction false} NoImageSlots(slots: seq<Slot>, used: bool, cls: string)
    ensures CountSlotsIn(slots, used, cls, {}) == 0
  {
    if slots != [] {
      NoImageSlots(slots[1..], used, cls);
    }
  }

  // ----- conservation ------------------------------------------------------------------------------

  lemma {:induction false} HitsAndMisses(ps: seq<Prediction>, flags: seq<bool>, cls: string)
    requires |ps| == |flags|
    ensures Count(ps, flags, true, cls) + Count(ps, flags, false, cls) == |Filter(ps, KeepPrediction(OfClass(cls)))|
  {
    if ps != [] {
      HitsAndMisses(ps[1..], flags[1..], cls);
    }
  }

  lemma {:induction false} UsedAndFree(slots: seq<Slot>, cls: string)
    ensures CountSlots(slots, true, cls) + CountSlots(slots, false, cls) == |Filter(slots, KeepSlot(OfClass(cls)))|
  {
    if slots != [] {
      UsedAndFree(slots[1..], cls);
    }
  }

  lemma {:induction false} UseCount(slots: seq<Slot>, i: nat, cls: string)
    requires i < |slots| && !slots[i].used
    ensures CountSlots(Use(slots, i), true, cls)
            == CountSlots(slots, true, cls) + if slots[i].gt.cls == cls then 1 else 0
    ensures |Filter(Use(slots, i), KeepSlot(OfClass(cls)))| == |Filter(slots, KeepSlot(OfClass(cls)))|
  {
    if i > 0 {
      UseCount(slots[1..], i - 1, cls);
      assert Use(slots, i)[1..] == Use(slots[1..], i - 1);
    } else {
      assert Use(slots, 0)[1..] == slots[1..];
    }
  }

  /** Every hit takes one ground truth of its own class, and only hits do. */
  lemma {:induction false} HitsAreUsed(ps: seq<Prediction>, slots: seq<Slot>, threshold: real, cls: string)
    ensures |Flags(ps, slots, threshold)| == |ps|
    ensures CountSlots(Final(ps, slots, threshold), true, cls)
         == CountSlots(slots, true, cls) + Count(ps, Flags(ps, slots, threshold), true, cls)
    ensures |Filter(Final(ps, slots, threshold), KeepSlot(OfClass(cls)))| == |Filter(slots, KeepSlot(OfClass(cls)))|
  {
    FlagsLength(ps, slots, threshold);
    if ps != [] {
      var next := Take(ps[0], slots, threshold);
      HitsAreUsed(ps[1..], next, threshold, cls);
      assert Flags(ps, slots, threshold)[1..] == Flags(ps[1..], next, threshold);
      BestIndex(ps[0], slots, |slots|);
      if Hit(ps[0], slots, threshold) {
        UseCount(slots, BestUpTo(ps[0], slots, |slots|).index, cls);
      }
    }
  }

  lemma {:induction false} FreshSlots(gts: seq<GroundTruth>, cls: string)
    ensures CountSlots(Slots(gts), true, cls) == 0
    ensures |Filter(Slots(gts), KeepSlot(OfClass(cls)))| == |Filter(gts, KeepTruth(OfClass(cls)))|
  {
    if gts != [] {
      FreshSlots(gts[1..], cls);
      assert Slots(gts)[1..] == Slots(gts[1..]);
    }
  }

  /** True and false positives and false negatives of a class in the reference matching. */
  function TruePositives(ps: seq<Prediction>, gts: seq<GroundTruth>, threshold: real, cls: string): nat {
    FlagsLength(Ordered(ps), Slots(gts), threshold);
    Count(Ordered(ps), Flags(Ordered(ps), Slots(gts), threshold), true, cls)
  }

  function FalsePositives(ps: seq<Prediction>, gts: seq<GroundTruth>, threshold: real, cls: string): nat {
    FlagsLength(Ordered(ps), Slots(gts), threshold);
    Count(Ordered(ps), Flags(Ordered(ps), Slots(gts), threshold), false, cls)
  }

  function FalseNegatives(ps: seq<Prediction>, gts: seq<GroundTruth>, threshold: real, cls: string): nat {
    CountSlots(Final(Ordered(ps), Slots(gts), threshold), false, cls)
  }

  lemma SortedClassSize(ps: seq<Prediction>, scope: Scope)
    ensures |Filter(Ordered(ps), KeepPrediction(scope))| == |Filter(ps, KeepPrediction(scope))|
  {
    FilterSort(ps, ConfidenceOf, KeepPrediction(scope));
    SortFacts(Filter(ps, KeepPrediction(scope)), ConfidenceOf);
  }

  /** Per class, TP + FP counts the predictions and TP + FN the ground truths. */
  lemma Conservation(ps: seq<Prediction>, gts: seq<GroundTruth>, threshold: real, cls: string)
    ensures TruePositives(ps, gts, threshold, cls) + FalsePositives(ps, gts, threshold, cls)
         == |Filter(ps, KeepPrediction(OfClass(cls)))|
    ensures TruePositives(ps, gts, threshold, cls) + FalseNegatives(ps, gts, threshold, cls)
         == |Filter(gts, KeepTruth(OfClass(cls)))|
  {
    hide Flags, Final, Count, CountSlots;
    var sorted, slots := Ordered(ps), Slots(gts);
    FlagsLength(sorted, slots, threshold);
    HitsAndMisses(sorted, Flags(sorted, slots, threshold), cls);
    SortedClassSize(ps, OfClass(cls));
    HitsAreUsed(sorted, slots, threshold, cls);
    UsedAndFree(Final(sorted, slots, threshold), cls);
    FreshSlots(gts, cls);
  }

  lemma {:induction false} CountIsPicked(ps: seq<Prediction>, flags: seq<bool>, cls: string)
    requires |ps| == |flags|
    ensures Count(ps, flags, true, cls) == TrueFrom(Pick(ps, flags, OfClass(cls)), 0)
  {
    if ps != [] {
      CountIsPicked(ps[1..], flags[1..], cls);
      if ps[0].cls == cls {
        TrueFromShift(flags[0], Pick(ps[1..], flags[1..], OfClass(cls)), 0);
      }
    }
  }

  lemma {:induction false} TrueFromShift(flag: bool, flags: seq<bool>, j: nat)
    requires j <= |flags|
    ensures TrueFrom([flag] + flags, j + 1) == TrueFrom(flags, j)
    decreases |flags| - j
  {
    if j < |flags| {
      TrueFromShift(flag, flags, j + 1);
    }
  }

  /**
   The evaluator's two matchers count alike: the true positives summed over the per-image passes at a
   threshold are the hits the average-precision pass of that class sets at that threshold.
   */
  lemma CountsAgree(ps: seq<Prediction>, gts: seq<GroundTruth>, threshold: real, cls: string)
    ensures TruePositives(ps, gts, threshold, cls) == CountTrue(PassFlags(ps, gts, threshold, OfClass(cls)))
  {
    hide Flags, Final, Count, CountTrue, PassFlags, PassFinal;
    var sorted := Ordered(ps);
    PassIsRestriction(ps, gts, threshold, OfClass(cls));
    CountIsPicked(sorted, Flags(sorted, Slots(gts), threshold), cls);
    TrueFromTotal(PassFlags(ps, gts, threshold, OfClass(cls)));
  }

  lemma TrueFromTotal(flags: seq<bool>)
    ensures TrueFrom(flags, 0) == CountTrue(flags)
  {
    TrueFromSplit(flags, 0);
    assert flags[..0] == [];
  }

  /** So the average precision of a class is bounded by its recall, and by one. */
  lemma ClassApBounds(ps: seq<Prediction>, gts: seq<GroundTruth>, threshold: real, cls: string)
    requires Filter(gts, KeepTruth(OfClass(cls))) != []
    ensures var total := |Filter(gts, KeepTruth(OfClass(cls)))|;
      && CountTrue(PassFlags(ps, gts, threshold, OfClass(cls))) <= total
      && 0.0 <= ApOf(PassFlags(ps, gts, threshold, OfClass(cls)), total)
             <= TruePositives(ps, gts, threshold, cls) as real / total as real <= 1.0
  {
    hide Flags, Final, Count, CountTrue, PassFlags, TruePositives, FalsePositives, FalseNegatives, ApOf;
    CountsAgree(ps, gts, threshold, cls);
    Conservation(ps, gts, threshold, cls);
    ApBounds(PassFlags(ps, gts, threshold, OfClass(cls)), |Filter(gts, KeepTruth(OfClass(cls)))|);
  }
}
