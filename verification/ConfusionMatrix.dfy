/** Rows and columns of the evaluator's confusion matrix. */
module ConfusionMatrix {
  import opened StableSort
  import opened Matching
  import opened Evaluation
  import opened EvaluatorPasses

  /** Sum over a set of labels. */
  ghost function SumOver(labels: set<string>, f: string -> nat): nat {
    if labels == {} then 0
    else
      var x :| x in labels;
      f(x) + SumOver(labels - {x}, f)
  }

  lemma {:induction false} SumWithout(labels: set<string>, f: string -> nat, y: string)
    requires y in labels
    ensures SumOver(labels, f) == f(y) + SumOver(labels - {y}, f)
    decreases labels
  {
    var x :| x in labels && SumOver(labels, f) == f(x) + SumOver(labels - {x}, f);
    if x != y {
      SumWithout(labels - {x}, f, y);
      SumWithout(labels - {y}, f, x);
      assert labels - {x} - {y} == labels - {y} - {x};
    }
  }

  lemma {:induction false} SumIsZero(labels: set<string>, f: string -> nat)
    ensures SumOver(labels, f) == 0 <==> forall x | x in labels :: f(x) == 0
  {
    if y :| y in labels {
      SumWithout(labels, f, y);
      SumIsZero(labels - {y}, f);
    }
  }

  lemma {:induction false} SumSame(labels: set<string>, f: string -> nat, g: string -> nat)
    requires forall x | x in labels :: f(x) == g(x)
    ensures SumOver(labels, f) == SumOver(labels, g)
  {
    if y :| y in labels {
      SumWithout(labels, f, y);
      SumWithout(labels, g, y);
      SumSame(labels - {y}, f, g);
    }
  }

  function At(m: Matrix, truth: string, said: string): nat {
    if (truth, said) in m then m[(truth, said)] else 0
  }

  function ColumnOf(m: Matrix, said: string): string -> nat {
    (truth: string) => At(m, truth, said)
  }

  function RowOf(m: Matrix, truth: string): string -> nat {
    (said: string) => At(m, truth, said)
  }

  function CounterAt(counter: map<string, nat>, c: string): nat {
    if c in counter then counter[c] else 0
  }

  function CounterOf(counter: map<string, nat>): string -> nat {
    (c: string) => CounterAt(counter, c)
  }

  /** All that was said to be of a class, and all that is of a class. */
  ghost function ColumnSum(m: Matrix, classes: set<string>, said: string): nat {
    SumOver(Labels(classes), ColumnOf(m, said))
  }

  ghost function RowSum(m: Matrix, classes: set<string>, truth: string): nat {
    SumOver(Labels(classes), RowOf(m, truth))
  }

  /** Off the diagonal and the background a cell is zero; the two that are left are the counters. */
  lemma {:induction false} FewCells(labels: set<string>, f: string -> nat, a: string, b: string)
    requires a in labels && b in labels && a != b && forall x | x in labels && x != a && x != b :: f(x) == 0
    ensures SumOver(labels, f) == f(a) + f(b)
  {
    SumWithout(labels, f, a);
    SumWithout(labels - {a}, f, b);
    SumIsZero(labels - {a} - {b}, f);
  }

  /** The background's column and row hold, beside its own counters, everything that was missed or invented. */
  lemma BackgroundSums(m: Matrix, tp: map<string, nat>, fp: map<string, nat>, fn: map<string, nat>, ps: seq<Prediction>,
                       gts: seq<GroundTruth>, threshold: real, classes: set<string>)
    requires Tallied(m, tp, fp, fn, ps, gts, threshold, classes)
    ensures ColumnSum(m, classes, BACKGROUND)
            == CounterAt(tp, BACKGROUND) + CounterAt(fp, BACKGROUND) + SumOver(Labels(classes), CounterOf(fn))
    ensures RowSum(m, classes, BACKGROUND)
            == CounterAt(tp, BACKGROUND) + CounterAt(fn, BACKGROUND) + SumOver(Labels(classes), CounterOf(fp))
  {
    hide CountsOf;
    var labels := Labels(classes);
    var rest := labels - {BACKGROUND};
    SumWithout(labels, ColumnOf(m, BACKGROUND), BACKGROUND);
    SumWithout(labels, RowOf(m, BACKGROUND), BACKGROUND);
    SumWithout(labels, CounterOf(fn), BACKGROUND);
    SumWithout(labels, CounterOf(fp), BACKGROUND);
    SumSame(rest, ColumnOf(m, BACKGROUND), CounterOf(fn));
    SumSame(rest, RowOf(m, BACKGROUND), CounterOf(fp));
  }

  lemma HeadIsIn<T>(xs: seq<T>)
    ensures xs == [] || xs[0] in xs
  {
  }

  /** What is not a class has no predictions and no ground truths. */
  lemma NoneOfIt(ps: seq<Prediction>, gts: seq<GroundTruth>, c: string)
    requires c !in Classes(ps, gts)
    ensures Filter(ps, KeepPrediction(OfClass(c))) == [] && Filter(gts, KeepTruth(OfClass(c))) == []
  {
    var p, g := Filter(ps, KeepPrediction(OfClass(c))), Filter(gts, KeepTruth(OfClass(c)));
    FilterFacts(ps, KeepPrediction(OfClass(c)));
    FilterFacts(gts, KeepTruth(OfClass(c)));
    HeadIsIn(p);
    HeadIsIn(g);
  }

  /**
   Every column of the matrix sums to the predictions of its class and every row to its ground truths. The background's
   own column does exactly when no ground truth of any class was missed, its row when no prediction was wrong.
   */
  lemma MatrixConservesExactly(m: Matrix, tp: map<string, nat>, fp: map<string, nat>, fn: map<string, nat>,
                               ps: seq<Prediction>, gts: seq<GroundTruth>, threshold: real, classes: set<string>,
                               c: string)
    requires Tallied(m, tp, fp, fn, ps, gts, threshold, classes) && c in Labels(classes)
    ensures ColumnSum(m, classes, c) == |Filter(ps, KeepPrediction(OfClass(c)))|
            <==> c != BACKGROUND || forall d | d in classes :: fn[d] == 0
    ensures RowSum(m, classes, c) == |Filter(gts, KeepTruth(OfClass(c)))|
            <==> c != BACKGROUND || forall d | d in classes :: fp[d] == 0
  {
    hide TruePositives, FalsePositives, FalseNegatives;
    if c in classes {
      Conservation(ps, gts, threshold, c);
      assert CountsOf(tp, fp, fn, ps, gts, threshold, c);
    } else {
      NoneOfIt(ps, gts, c);
    }
    if c != BACKGROUND {
      FewCells(Labels(classes), ColumnOf(m, c), c, BACKGROUND);
      FewCells(Labels(classes), RowOf(m, c), c, BACKGROUND);
    } else {
      BackgroundSums(m, tp, fp, fn, ps, gts, threshold, classes);
      SumIsZero(Labels(classes), CounterOf(fn));
      SumIsZero(Labels(classes), CounterOf(fp));
    }
  }
}
