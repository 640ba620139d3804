/** The older tools.py: the same centering and error functions as
    l1l2py/tools.py, written with different numpy idioms (boolean
    self-indexing, a dot product, factors from center) and without
    error weights. Each is stated in its own terms and proved equal to the
    newer formulation in module Metrics. */
module LegacyTools {
  import opened Common
  import opened Metrics

  /** np.sign(labels) != np.sign(predicted), entry by entry. */
  function Differences(labels: seq<real>, predicted: seq<real>): (d: seq<bool>)
    requires |labels| == |predicted|
    ensures |d| == |labels|
    ensures forall i :: 0 <= i < |d| ==> (d[i] <==> Mismatch(labels[i], predicted[i]))
  {
    seq(|labels|, i requires 0 <= i < |labels| => Sign(labels[i]) != Sign(predicted[i]))
  }

  /** difference[difference] keeps only the True entries of difference. */
  lemma {:induction false} SelfMaskAllTrue(d: seq<bool>)
    ensures forall i :: 0 <= i < |Masked(d, d)| ==> Masked(d, d)[i]
  {
    if |d| > 0 {
      var n := |d| - 1;
      SelfMaskAllTrue(d[..n]);
    }
  }

  /** classification_error of tools.py: the size of the selected True
      entries over len(labels); Python's float division raises on 0. */
  function ClassificationError(labels: seq<real>, predicted: seq<real>): (r: Result<real>)
    requires |labels| == |predicted|
    ensures r.Err? <==> |labels| == 0
    ensures r.Err? ==> r.error == ZeroDivision
  {
    if |labels| == 0 then Err(ZeroDivision)
    else
      var difference := Differences(labels, predicted);
      Ok(|Masked(difference, difference)| as real / |labels| as real)
  }

  /** The selected True entries are as many as the sign mismatches. */
  lemma {:induction false} SelfMaskCountsMismatches(labels: seq<real>, predicted: seq<real>)
    requires |labels| == |predicted|
    ensures var d := Differences(labels, predicted); |Masked(d, d)| == MismatchCount(labels, predicted)
  {
    if |labels| > 0 {
      var n := |labels| - 1;
      assert Differences(labels, predicted)[..n] == Differences(labels[..n], predicted[..n]);
      SelfMaskCountsMismatches(labels[..n], predicted[..n]);
    }
  }

  /** Both classification errors agree on every input, hence the legacy
      one lies in [0, 1] and has the same documented values. */
  lemma ClassificationErrorAgrees(labels: seq<real>, predicted: seq<real>)
    requires |labels| == |predicted|
    ensures ClassificationError(labels, predicted) == Metrics.ClassificationError(labels, predicted)
  {
    SelfMaskCountsMismatches(labels, predicted);
  }

  /** The documented examples of classification_error in tools.py. */
  lemma ClassificationDocExamples(labels: seq<real>)
    requires labels == [1.0, 1.0, 1.0]
    ensures ClassificationError(labels, [1.0, 1.0, 1.0]) == Ok(0.0)
    ensures ClassificationError(labels, [1.0, 1.0, -1.0]) == Ok(1.0 / 3.0)
    ensures ClassificationError(labels, [1.0, -1.0, -1.0]) == Ok(2.0 / 3.0)
    ensures ClassificationError(labels, [-1.0, -1.0, -1.0]) == Ok(1.0)
    ensures ClassificationError(labels, [10.0, -2.0, -3.0]) == Ok(2.0 / 3.0)
  {
    Metrics.ClassificationDocExamples(labels);
    ClassificationErrorAgrees(labels, [1.0, 1.0, 1.0]);
    ClassificationErrorAgrees(labels, [1.0, 1.0, -1.0]);
    ClassificationErrorAgrees(labels, [1.0, -1.0, -1.0]);
    ClassificationErrorAgrees(labels, [-1.0, -1.0, -1.0]);
    ClassificationErrorAgrees(labels, [10.0, -2.0, -3.0]);
  }

  /** balanced_classification_error of tools.py: the balance factors are
      |center(labels)|; an empty label vector has a NaN mean. */
  function BalancedClassificationError(labels: seq<real>, predicted: seq<real>): (r: Result<real>)
    requires |labels| == |predicted|
    ensures r.Err? <==> |labels| == 0
    ensures r.Err? ==> r.error == NotANumber
  {
    match Center(Vector(labels), None, false)
    case Err(e) => Err(e)
    case Ok(c) =>
      var factors := seq(|labels|, i requires 0 <= i < |labels| => Abs(c.matrix.entries[i]));
      Ok(Sum(WeightedErrors(labels, predicted, factors)) / |labels| as real)
  }

  /** The legacy balanced error is the newer one with default weights, so
      it is never negative and, as its warning says, it is 0 for labels of
      a single class. */
  lemma BalancedAgrees(labels: seq<real>, predicted: seq<real>)
    requires |labels| == |predicted|
    ensures BalancedClassificationError(labels, predicted)
            == Metrics.BalancedClassificationError(labels, predicted, None)
  {
    if |labels| > 0 {
      DefaultWeightsFromCenter(labels);
    }
  }

  /** The warning of balanced_classification_error: labels of a single
      class always give 0. */
  lemma BalancedSingleClass(labels: seq<real>, predicted: seq<real>)
    requires |labels| == |predicted| && |labels| > 0
    requires forall i :: 0 <= i < |labels| ==> labels[i] == labels[0]
    ensures BalancedClassificationError(labels, predicted) == Ok(0.0)
  {
    BalancedAgrees(labels, predicted);
    Metrics.BalancedSingleClass(labels, predicted);
  }

  /** The documented examples of balanced_classification_error in tools.py. */
  lemma BalancedDocExamples(ones: seq<real>, labels: seq<real>)
    requires ones == [1.0, 1.0, 1.0]
    requires labels == [-1.0, 1.0, 1.0]
    ensures BalancedClassificationError(ones, [-1.0, -1.0, -1.0]) == Ok(0.0)
    ensures BalancedClassificationError(labels, [-1.0, 1.0, 1.0]) == Ok(0.0)
    ensures BalancedClassificationError(labels, [1.0, -1.0, -1.0]) == Ok(8.0 / 9.0)
    ensures BalancedClassificationError(labels, [1.0, 1.0, 1.0]) == Ok(4.0 / 9.0)
    ensures BalancedClassificationError(labels, [-1.0, 1.0, -1.0]) == Ok(2.0 / 9.0)
  {
    Metrics.BalancedDocExamples(ones, labels);
    BalancedAgrees(ones, [-1.0, -1.0, -1.0]);
    BalancedAgrees(labels, [-1.0, 1.0, 1.0]);
    BalancedAgrees(labels, [1.0, -1.0, -1.0]);
    BalancedAgrees(labels, [1.0, 1.0, 1.0]);
    BalancedAgrees(labels, [-1.0, 1.0, -1.0]);
  }

  /** np.dot of two vectors of equal length; a vector's product with
      itself is never negative. */
  function Dot(a: seq<real>, b: seq<real>): (r: real)
    requires |a| == |b|
    ensures a == b ==> r >= 0.0
  {
    if |a| == 0 then 0.0
    else
      assert a == b ==> a[0] * b[0] == Square(a[0]);
      a[0] * b[0] + Dot(a[1..], b[1..])
  }

  /** regression_error of tools.py: np.dot(difference.T, difference) over
      len(labels); numpy's 0.0 / 0.0 on an empty vector is NaN. */
  function RegressionError(labels: seq<real>, predicted: seq<real>): (r: Result<real>)
    requires |labels| == |predicted|
    ensures r.Err? <==> |labels| == 0
    ensures r.Err? ==> r.error == NotANumber
  {
    if |labels| == 0 then Err(NotANumber)
    else
      var difference := seq(|labels|, i requires 0 <= i < |labels| => labels[i] - predicted[i]);
      Ok(Dot(difference, difference) / |labels| as real)
  }

  /** The squares of the entries of d. */
  function Squares(d: seq<real>): (s: seq<real>)
    ensures |s| == |d|
  {
    seq(|d|, i requires 0 <= i < |d| => Square(d[i]))
  }

  /** A vector's dot product with itself is the sum of its squares. */
  lemma {:induction false} DotSelf(d: seq<real>)
    ensures Dot(d, d) == Sum(Squares(d))
  {
    if |d| > 0 {
      assert Squares(d)[1..] == Squares(d[1..]);
      DotSelf(d[1..]);
    }
  }

  /** The dot product of the difference with itself is the sum of squared errors. */
  lemma DotIsSquaredErrorSum(labels: seq<real>, predicted: seq<real>)
    requires |labels| == |predicted|
    ensures var d := seq(|labels|, i requires 0 <= i < |labels| => labels[i] - predicted[i]);
      Dot(d, d) == Sum(SquaredErrors(labels, predicted))
  {
    var d := seq(|labels|, i requires 0 <= i < |labels| => labels[i] - predicted[i]);
    DotSelf(d);
    assert Squares(d) == SquaredErrors(labels, predicted);
  }

  /** Both regression errors agree, so the legacy one is never negative
      and is 0 exactly when the predictions equal the labels. */
  lemma RegressionErrorAgrees(labels: seq<real>, predicted: seq<real>)
    requires |labels| == |predicted|
    ensures RegressionError(labels, predicted) == Metrics.RegressionError(labels, predicted)
  {
    DotIsSquaredErrorSum(labels, predicted);
  }

  /** The documented examples of center in tools.py: a 2 x 3 matrix
      centered with and without its mean, and a vector centered alone. */
  lemma CenterDocExamples(x: NdArray, o: NdArray, v: NdArray)
    requires x == Matrix([[1.0, 2.0, 3.0], [4.0, 5.0, 6.0]], 3)
    requires o == Matrix([[1.0, 2.0], [4.0, 5.0]], 2)
    requires v == Vector([1.0, 2.0, 3.0])
    ensures Center(x, None, false) == Ok(CenteredOnly(Matrix([[-1.5, -1.5, -1.5], [1.5, 1.5, 1.5]], 3)))
    ensures Center(x, None, true)
         == Ok(CenteredWithMean(Matrix([[-1.5, -1.5, -1.5], [1.5, 1.5, 1.5]], 3), PerColumn([2.5, 3.5, 4.5])))
    ensures Center(v, None, false) == Ok(CenteredOnly(Vector([-1.0, 0.0, 1.0])))
  {
    CenterDocTwoRows(x, o);
    CenterDocVector(v);
  }
}
