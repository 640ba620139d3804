/** Centering, the standardization guard and the error metrics of
    l1l2py/tools.py, over exact reals. A numpy NaN result (the mean of an
    empty axis, 0.0 / 0.0) is reported as Err(NotANumber); a Python
    exception as the Err of its cause. */
module Metrics {
  import opened Common

  /** A numpy array of one or two dimensions. A matrix keeps its width so
      that a matrix without rows still has a shape. */
  datatype NdArray =
    | Vector(entries: seq<real>)
    | Matrix(rows: seq<seq<real>>, width: nat)

  /** matrix.mean(axis=0): a scalar for a vector (a column), one value per
      column for a matrix. */
  datatype AxisMean = Scalar(value: real) | PerColumn(values: seq<real>)

  /** The tuples center returns, one constructor per combination of
      optional_matrix and return_mean. */
  datatype Centered =
    | CenteredOnly(matrix: NdArray)
    | CenteredWithMean(matrix: NdArray, mean: AxisMean)
    | CenteredPair(matrix: NdArray, optional: NdArray)
    | CenteredFull(matrix: NdArray, optional: NdArray, mean: AxisMean)

  /** Every row of a matrix has its declared width. */
  predicate WellFormed(a: NdArray)
  {
    a.Matrix? ==> forall i :: 0 <= i < |a.rows| ==> |a.rows[i]| == a.width
  }

  /** The length of axis 0. */
  function Samples(a: NdArray): nat
  {
    if a.Vector? then |a.entries| else |a.rows|
  }

  /** Column j of a well-formed matrix. */
  function Column(a: NdArray, j: nat): (c: seq<real>)
    requires a.Matrix? && WellFormed(a) && j < a.width
    ensures |c| == |a.rows|
  {
    seq(|a.rows|, i requires 0 <= i < |a.rows| => a.rows[i][j])
  }

  /** The exact mean along axis 0 of an array with at least one sample. */
  function AxisMeanOf(a: NdArray): (m: AxisMean)
    requires WellFormed(a) && Samples(a) > 0
    ensures a.Vector? ==> m == Scalar(Mean(a.entries))
    ensures a.Matrix? ==> m.PerColumn? && |m.values| == a.width
                          && forall j :: 0 <= j < a.width ==> m.values[j] == Mean(Column(a, j))
  {
    if a.Vector? then Scalar(Mean(a.entries))
    else PerColumn(seq(a.width, j requires 0 <= j < a.width => Mean(Column(a, j))))
  }

  /** The shape of a mean: None for a scalar, the column count otherwise. */
  function MeanShape(mean: AxisMean): Option<nat>
  {
    if mean.Scalar? then None else Some(|mean.values|)
  }

  /** The shape matrix.mean(axis=0) has, whatever its values. */
  function MeanShapeOf(matrix: NdArray): Option<nat>
  {
    if matrix.Vector? then None else Some(matrix.width)
  }

  /** numpy's broadcasting rule for a - mean: the last axis of a and a mean
      of p columns combine when the lengths are equal or one of them is 1;
      a scalar mean combines with anything. */
  predicate Broadcastable(a: NdArray, meanShape: Option<nat>)
  {
    match meanShape
    case None => true
    case Some(p) =>
      var x := if a.Vector? then |a.entries| else a.width;
      x == p || x == 1 || p == 1
  }

  /** Entry j of an axis stretched by broadcasting: a length-1 axis repeats
      its one entry. */
  function Broadcast(s: seq<real>, j: nat): real
    requires |s| == 1 || j < |s|
  {
    if |s| == 1 then s[0] else s[j]
  }

  /** numpy's a - mean, entry by entry, broadcasting the last axis. */
  function Subtract(a: NdArray, mean: AxisMean): (r: NdArray)
    requires WellFormed(a) && Broadcastable(a, MeanShape(mean))
    ensures WellFormed(r) && r.Vector? == a.Vector?
    ensures a.Matrix? || mean.Scalar? || |a.entries| != 1 ==> Samples(r) == Samples(a)
  {
    match mean
    case Scalar(c) =>
      if a.Vector? then Vector(seq(|a.entries|, i requires 0 <= i < |a.entries| => a.entries[i] - c))
      else Matrix(seq(|a.rows|, i requires 0 <= i < |a.rows| =>
                    seq(a.width, j requires 0 <= j < a.width => a.rows[i][j] - c)), a.width)
    case PerColumn(m) =>
      if a.Vector? then
        var n := if |a.entries| == 1 then |m| else |a.entries|;
        Vector(seq(n, j requires 0 <= j < n => Broadcast(a.entries, j) - Broadcast(m, j)))
      else
        var w := if a.width == 1 then |m| else a.width;
        Matrix(seq(|a.rows|, i requires 0 <= i < |a.rows| =>
                 seq(w, j requires 0 <= j < w => Broadcast(a.rows[i], j) - Broadcast(m, j))), w)
  }

  /** True when the centered part of a result has the shape of the input. */
  predicate HasOptional(c: Centered) { c.CenteredPair? || c.CenteredFull? }

  predicate HasMean(c: Centered) { c.CenteredWithMean? || c.CenteredFull? }

  /** center: subtract the column means of matrix from matrix and, when
      given, from optional_matrix; the tuple returned depends on whether
      optional_matrix is given and on return_mean. A shape mismatch between
      optional_matrix and the mean raises; an empty matrix has NaN means. */
  function Center(matrix: NdArray, optional: Option<NdArray>, returnMean: bool): (r: Result<Centered>)
    requires WellFormed(matrix)
    requires optional.Some? ==> WellFormed(optional.value)
    ensures optional.Some? && !Broadcastable(optional.value, MeanShapeOf(matrix)) ==> r == Err(ShapeMismatch)
    ensures (optional.None? || Broadcastable(optional.value, MeanShapeOf(matrix))) && Samples(matrix) == 0
            ==> r == Err(NotANumber)
    ensures r.Ok? <==> (optional.None? || Broadcastable(optional.value, MeanShapeOf(matrix))) && Samples(matrix) > 0
    ensures r.Ok? ==> (HasOptional(r.value) <==> optional.Some?) && (HasMean(r.value) <==> returnMean)
    ensures r.Ok? ==> r.value.matrix.Vector? == matrix.Vector?
  {
    if optional.Some? && !Broadcastable(optional.value, MeanShapeOf(matrix)) then Err(ShapeMismatch)
    else if Samples(matrix) == 0 then Err(NotANumber)
    else
      var mean := AxisMeanOf(matrix);
      var centered := Subtract(matrix, mean);
      match optional
      case None => if returnMean then Ok(CenteredWithMean(centered, mean)) else Ok(CenteredOnly(centered))
      case Some(o) =>
        var oc := Subtract(o, mean);
        if returnMean then Ok(CenteredFull(centered, oc, mean)) else Ok(CenteredPair(centered, oc))
  }

  /** Every column of a matrix (the entries of a vector) sums to zero. */
  predicate ZeroColumnSums(a: NdArray)
    requires WellFormed(a)
  {
    if a.Vector? then Sum(a.entries) == 0.0
    else forall j :: 0 <= j < a.width ==> Sum(Column(a, j)) == 0.0
  }

  /** Subtracting the mean of s from each entry leaves entries summing to zero. */
  lemma MeanShiftSumsToZero(s: seq<real>)
    requires |s| > 0
    ensures Sum(seq(|s|, i requires 0 <= i < |s| => s[i] - Mean(s))) == 0.0
  {
    SumShift(s, Mean(s));
  }

  /** The centered matrix has zero column means. */
  lemma CenterZeroMean(matrix: NdArray, optional: Option<NdArray>, returnMean: bool)
    requires WellFormed(matrix)
    requires optional.Some? ==> WellFormed(optional.value)
    ensures var r := Center(matrix, optional, returnMean);
      r.Ok? ==> WellFormed(r.value.matrix) && ZeroColumnSums(r.value.matrix)
  {
    var r := Center(matrix, optional, returnMean);
    if r.Ok? {
      var c := r.value.matrix;
      assert c == Subtract(matrix, AxisMeanOf(matrix));
      if matrix.Vector? {
        MeanShiftSumsToZero(matrix.entries);
      } else {
        forall j | 0 <= j < matrix.width
          ensures Sum(Column(c, j)) == 0.0
        {
          var col := Column(matrix, j);
          assert Column(c, j) == seq(|col|, i requires 0 <= i < |col| => col[i] - Mean(col));
          MeanShiftSumsToZero(col);
        }
      }
    }
  }

  /** a + mean for an array whose last axis matches the mean exactly (no
      stretching): how stage_I adds meanY back to centered labels. */
  function AddMean(a: NdArray, mean: AxisMean): (r: NdArray)
    requires WellFormed(a)
    requires mean.PerColumn? ==> (if a.Vector? then |a.entries| else a.width) == |mean.values|
    ensures WellFormed(r) && r.Vector? == a.Vector? && Samples(r) == Samples(a)
    ensures r.Matrix? ==> r.width == a.width
  {
    match mean
    case Scalar(c) =>
      if a.Vector? then Vector(seq(|a.entries|, i requires 0 <= i < |a.entries| => a.entries[i] + c))
      else Matrix(seq(|a.rows|, i requires 0 <= i < |a.rows| =>
                    seq(a.width, j requires 0 <= j < a.width => a.rows[i][j] + c)), a.width)
    case PerColumn(m) =>
      if a.Vector? then Vector(seq(|a.entries|, j requires 0 <= j < |a.entries| => a.entries[j] + m[j]))
      else Matrix(seq(|a.rows|, i requires 0 <= i < |a.rows| =>
                    seq(a.width, j requires 0 <= j < a.width => a.rows[i][j] + m[j])), a.width)
  }

  /** The last axis of a is as long as the mean: nothing is stretched. */
  predicate SameWidth(a: NdArray, mean: AxisMean)
  {
    mean.PerColumn? ==> (if a.Vector? then |a.entries| else a.width) == |mean.values|
  }

  /** Subtracting a mean and adding it back is the identity. */
  lemma {:induction false} AddMeanUndoesSubtract(a: NdArray, mean: AxisMean)
    requires WellFormed(a) && SameWidth(a, mean)
    ensures Broadcastable(a, MeanShape(mean))
    ensures AddMean(Subtract(a, mean), mean) == a
  {
    var b := AddMean(Subtract(a, mean), mean);
    if a.Vector? {
      assert b.entries == a.entries;
    } else {
      assert b.width == a.width;
      forall i | 0 <= i < |a.rows| ensures b.rows[i] == a.rows[i] { }
      assert b.rows == a.rows;
    }
  }

  /** center returns the mean it subtracted, and adding it back to either
      centered array restores the input: matrix_centered + mean == matrix,
      and optional_matrix_centered + mean == optional_matrix when the
      optional matrix has the matrix's width. */
  lemma CenterRoundTrip(matrix: NdArray, optional: Option<NdArray>)
    requires WellFormed(matrix) && Samples(matrix) > 0
    requires optional.Some? ==> WellFormed(optional.value) && SameWidth(optional.value, AxisMeanOf(matrix))
    ensures var r := Center(matrix, optional, true);
      && r.Ok?
      && r.value.mean == AxisMeanOf(matrix)
      && SameWidth(r.value.matrix, r.value.mean)
      && AddMean(r.value.matrix, r.value.mean) == matrix
      && (optional.Some? ==> SameWidth(r.value.optional, r.value.mean)
                             && AddMean(r.value.optional, r.value.mean) == optional.value)
  {
    var mean := AxisMeanOf(matrix);
    AddMeanUndoesSubtract(matrix, mean);
    if optional.Some? {
      AddMeanUndoesSubtract(optional.value, mean);
    }
  }

  /** The mean of a matrix (a vector) whose columns (entries) sum to zero. */
  function ZeroMean(a: NdArray): AxisMean
  {
    if a.Vector? then Scalar(0.0) else PerColumn(seq(a.width, _ => 0.0))
  }

  /** Centering is idempotent: the centered matrix has zero means, so
      centering it again changes nothing. */
  lemma CenterIdempotent(matrix: NdArray)
    requires WellFormed(matrix) && Samples(matrix) > 0
    ensures var r := Center(matrix, None, false);
      && r.Ok?
      && Center(r.value.matrix, None, true) == Ok(CenteredWithMean(r.value.matrix, ZeroMean(matrix)))
  {
    var c := Center(matrix, None, false).value.matrix;
    CenterZeroMean(matrix, None, false);
    var mean := AxisMeanOf(c);
    if c.Vector? {
      assert mean == Scalar(0.0);
      assert Subtract(c, mean).entries == c.entries;
    } else {
      assert c.width == matrix.width;
      forall j | 0 <= j < c.width ensures mean.values[j] == 0.0 {
        assert Sum(Column(c, j)) == 0.0;
      }
      assert mean.values == seq(matrix.width, _ => 0.0);
      var d := Subtract(c, mean);
      forall i | 0 <= i < |c.rows| ensures d.rows[i] == c.rows[i] { }
      assert d.rows == c.rows;
    }
  }

  /** Documented examples of center: a 2 x 3 matrix centers to rows of
      -1.5 and 1.5, with column means 2.5, 3.5 and 4.5; its first two
      columns, as the optional matrix, do not broadcast against it. */
  lemma CenterDocTwoRows(x: NdArray, o: NdArray)
    requires x == Matrix([[1.0, 2.0, 3.0], [4.0, 5.0, 6.0]], 3)
    requires o == Matrix([[1.0, 2.0], [4.0, 5.0]], 2)
    ensures Center(x, Some(o), false) == Err(ShapeMismatch)
    ensures Center(x, None, true)
         == Ok(CenteredWithMean(Matrix([[-1.5, -1.5, -1.5], [1.5, 1.5, 1.5]], 3), PerColumn([2.5, 3.5, 4.5])))
  {
    var m := PerColumn([2.5, 3.5, 4.5]);
    assert AxisMeanOf(x) == m by {
      assert Column(x, 0) == [1.0, 4.0] && Column(x, 1) == [2.0, 5.0] && Column(x, 2) == [3.0, 6.0];
      assert [1.0, 4.0][1..] == [4.0] && [2.0, 5.0][1..] == [5.0] && [3.0, 6.0][1..] == [6.0];
      var mx := AxisMeanOf(x).values;
      assert mx[0] == 2.5 && mx[1] == 3.5 && mx[2] == 4.5;
    }
    var c := Subtract(x, m);
    assert c.rows == [[-1.5, -1.5, -1.5], [1.5, 1.5, 1.5]] by {
      assert c.rows[0] == [-1.5, -1.5, -1.5] && c.rows[1] == [1.5, 1.5, 1.5];
    }
  }

  /** Documented example of center: a one-row matrix centers to zeros and
      its mean is the row itself. */
  lemma CenterDocOneRow(y: NdArray)
    requires y == Matrix([[1.0, 2.0, 3.0]], 3)
    ensures Center(y, None, true)
         == Ok(CenteredWithMean(Matrix([[0.0, 0.0, 0.0]], 3), PerColumn([1.0, 2.0, 3.0])))
  {
    var m := PerColumn([1.0, 2.0, 3.0]);
    assert AxisMeanOf(y) == m by {
      assert Column(y, 0) == [1.0] && Column(y, 1) == [2.0] && Column(y, 2) == [3.0];
      assert [1.0][1..] == [] && [2.0][1..] == [] && [3.0][1..] == [];
      var my := AxisMeanOf(y).values;
      assert my[0] == 1.0 && my[1] == 2.0 && my[2] == 3.0;
    }
    var d := Subtract(y, m);
    assert d.rows == [[0.0, 0.0, 0.0]] by {
      assert d.rows[0] == [0.0, 0.0, 0.0];
    }
  }

  /** Documented example of center: a vector is one column, centered by
      its scalar mean. */
  lemma CenterDocVector(v: NdArray)
    requires v == Vector([1.0, 2.0, 3.0])
    ensures Center(v, None, true) == Ok(CenteredWithMean(Vector([-1.0, 0.0, 1.0]), Scalar(2.0)))
  {
    assert Sum(v.entries) == 6.0;
    assert Subtract(v, Scalar(2.0)).entries == [-1.0, 0.0, 1.0];
  }

  // ---------------------------------------------------------------------
  // standardize: only the guard before the mean and the standard deviation

  /** Divisor of matrix.std(axis=0, ddof=1): the number of samples less one. */
  function DdofDivisor(matrix: NdArray): int
  {
    Samples(matrix) - 1
  }

  /** The guard of standardize as written: only a two-dimensional matrix
      with exactly one row is rejected. */
  function StandardizeGuard(matrix: NdArray): (r: Option<Error>)
    ensures r.Some? ==> r.value == OneRowMatrix
    ensures r.Some? <==> matrix.Matrix? && |matrix.rows| == 1
  {
    if matrix.Matrix? && |matrix.rows| == 1 then Some(OneRowMatrix) else None
  }

  /** The guard lets a one-entry vector through, whose sample standard
      deviation then divides by zero. */
  lemma StandardizeGuardMissesOneEntryVector(x: real)
    ensures StandardizeGuard(Vector([x])).None?
    ensures DdofDivisor(Vector([x])) == 0
  {
  }

  /** The guard as its message states it: the matrix must have more than
      one row, whatever its number of dimensions (a vector is one column). */
  function StandardizeGuardCorrected(matrix: NdArray): (r: Option<Error>)
    ensures r.Some? ==> r.value == OneRowMatrix
    ensures StandardizeGuard(matrix).Some? ==> r.Some?
  {
    if Samples(matrix) < 2 then Some(OneRowMatrix) else None
  }

  /** Past the corrected guard the ddof = 1 divisor is positive, and every
      array the corrected guard rejects has no positive divisor. */
  lemma StandardizeGuardCorrectedDivisor(matrix: NdArray)
    ensures StandardizeGuardCorrected(matrix).None? <==> DdofDivisor(matrix) > 0
  {
  }

  // ---------------------------------------------------------------------
  // Error functions

  /** A prediction is wrong when its sign differs from the label's. */
  predicate Mismatch(actual: real, predicted: real)
  {
    Sign(actual) != Sign(predicted)
  }

  /** The number of sign mismatches, counted from the last position. */
  function MismatchCount(labels: seq<real>, predictions: seq<real>): (c: nat)
    requires |labels| == |predictions|
    ensures c <= |labels|
    ensures c == 0 <==> forall i :: 0 <= i < |labels| ==> !Mismatch(labels[i], predictions[i])
    ensures c == |labels| <==> forall i :: 0 <= i < |labels| ==> Mismatch(labels[i], predictions[i])
  {
    if |labels| == 0 then 0
    else
      var n := |labels| - 1;
      MismatchCount(labels[..n], predictions[..n]) + if Mismatch(labels[n], predictions[n]) then 1 else 0
  }

  /** The positions np.sign(labels) != np.sign(predictions) selects. */
  function MismatchPositions(labels: seq<real>, predictions: seq<real>): set<nat>
    requires |labels| == |predictions|
  {
    set i: nat | i < |labels| && Mismatch(labels[i], predictions[i])
  }

  /** The count is the number of selected positions (len(*difference.nonzero())). */
  lemma {:induction false} MismatchCountIsPositionCount(labels: seq<real>, predictions: seq<real>)
    requires |labels| == |predictions|
    ensures MismatchCount(labels, predictions) == |MismatchPositions(labels, predictions)|
  {
    if |labels| > 0 {
      var n := |labels| - 1;
      MismatchCountIsPositionCount(labels[..n], predictions[..n]);
      MismatchPositionsSnoc(labels, predictions);
    }
  }

  /** The positions of a vector are those of its prefix plus, on a
      mismatch, the last index, which the prefix does not hold. */
  lemma MismatchPositionsSnoc(labels: seq<real>, predictions: seq<real>)
    requires |labels| == |predictions| > 0
    ensures var n := |labels| - 1;
      var before := MismatchPositions(labels[..n], predictions[..n]);
      && n !in before
      && MismatchPositions(labels, predictions)
         == if Mismatch(labels[n], predictions[n]) then before + {n} else before
  {
    var n := |labels| - 1;
    var before := MismatchPositions(labels[..n], predictions[..n]);
    forall i: nat | i < n ensures i in before <==> Mismatch(labels[i], predictions[i]) {
      assert labels[..n][i] == labels[i] && predictions[..n][i] == predictions[i];
    }
  }

  /** classification_error: the fraction of sign mismatches; an empty label
      vector divides by float(0). */
  function ClassificationError(labels: seq<real>, predictions: seq<real>): (r: Result<real>)
    requires |labels| == |predictions|
    ensures r.Err? <==> |labels| == 0
    ensures r.Err? ==> r.error == ZeroDivision
    ensures r.Ok? ==> 0.0 <= r.value <= 1.0
    ensures r.Ok? ==> (r.value == 0.0 <==> forall i :: 0 <= i < |labels| ==> !Mismatch(labels[i], predictions[i]))
    ensures r.Ok? ==> (r.value == 1.0 <==> forall i :: 0 <= i < |labels| ==> Mismatch(labels[i], predictions[i]))
  {
    if |labels| == 0 then Err(ZeroDivision)
    else
      var c := MismatchCount(labels, predictions);
      FractionBounds(c, |labels|);
      Ok(c as real / |labels| as real)
  }

  /** A count c out of n > 0 gives a fraction in [0, 1], which is 0 only
      for c = 0 and 1 only for c = n. */
  lemma FractionBounds(c: nat, n: nat)
    requires 0 < n && c <= n
    ensures 0.0 <= c as real / n as real <= 1.0
    ensures c as real / n as real == 0.0 <==> c == 0
    ensures c as real / n as real == 1.0 <==> c == n
  {
    var f := c as real / n as real;
    assert f * n as real == c as real;
  }

  /** The default error weights: |l_i - mean(labels)|. */
  function DefaultWeights(labels: seq<real>): (w: seq<real>)
    requires |labels| > 0
    ensures |w| == |labels|
    ensures forall i :: 0 <= i < |w| ==> w[i] >= 0.0
  {
    var m := Mean(labels);
    seq(|labels|, i requires 0 <= i < |labels| => Abs(labels[i] - m))
  }

  /** The default weights are the magnitudes of the centered labels. */
  lemma DefaultWeightsFromCenter(labels: seq<real>)
    requires |labels| > 0
    ensures var r := Center(Vector(labels), None, false);
      && r.Ok? && r.value.CenteredOnly? && r.value.matrix.Vector?
      && DefaultWeights(labels)
         == seq(|labels|, i requires 0 <= i < |labels| => Abs(r.value.matrix.entries[i]))
  {
  }

  /** (sign(labels) != sign(predictions)) * error_weights. */
  function WeightedErrors(labels: seq<real>, predictions: seq<real>, weights: seq<real>): (e: seq<real>)
    requires |labels| == |predictions| == |weights|
    ensures |e| == |labels|
    ensures forall i :: 0 <= i < |e| ==> !Mismatch(labels[i], predictions[i]) ==> e[i] == 0.0
    ensures (forall i :: 0 <= i < |weights| ==> weights[i] >= 0.0)
            ==> forall i :: 0 <= i < |e| ==> 0.0 <= e[i] <= weights[i]
  {
    seq(|labels|, i requires 0 <= i < |labels| =>
      if Mismatch(labels[i], predictions[i]) then weights[i] else 0.0)
  }

  /** balanced_classification_error: the mismatches weighted by
      error_weights, or by the default weights, summed and divided by N.
      An empty label vector gives numpy's 0.0 / 0.0. */
  function BalancedClassificationError(labels: seq<real>, predictions: seq<real>,
                                       errorWeights: Option<seq<real>>): (r: Result<real>)
    requires |labels| == |predictions|
    requires errorWeights.Some? ==> |errorWeights.value| == |labels|
    ensures r.Err? <==> |labels| == 0
    ensures r.Err? ==> r.error == NotANumber
    ensures r.Ok? && errorWeights.None? ==> r.value >= 0.0
  {
    if |labels| == 0 then Err(NotANumber)
    else
      var w := if errorWeights.Some? then errorWeights.value else DefaultWeights(labels);
      var e := WeightedErrors(labels, predictions, w);
      SumNonNegativeWhenWeightsAre(labels, predictions, w);
      Ok(Sum(e) / |labels| as real)
  }

  lemma SumNonNegativeWhenWeightsAre(labels: seq<real>, predictions: seq<real>, weights: seq<real>)
    requires |labels| == |predictions| == |weights|
    ensures (forall i :: 0 <= i < |weights| ==> weights[i] >= 0.0)
            ==> Sum(WeightedErrors(labels, predictions, weights)) >= 0.0
  {
    if forall i :: 0 <= i < |weights| ==> weights[i] >= 0.0 {
      SumNonNegative(WeightedErrors(labels, predictions, weights));
    }
  }

  /** With every weight 1 the weighted sum is the mismatch count. */
  lemma {:induction false} UnitWeightsCount(labels: seq<real>, predictions: seq<real>)
    requires |labels| == |predictions|
    ensures Sum(WeightedErrors(labels, predictions, seq(|labels|, _ => 1.0)))
            == MismatchCount(labels, predictions) as real
  {
    var e := WeightedErrors(labels, predictions, seq(|labels|, _ => 1.0));
    if |labels| > 0 {
      var n := |labels| - 1;
      UnitWeightsCount(labels[..n], predictions[..n]);
      assert e[..n] == WeightedErrors(labels[..n], predictions[..n], seq(n, _ => 1.0));
      SumSnoc(e);
    }
  }

  /** Unit error weights turn the balanced error into classification_error. */
  lemma BalancedUnitWeights(labels: seq<real>, predictions: seq<real>)
    requires |labels| == |predictions| && |labels| > 0
    ensures BalancedClassificationError(labels, predictions, Some(seq(|labels|, _ => 1.0)))
            == ClassificationError(labels, predictions)
  {
    UnitWeightsCount(labels, predictions);
  }

  /** Labels of a single class weigh every error by 0, so the default
      balanced error is 0 whatever the predictions. */
  lemma BalancedSingleClass(labels: seq<real>, predictions: seq<real>)
    requires |labels| == |predictions| && |labels| > 0
    requires forall i :: 0 <= i < |labels| ==> labels[i] == labels[0]
    ensures BalancedClassificationError(labels, predictions, None) == Ok(0.0)
  {
    MeanConstant(labels, labels[0]);
    var w := DefaultWeights(labels);
    var e := WeightedErrors(labels, predictions, w);
    forall i | 0 <= i < |e| ensures e[i] == 0.0 {
      assert w[i] == Abs(labels[i] - Mean(labels));
    }
    SumConstant(e, 0.0);
  }

  /** Without mismatches the balanced error is 0 for any weights. */
  lemma BalancedNoMismatch(labels: seq<real>, predictions: seq<real>, errorWeights: Option<seq<real>>)
    requires |labels| == |predictions| && |labels| > 0
    requires errorWeights.Some? ==> |errorWeights.value| == |labels|
    requires forall i :: 0 <= i < |labels| ==> !Mismatch(labels[i], predictions[i])
    ensures BalancedClassificationError(labels, predictions, errorWeights) == Ok(0.0)
  {
    var w := if errorWeights.Some? then errorWeights.value else DefaultWeights(labels);
    SumConstant(WeightedErrors(labels, predictions, w), 0.0);
  }

  /** The entries of (labels - predictions) squared: the terms of
      np.dot(difference, difference). */
  lemma SquareFacts(d: real)
    ensures d * d >= 0.0 && (d * d == 0.0 <==> d == 0.0)
  {
    if d != 0.0 {
      assert (d * d) / d == d;
    }
    if d < 0.0 {
      assert d * d == (-d) * (-d);
    }
  }

  /** d squared: never negative, and zero only for d = 0. */
  function Square(d: real): (s: real)
    ensures s >= 0.0 && (s == 0.0 <==> d == 0.0)
  {
    SquareFacts(d);
    d * d
  }

  function SquaredErrors(labels: seq<real>, predictions: seq<real>): (e: seq<real>)
    requires |labels| == |predictions|
    ensures |e| == |labels|
    ensures forall i :: 0 <= i < |e| ==> e[i] >= 0.0 && (e[i] == 0.0 <==> labels[i] == predictions[i])
  {
    seq(|labels|, i requires 0 <= i < |labels| => Square(labels[i] - predictions[i]))
  }

  /** regression_error: the mean squared difference; an empty label vector
      gives numpy's 0.0 / 0.0. It is never negative and is 0 exactly when
      the predictions equal the labels. */
  function RegressionError(labels: seq<real>, predictions: seq<real>): (r: Result<real>)
    requires |labels| == |predictions|
    ensures r.Err? <==> |labels| == 0
    ensures r.Err? ==> r.error == NotANumber
    ensures r.Ok? ==> r.value >= 0.0 && (r.value == 0.0 <==> labels == predictions)
  {
    if |labels| == 0 then Err(NotANumber)
    else
      var e := SquaredErrors(labels, predictions);
      SquaredErrorsVanish(labels, predictions);
      Ok(Sum(e) / |labels| as real)
  }


  /** The squared errors sum to a non-negative value, zero exactly when the
      two vectors are equal. */
  lemma SquaredErrorsVanish(labels: seq<real>, predictions: seq<real>)
    requires |labels| == |predictions|
    ensures Sum(SquaredErrors(labels, predictions)) >= 0.0
    ensures Sum(SquaredErrors(labels, predictions)) == 0.0 <==> labels == predictions
  {
    var e := SquaredErrors(labels, predictions);
    SumNonNegative(e);
    if Sum(e) == 0.0 {
      assert labels == predictions;
    }
  }

  // ---------------------------------------------------------------------
  // Documented examples of the error functions

  /** Sign mismatches of a three-entry prediction against three labels. */
  lemma MismatchCountThree(labels: seq<real>, predictions: seq<real>)
    requires |labels| == |predictions| == 3
    ensures MismatchCount(labels, predictions)
         == (if Mismatch(labels[0], predictions[0]) then 1 else 0)
          + (if Mismatch(labels[1], predictions[1]) then 1 else 0)
          + (if Mismatch(labels[2], predictions[2]) then 1 else 0)
  {
    assert labels[..2][..1] == labels[..1] && predictions[..2][..1] == predictions[..1];
    assert labels[..1][..0] == [] && predictions[..1][..0] == [];
  }

  /** classification_error([1, 1, 1], predictions) for the documented
      predictions: 0, 1/3, 2/3, 1 and, by sign only, 2/3 again. */
  lemma ClassificationDocExamples(labels: seq<real>)
    requires labels == [1.0, 1.0, 1.0]
    ensures ClassificationError(labels, [1.0, 1.0, 1.0]) == Ok(0.0)
    ensures ClassificationError(labels, [1.0, 1.0, -1.0]) == Ok(1.0 / 3.0)
    ensures ClassificationError(labels, [1.0, -1.0, -1.0]) == Ok(2.0 / 3.0)
    ensures ClassificationError(labels, [-1.0, -1.0, -1.0]) == Ok(1.0)
    ensures ClassificationError(labels, [10.0, -2.0, -3.0]) == Ok(2.0 / 3.0)
  {
    MismatchCountThree(labels, [1.0, 1.0, 1.0]);
    MismatchCountThree(labels, [1.0, 1.0, -1.0]);
    MismatchCountThree(labels, [1.0, -1.0, -1.0]);
    MismatchCountThree(labels, [-1.0, -1.0, -1.0]);
    MismatchCountThree(labels, [10.0, -2.0, -3.0]);
  }

  lemma SumThree(s: seq<real>)
    requires |s| == 3
    ensures Sum(s) == s[0] + s[1] + s[2]
  {
    assert s[1..][1..] == [s[2]];
    assert [s[2]][1..] == [];
    assert Sum([s[2]]) == s[2];
    assert Sum(s[1..]) == s[1] + s[2];
  }

  /** The default weights of the labels [-1, 1, 1]: their mean is 1/3. */
  lemma DocDefaultWeights(labels: seq<real>)
    requires labels == [-1.0, 1.0, 1.0]
    ensures DefaultWeights(labels) == [4.0 / 3.0, 2.0 / 3.0, 2.0 / 3.0]
  {
    SumThree(labels);
  }

  /** balanced_classification_error for the documented examples: single
      class labels give 0; for labels [-1, 1, 1] the errors weigh 4/3 on the
      negative sample and 2/3 on each positive one. */
  lemma BalancedDocExamples(ones: seq<real>, labels: seq<real>)
    requires ones == [1.0, 1.0, 1.0]
    requires labels == [-1.0, 1.0, 1.0]
    ensures BalancedClassificationError(ones, [-1.0, -1.0, -1.0], None) == Ok(0.0)
    ensures BalancedClassificationError(labels, [-1.0, 1.0, 1.0], None) == Ok(0.0)
    ensures BalancedClassificationError(labels, [1.0, -1.0, -1.0], None) == Ok(8.0 / 9.0)
    ensures BalancedClassificationError(labels, [1.0, 1.0, 1.0], None) == Ok(4.0 / 9.0)
    ensures BalancedClassificationError(labels, [-1.0, 1.0, -1.0], None) == Ok(2.0 / 9.0)
    ensures BalancedClassificationError(labels, [-1.0, 1.0, -1.0], Some([1.0, 1.0, 1.0])) == Ok(1.0 / 3.0)
  {
    BalancedSingleClass(ones, [-1.0, -1.0, -1.0]);
    DocDefaultWeights(labels);
    var w := [4.0 / 3.0, 2.0 / 3.0, 2.0 / 3.0];
    SumThree(WeightedErrors(labels, [-1.0, 1.0, 1.0], w));
    SumThree(WeightedErrors(labels, [1.0, -1.0, -1.0], w));
    SumThree(WeightedErrors(labels, [1.0, 1.0, 1.0], w));
    SumThree(WeightedErrors(labels, [-1.0, 1.0, -1.0], w));
    SumThree(WeightedErrors(labels, [-1.0, 1.0, -1.0], [1.0, 1.0, 1.0]));
  }
}
