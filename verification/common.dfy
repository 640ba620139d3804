/** Values shared by the fold partitioner, the metrics and the solver driver:
    the exceptions the library raises, a Result wrapper for them, and exact
    real-valued sums and means standing in for numpy's reductions. */
module Common {

  /** The exceptions raised by the modelled code, one constructor per cause. */
  datatype Error =
    | InvalidFoldCount            // kfold_splits: ValueError, k outside [2, N]
    | NotTwoClasses               // stratified_kfold_splits: ValueError, not exactly two labels
    | InvalidStratifiedFoldCount  // stratified_kfold_splits: ValueError, k outside [2, min class size]
    | OneRowMatrix                // standardize: ValueError, 2-D matrix with one row
    | ShapeMismatch               // numpy: operands cannot be broadcast together
    | ZeroDivision                // Python: division by float(0) on an empty label vector
    | NotANumber                  // numpy: a mean or a 0.0 / 0.0 over an empty array is NaN
    | InvalidExperimentType       // prediction_error: RuntimeError
    | EmptyReduction              // numpy: min() of a zero-size array
    | IndexOutOfRange             // Python: indexing an empty result of np.where

  datatype Result<T> = Ok(value: T) | Err(error: Error)

  datatype Option<T> = None | Some(value: T)

  function Abs(x: real): real { if x < 0.0 then -x else x }

  /** numpy's sign: -1, 0 or 1. */
  function Sign(x: real): int { if x < 0.0 then -1 else if x > 0.0 then 1 else 0 }

  function Min(a: int, b: int): int { if a <= b then a else b }

  function Max(a: int, b: int): int { if a >= b then a else b }

  /** Exact sum of a vector of reals. */
  function Sum(s: seq<real>): real
  {
    if |s| == 0 then 0.0 else s[0] + Sum(s[1..])
  }

  /** Exact arithmetic mean (numpy's mean on a non-empty axis). */
  function Mean(s: seq<real>): real
    requires |s| > 0
  {
    Sum(s) / |s| as real
  }

  /** The list [0, 1, ..., n - 1]. */
  function Range(n: nat): (r: seq<nat>)
    ensures |r| == n
    ensures forall i :: 0 <= i < n ==> r[i] == i
  {
    if n == 0 then [] else Range(n - 1) + [n - 1]
  }

  /** True when xs holds every index 0..n-1 exactly once, in some order. */
  predicate IsPermutation(xs: seq<nat>, n: nat)
  {
    multiset(xs) == multiset(Range(n))
  }

  lemma {:induction false} SumConcat(a: seq<real>, b: seq<real>)
    ensures Sum(a + b) == Sum(a) + Sum(b)
  {
    if |a| == 0 {
      assert a + b == b;
    } else {
      assert (a + b)[1..] == a[1..] + b;
      SumConcat(a[1..], b);
    }
  }

  /** Subtracting a constant from every entry subtracts it |s| times from the sum. */
  lemma {:induction false} SumShift(s: seq<real>, c: real)
    ensures Sum(seq(|s|, i requires 0 <= i < |s| => s[i] - c)) == Sum(s) - |s| as real * c
  {
    var t := seq(|s|, i requires 0 <= i < |s| => s[i] - c);
    if |s| > 0 {
      var u := seq(|s| - 1, i requires 0 <= i < |s| - 1 => s[1..][i] - c);
      assert t[1..] == u;
      SumShift(s[1..], c);
    }
  }

  /** A vector whose entries all equal c sums to |s| * c. */
  lemma {:induction false} SumConstant(s: seq<real>, c: real)
    requires forall i :: 0 <= i < |s| ==> s[i] == c
    ensures Sum(s) == |s| as real * c
  {
    if |s| > 0 {
      SumConstant(s[1..], c);
    }
  }

  /** Each index below n occurs once in Range(n), every other value never. */
  lemma {:induction false} RangeCount(n: nat, x: nat)
    ensures multiset(Range(n))[x] == if x < n then 1 else 0
  {
    if n > 0 {
      var r := Range(n - 1);
      RangeCount(n - 1, x);
      assert Range(n) == r + [n - 1];
      assert multiset(r + [n - 1]) == multiset(r) + multiset{n - 1};
      if x == n - 1 {
        assert multiset(Range(n))[x] == multiset(r)[x] + 1;
      } else {
        assert multiset(Range(n))[x] == multiset(r)[x];
      }
    }
  }

  /** No value occurs twice in s. */
  predicate Distinct(s: seq<nat>)
  {
    forall i, j :: 0 <= i < j < |s| ==> s[i] != s[j]
  }

  lemma {:induction false} DistinctCount(s: seq<nat>, x: nat)
    requires Distinct(s)
    ensures multiset(s)[x] <= 1
  {
    if |s| > 0 {
      DistinctCount(s[1..], x);
      assert s == [s[0]] + s[1..];
      if s[0] == x {
        assert x !in s[1..];
      }
    }
  }

  /** n distinct values below n are a reordering of 0..n-1. */
  lemma PermutationFromDistinct(s: seq<nat>, n: nat)
    requires |s| == n && Distinct(s)
    requires forall i :: 0 <= i < |s| ==> s[i] < n
    ensures IsPermutation(s, n)
  {
    var a, b := multiset(s), multiset(Range(n));
    forall x: nat ensures a[x] <= b[x] {
      DistinctCount(s, x);
      RangeCount(n, x);
    }
    assert b == a + (b - a);
  }

  /** A non-empty vector whose entries all equal c has mean c. */
  lemma MeanConstant(s: seq<real>, c: real)
    requires |s| > 0
    requires forall i :: 0 <= i < |s| ==> s[i] == c
    ensures Mean(s) == c
  {
    SumConstant(s, c);
    var n := |s| as real;
    assert n > 0.0;
    assert n * c / n == c;
  }

  /** numpy's boolean indexing xs[mask]: the entries where mask is True,
      in their order. An all-True mask keeps everything, an all-False one
      nothing. */
  function Masked<T>(xs: seq<T>, mask: seq<bool>): (r: seq<T>)
    requires |xs| == |mask|
    ensures |r| <= |xs|
    ensures (forall i :: 0 <= i < |mask| ==> mask[i]) ==> r == xs
    ensures (forall i :: 0 <= i < |mask| ==> !mask[i]) ==> r == []
  {
    if |xs| == 0 then []
    else
      var n := |xs| - 1;
      assert xs == xs[..n] + [xs[n]];
      Masked(xs[..n], mask[..n]) + if mask[n] then [xs[n]] else []
  }

  /** Sum(s) is the sum of s without its last entry plus that entry. */
  lemma SumSnoc(s: seq<real>)
    requires |s| > 0
    ensures Sum(s) == Sum(s[..|s| - 1]) + s[|s| - 1]
  {
    assert s == s[..|s| - 1] + [s[|s| - 1]];
    SumConcat(s[..|s| - 1], [s[|s| - 1]]);
  }

  /** A sum of non-negative entries is non-negative, and it is zero exactly
      when every entry is. */
  lemma {:induction false} SumNonNegative(s: seq<real>)
    requires forall i :: 0 <= i < |s| ==> s[i] >= 0.0
    ensures Sum(s) >= 0.0
    ensures Sum(s) == 0.0 <==> forall i :: 0 <= i < |s| ==> s[i] == 0.0
  {
    if |s| > 0 {
      SumNonNegative(s[1..]);
      if Sum(s) == 0.0 {
        forall i | 0 <= i < |s| ensures s[i] == 0.0 {
          if i > 0 { assert s[i] == s[1..][i - 1]; }
        }
      }
    }
  }

  /** Entry-wise bounds carry over to sums. */
  lemma {:induction false} SumMonotone(s: seq<real>, t: seq<real>)
    requires |s| == |t|
    requires forall i :: 0 <= i < |s| ==> s[i] <= t[i]
    ensures Sum(s) <= Sum(t)
  {
    if |s| > 0 {
      SumMonotone(s[1..], t[1..]);
    }
  }
}
