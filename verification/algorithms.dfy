/** The control logic of algorithms.py around the numerical solvers: soft
    thresholding, the prediction_error dispatch, the regularization path of
    stage_Ia, the loop of elastic_net and the final selection of stage_I.
    The ridge solve, the step size and the gradient update are floating
    point linear algebra; they enter as function parameters. */
module Algorithms {
  import opened Common
  import opened Metrics
  import LegacyTools

  // ---------------------------------------------------------------------
  // soft_thresholding

  /** One entry of soft_thresholding: entries with |x| < th / 2 become 0,
      the others move th / 2 towards 0. */
  function Shrink(x: real, th: real): real
  {
    if Abs(x) < th / 2.0 then 0.0 else x - Sign(x) as real * (th / 2.0)
  }

  function ShrinkAll(x: seq<real>, th: real): (r: seq<real>)
    ensures |r| == |x|
  {
    seq(|x|, i requires 0 <= i < |x| => Shrink(x[i], th))
  }

  /** soft_thresholding: out = x - sign(x) * th / 2 in a new array, then
      the entries with |x| < th / 2 are overwritten with 0. */
  method SoftThresholding(x: seq<real>, th: real) returns (out: seq<real>)
    ensures out == ShrinkAll(x, th)
  {
    var a := new real[|x|];
    var i := 0;
    while i < |x|
      invariant 0 <= i <= |x|
      invariant forall j :: 0 <= j < i ==> a[j] == x[j] - Sign(x[j]) as real * (th / 2.0)
    {
      a[i] := x[i] - Sign(x[i]) as real * (th / 2.0);
      i := i + 1;
    }
    i := 0;
    while i < |x|
      invariant 0 <= i <= |x|
      invariant forall j :: 0 <= j < i ==> a[j] == Shrink(x[j], th)
      invariant forall j :: i <= j < |x| ==> a[j] == x[j] - Sign(x[j]) as real * (th / 2.0)
    {
      if Abs(x[i]) < th / 2.0 {
        a[i] := 0.0;
      }
      i := i + 1;
    }
    out := a[..];
  }

  /** A zero threshold changes nothing. */
  lemma ShrinkZeroThreshold(x: seq<real>)
    ensures ShrinkAll(x, 0.0) == x
  {
    forall i | 0 <= i < |x| ensures ShrinkAll(x, 0.0)[i] == x[i] {
      assert Sign(x[i]) as real * (0.0 / 2.0) == 0.0;
    }
  }

  /** For a non-negative threshold an entry never grows in magnitude and
      never changes sign; it becomes 0 exactly when |x| <= th / 2 (the
      strict test leaves |x| = th / 2 to the subtraction, which also gives 0). */
  lemma ShrinkProperties(x: real, th: real)
    requires th >= 0.0
    ensures Abs(Shrink(x, th)) <= Abs(x)
    ensures Shrink(x, th) == 0.0 || Sign(Shrink(x, th)) == Sign(x)
    ensures Shrink(x, th) == 0.0 <==> Abs(x) <= th / 2.0
  {
  }

  // ---------------------------------------------------------------------
  // prediction_error

  /** prediction_error: the sign-mismatch fraction for classification,
      ||labels - predicted||^2 / N for regression, a RuntimeError for any
      other experiment type. An empty classification divides by float(0);
      an empty regression gives numpy's 0.0 / 0.0. */
  function PredictionError(labels: seq<real>, predicted: seq<real>, experimentType: string): (r: Result<real>)
    requires |labels| == |predicted|
    ensures experimentType != "classification" && experimentType != "regression"
            ==> r == Err(InvalidExperimentType)
    ensures experimentType == "classification" ==> (r.Err? <==> |labels| == 0) && (r.Err? ==> r.error == ZeroDivision)
    ensures experimentType == "regression" ==> (r.Err? <==> |labels| == 0) && (r.Err? ==> r.error == NotANumber)
  {
    if experimentType == "classification" then
      if |labels| == 0 then Err(ZeroDivision)
      else Ok(|Masked(labels, LegacyTools.Differences(labels, predicted))| as real / |labels| as real)
    else if experimentType == "regression" then
      if |labels| == 0 then Err(NotANumber)
      else
        // norm * norm: the square of the Euclidean norm is the dot product
        // of the difference with itself
        var difference := seq(|labels|, i requires 0 <= i < |labels| => labels[i] - predicted[i]);
        Ok(LegacyTools.Dot(difference, difference) / |labels| as real)
    else Err(InvalidExperimentType)
  }

  /** labels[difference] has as many entries as difference[difference]:
      the count depends on the mask alone. */
  lemma {:induction false} MaskedCount(xs: seq<real>, mask: seq<bool>)
    requires |xs| == |mask|
    ensures |Masked(xs, mask)| == |Masked(mask, mask)|
  {
    if |xs| > 0 {
      MaskedCount(xs[..|xs| - 1], mask[..|mask| - 1]);
    }
  }

  /** Each branch of prediction_error is the corresponding error function of
      l1l2py/tools.py: in [0, 1] for classification, non-negative and 0
      exactly for a perfect prediction for regression. */
  lemma PredictionErrorMatchesMetrics(labels: seq<real>, predicted: seq<real>)
    requires |labels| == |predicted|
    ensures PredictionError(labels, predicted, "classification") == ClassificationError(labels, predicted)
    ensures PredictionError(labels, predicted, "regression") == RegressionError(labels, predicted)
  {
    MaskedCount(labels, LegacyTools.Differences(labels, predicted));
    LegacyTools.SelfMaskCountsMismatches(labels, predicted);
    LegacyTools.DotIsSquaredErrorSum(labels, predicted);
  }

  // ---------------------------------------------------------------------
  // elastic_net: the loop control around the abstract update

  const KMin: nat := 100
  const Tol: real := 0.01

  /** np.all(np.abs(beta_next - beta) <= np.abs(beta) * (tol / (k + 1))):
      the test is relative, so a zero coefficient must stay zero, and an
      unchanged model always passes. */
  function WithinTolerance(beta: seq<real>, next: seq<real>, k: nat): (b: bool)
    ensures b ==> |next| == |beta| && forall i :: 0 <= i < |beta| && beta[i] == 0.0 ==> next[i] == 0.0
    ensures next == beta ==> b
  {
    |next| == |beta|
    && forall i :: 0 <= i < |beta| ==> Abs(next[i] - beta[i]) <= Abs(beta[i]) * (Tol / (k + 1) as real)
  }

  /** The entrywise guarantees of ShrinkProperties, for a whole vector. */
  lemma ShrinkAllProperties(x: seq<real>, th: real)
    requires th >= 0.0
    ensures forall i :: 0 <= i < |x| ==>
      var y := ShrinkAll(x, th)[i];
      Abs(y) <= Abs(x[i]) && (y == 0.0 || Sign(y) == Sign(x[i])) && (y == 0.0 <==> Abs(x[i]) <= th / 2.0)
  {
    forall i | 0 <= i < |x| {
      ShrinkProperties(x[i], th);
    }
  }

  /** One update: soft thresholding of the gradient step value at tau_s.
      For a non-negative tau_s no coefficient of the step grows or changes
      sign, and exactly those within tau_s / 2 of zero are cut to zero. */
  function Update(value: seq<real> -> seq<real>, tauS: real, beta: seq<real>): (u: seq<real>)
    ensures |u| == |value(beta)|
    ensures tauS >= 0.0 ==> forall i :: 0 <= i < |u| ==>
      Abs(u[i]) <= Abs(value(beta)[i]) && (u[i] == 0.0 || Sign(u[i]) == Sign(value(beta)[i]))
      && (u[i] == 0.0 <==> Abs(value(beta)[i]) <= tauS / 2.0)
  {
    if tauS >= 0.0 then
      ShrinkAllProperties(value(beta), tauS);
      ShrinkAll(value(beta), tauS)
    else ShrinkAll(value(beta), tauS)
  }

  /** The k-th iterate from the warm start. */
  function Iterate(value: seq<real> -> seq<real>, tauS: real, beta0: seq<real>, k: nat): seq<real>
  {
    if k == 0 then beta0 else Update(value, tauS, Iterate(value, tauS, beta0, k - 1))
  }

  /** Iteration j found every change within tolerance. */
  predicate StepWithin(value: seq<real> -> seq<real>, tauS: real, beta0: seq<real>, j: nat)
  {
    WithinTolerance(Iterate(value, tauS, beta0, j), Iterate(value, tauS, beta0, j + 1), j)
  }

  /** log has been latched to False before iteration k: it was latched
      before iteration k - 1, or iteration k - 1 found the change within
      tolerance. */
  predicate Converged(value: seq<real> -> seq<real>, tauS: real, beta0: seq<real>, k: nat)
  {
    k > 0 && (Converged(value, tauS, beta0, k - 1) || StepWithin(value, tauS, beta0, k - 1))
  }

  /** log is False before iteration k exactly when some earlier iteration
      found the change within tolerance. */
  lemma {:induction false} ConvergedWitness(value: seq<real> -> seq<real>, tauS: real, beta0: seq<real>, k: nat)
    ensures Converged(value, tauS, beta0, k) <==> exists j :: 0 <= j < k && StepWithin(value, tauS, beta0, j)
  {
    if k > 0 {
      ConvergedWitness(value, tauS, beta0, k - 1);
      if exists j :: 0 <= j < k && StepWithin(value, tauS, beta0, j) {
        var j :| 0 <= j < k && StepWithin(value, tauS, beta0, j);
        if j < k - 1 {
          assert Converged(value, tauS, beta0, k - 1);
        }
      }
    }
  }

  /** Once latched, log stays False. */
  lemma {:induction false} ConvergedStays(value: seq<real> -> seq<real>, tauS: real, beta0: seq<real>, k: nat, k': nat)
    requires k <= k' && Converged(value, tauS, beta0, k)
    ensures Converged(value, tauS, beta0, k')
    decreases k' - k
  {
    if k < k' {
      ConvergedStays(value, tauS, beta0, k, k' - 1);
    }
  }

  /** log after iteration k is log before it, unless that iteration's
      change was within tolerance. */
  lemma ConvergedStep(value: seq<real> -> seq<real>, tauS: real, beta0: seq<real>, k: nat)
    ensures Converged(value, tauS, beta0, k + 1)
            <==> Converged(value, tauS, beta0, k)
                 || WithinTolerance(Iterate(value, tauS, beta0, k), Iterate(value, tauS, beta0, k + 1), k)
  {
  }

  /** Started at a fixed point of the update, the iteration stays there. */
  lemma {:induction false} IterateFixedPoint(value: seq<real> -> seq<real>, tauS: real, beta0: seq<real>, k: nat)
    requires Update(value, tauS, beta0) == beta0
    ensures Iterate(value, tauS, beta0, k) == beta0
  {
    if k > 0 {
      IterateFixedPoint(value, tauS, beta0, k - 1);
    }
  }

  /** From a fixed point, log is latched by the first iteration, so a loop
      that ran past KMin only while log stayed True stops at KMin exactly. */
  lemma FixedPointStopsAtKMin(value: seq<real> -> seq<real>, tauS: real, beta0: seq<real>, k: nat)
    requires Update(value, tauS, beta0) == beta0
    requires KMin <= k
    requires forall k' :: KMin <= k' < k ==> !Converged(value, tauS, beta0, k')
    ensures k == KMin
  {
    IterateFixedPoint(value, tauS, beta0, 0);
    IterateFixedPoint(value, tauS, beta0, 1);
    assert WithinTolerance(Iterate(value, tauS, beta0, 0), Iterate(value, tauS, beta0, 1), 0);
    ConvergedStays(value, tauS, beta0, 1, KMin);
  }

  /** An iteration the loop condition lets through is one more iteration
      at which the loop could not have stopped. */
  lemma NoEarlierStop(value: seq<real> -> seq<real>, tauS: real, beta0: seq<real>, kmax: real, k: nat)
    requires k < KMin || (k as real < kmax && !Converged(value, tauS, beta0, k))
    requires forall k' :: KMin <= k' < k ==> k' as real < kmax && !Converged(value, tauS, beta0, k')
    ensures forall k' :: KMin <= k' < k + 1 ==> k' as real < kmax && !Converged(value, tauS, beta0, k')
  {
  }

  /** The least integer not below x. */
  function Ceil(x: real): (c: int)
    ensures c as real >= x && (c - 1) as real < x
  {
    if x.Floor as real == x then x.Floor else x.Floor + 1
  }

  /** The loop of elastic_net: at least KMin iterations, then on while
      k < kmax and log is True; log turns False, for good, at the first
      iteration whose change is within tolerance. Returns beta_next and k.
      value is the gradient step (beta * (1 - mu_s) + XT (Y - X beta)). */
  method ElasticNetLoop(value: seq<real> -> seq<real>, tauS: real, beta0: seq<real>, kmax: real)
    returns (betaNext: seq<real>, k: nat)
    ensures KMin <= k <= Max(KMin, Ceil(kmax))
    ensures betaNext == Iterate(value, tauS, beta0, k + 1)
    ensures k as real >= kmax || Converged(value, tauS, beta0, k)
    ensures forall k' :: KMin <= k' < k ==> k' as real < kmax && !Converged(value, tauS, beta0, k')
  {
    var beta := beta0;
    var v := value(beta);
    betaNext := SoftThresholding(v, tauS);
    k := 0;
    var log := true;
    while k < KMin || (k as real < kmax && log)
      invariant k <= Max(KMin, Ceil(kmax))
      invariant beta == Iterate(value, tauS, beta0, k)
      invariant betaNext == Iterate(value, tauS, beta0, k + 1)
      invariant log <==> !Converged(value, tauS, beta0, k)
      invariant forall k' :: KMin <= k' < k ==> k' as real < kmax && !Converged(value, tauS, beta0, k')
      decreases Max(KMin, Ceil(kmax)) - k
    {
      ConvergedStep(value, tauS, beta0, k);
      NoEarlierStop(value, tauS, beta0, kmax, k);
      if WithinTolerance(beta, betaNext, k) {
        log := false;
      }
      beta := betaNext;
      v := value(beta);
      betaNext := SoftThresholding(v, tauS);
      k := k + 1;
    }
  }

  // ---------------------------------------------------------------------
  // stage_Ia: the regularization path

  /** The number of taus stage_Ia walks: zip with reversed(xrange(10)). */
  const PathCap: nat := 10

  /** np.sum(beta != 0). */
  function NonZeros(beta: seq<real>): (c: nat)
    ensures c <= |beta|
  {
    if |beta| == 0 then 0
    else NonZeros(beta[..|beta| - 1]) + if beta[|beta| - 1] != 0.0 then 1 else 0
  }

  /** One model of the path: beta_ls itself when mu is 0 and the previous
      model has at least n non-zeros, otherwise the warm-started solve. */
  function PathEntry(rows: nat, betaLs: seq<real>, mu: real, solve: (real, real, seq<real>) -> seq<real>,
                     tau: real, warm: seq<real>, sparsity: nat): (r: seq<real>)
    ensures r == betaLs || r == solve(mu, tau, warm)
    ensures mu != 0.0 || sparsity < rows ==> r == solve(mu, tau, warm)
  {
    if mu == 0.0 && sparsity >= rows then betaLs else solve(mu, tau, warm)
  }

  /** The warm start of path[j]: the next entry, computed just before it,
      or beta_ls for the last entry, which is computed first. */
  function WarmStart(betaLs: seq<real>, path: seq<seq<real>>, j: nat): seq<real>
    requires j < |path|
  {
    if j + 1 == |path| then betaLs else path[j + 1]
  }

  /** The sparsity seen when computing path[j]; it starts at 0. */
  function SparsityBefore(path: seq<seq<real>>, j: nat): nat
    requires j < |path|
  {
    if j + 1 == |path| then 0 else NonZeros(path[j + 1])
  }

  /** Every entry of path is aligned with the end of tau_range. */
  predicate IsPathSuffix(rows: nat, betaLs: seq<real>, mu: real, solve: (real, real, seq<real>) -> seq<real>,
                         tauRange: seq<real>, path: seq<seq<real>>)
  {
    && |path| <= |tauRange|
    && forall j :: 0 <= j < |path| ==> EntryAligned(rows, betaLs, mu, solve, tauRange, path, j)
  }

  /** Entry j of path is the model for tau_range[L - |path| + j],
      warm-started from the entry after it. */
  predicate EntryAligned(rows: nat, betaLs: seq<real>, mu: real, solve: (real, real, seq<real>) -> seq<real>,
                         tauRange: seq<real>, path: seq<seq<real>>, j: nat)
    requires j < |path| <= |tauRange|
  {
    path[j] == PathEntry(rows, betaLs, mu, solve, tauRange[|tauRange| - |path| + j],
                         WarmStart(betaLs, path, j), SparsityBefore(path, j))
  }

  /** path holds min(cap, L) models, one per tau of the end of tau_range. */
  predicate IsRegularizationPath(rows: nat, betaLs: seq<real>, mu: real, solve: (real, real, seq<real>) -> seq<real>,
                                 tauRange: seq<real>, cap: nat, path: seq<seq<real>>)
  {
    |path| == Min(cap, |tauRange|) && IsPathSuffix(rows, betaLs, mu, solve, tauRange, path)
  }

  /** appendleft of the model for the tau before the processed ones keeps
      the path aligned. */
  lemma PrependKeepsAlignment(rows: nat, betaLs: seq<real>, mu: real, solve: (real, real, seq<real>) -> seq<real>,
                              tauRange: seq<real>, path: seq<seq<real>>, next: seq<real>)
    requires IsPathSuffix(rows, betaLs, mu, solve, tauRange, path) && |path| < |tauRange|
    requires next == PathEntry(rows, betaLs, mu, solve, tauRange[|tauRange| - 1 - |path|],
                               if |path| == 0 then betaLs else path[0],
                               if |path| == 0 then 0 else NonZeros(path[0]))
    ensures IsPathSuffix(rows, betaLs, mu, solve, tauRange, [next] + path)
  {
    var p := [next] + path;
    forall j | 0 <= j < |p|
      ensures EntryAligned(rows, betaLs, mu, solve, tauRange, p, j)
    {
      if j > 0 {
        assert EntryAligned(rows, betaLs, mu, solve, tauRange, path, j - 1);
        assert p[j] == path[j - 1];
        assert WarmStart(betaLs, p, j) == WarmStart(betaLs, path, j - 1);
        assert SparsityBefore(p, j) == SparsityBefore(path, j - 1);
      }
    }
  }

  /** The loop of stage_Ia for a given cap: walk tau_range from its end,
      solve, and appendleft each model. */
  method RegularizationPath(rows: nat, betaLs: seq<real>, mu: real, solve: (real, real, seq<real>) -> seq<real>,
                            tauRange: seq<real>, cap: nat) returns (path: seq<seq<real>>)
    ensures IsRegularizationPath(rows, betaLs, mu, solve, tauRange, cap, path)
  {
    var m := Min(cap, |tauRange|);
    var beta := betaLs;
    var sparsity := 0;
    path := [];
    while |path| < m
      invariant |path| <= m
      invariant beta == (if |path| == 0 then betaLs else path[0])
      invariant sparsity == (if |path| == 0 then 0 else NonZeros(path[0]))
      invariant IsPathSuffix(rows, betaLs, mu, solve, tauRange, path)
    {
      var t := tauRange[|tauRange| - 1 - |path|];
      var betaNext;
      if mu == 0.0 && sparsity >= rows {
        betaNext := betaLs;
      } else {
        betaNext := solve(mu, t, beta);
      }
      PrependKeepsAlignment(rows, betaLs, mu, solve, tauRange, path, betaNext);
      path := [betaNext] + path;
      sparsity := NonZeros(betaNext);
      beta := betaNext;
    }
  }

  /** Reading an aligned path: an entry after the first one computed is
      beta_ls itself when mu is 0 and the model computed before it has at
      least n non-zeros; otherwise it is the solve for its tau warm-started
      from that model. */
  lemma PathEntryCases(rows: nat, betaLs: seq<real>, mu: real, solve: (real, real, seq<real>) -> seq<real>,
                       tauRange: seq<real>, path: seq<seq<real>>, j: nat)
    requires IsPathSuffix(rows, betaLs, mu, solve, tauRange, path)
    requires j + 1 < |path|
    ensures mu == 0.0 && NonZeros(path[j + 1]) >= rows ==> path[j] == betaLs
    ensures !(mu == 0.0 && NonZeros(path[j + 1]) >= rows)
            ==> path[j] == solve(mu, tauRange[|tauRange| - |path| + j], path[j + 1])
  {
    assert EntryAligned(rows, betaLs, mu, solve, tauRange, path, j);
  }

  /** stage_Ia as written: at most PathCap models, and for L > PathCap
      they belong to the last PathCap taus. The first model computed, the
      last entry, is always solved from beta_ls when X has rows. */
  method StageIa(rows: nat, betaLs: seq<real>, mu: real, solve: (real, real, seq<real>) -> seq<real>,
                 tauRange: seq<real>) returns (path: seq<seq<real>>)
    ensures IsRegularizationPath(rows, betaLs, mu, solve, tauRange, PathCap, path)
    ensures |path| == Min(PathCap, |tauRange|)
    ensures rows > 0 && |path| > 0 ==> path[|path| - 1] == solve(mu, tauRange[|tauRange| - 1], betaLs)
  {
    path := RegularizationPath(rows, betaLs, mu, solve, tauRange, PathCap);
    if |path| > 0 {
      assert EntryAligned(rows, betaLs, mu, solve, tauRange, path, |path| - 1);
    }
  }

  /** stage_I reads path entry j as the model of tau_range[j]. With more
      than PathCap taus the capped path has PathCap entries, so the rows
      PathCap .. L - 1 of the error grid are never filled, and entry j was
      solved for tau_range[L - PathCap + j], never for tau_range[j]. */
  lemma CappedPathMisaligned(rows: nat, betaLs: seq<real>, mu: real, solve: (real, real, seq<real>) -> seq<real>,
                             tauRange: seq<real>, path: seq<seq<real>>)
    requires IsRegularizationPath(rows, betaLs, mu, solve, tauRange, PathCap, path)
    requires |tauRange| > PathCap && mu != 0.0
    ensures |path| == PathCap < |tauRange|
    ensures forall j :: 0 <= j < PathCap ==>
              path[j] == solve(mu, tauRange[|tauRange| - PathCap + j], WarmStart(betaLs, path, j))
  {
    forall j | 0 <= j < PathCap
      ensures path[j] == solve(mu, tauRange[|tauRange| - PathCap + j], WarmStart(betaLs, path, j))
    {
      assert EntryAligned(rows, betaLs, mu, solve, tauRange, path, j);
    }
  }

  /** The path stage_I expects: one model per tau, with entry j computed
      for tau_range[j]. */
  method StageIaAligned(rows: nat, betaLs: seq<real>, mu: real, solve: (real, real, seq<real>) -> seq<real>,
                        tauRange: seq<real>) returns (path: seq<seq<real>>)
    ensures |path| == |tauRange|
    ensures forall j :: 0 <= j < |path| ==>
              path[j] == PathEntry(rows, betaLs, mu, solve, tauRange[j],
                                   WarmStart(betaLs, path, j), SparsityBefore(path, j))
  {
    path := RegularizationPath(rows, betaLs, mu, solve, tauRange, |tauRange|);
    forall j | 0 <= j < |path|
      ensures path[j] == PathEntry(rows, betaLs, mu, solve, tauRange[j],
                                   WarmStart(betaLs, path, j), SparsityBefore(path, j))
    {
      assert EntryAligned(rows, betaLs, mu, solve, tauRange, path, j);
    }
  }

  // ---------------------------------------------------------------------
  // stage_I: fold mean and first minimum

  /** err_ts: one taus x lambdas grid per fold. */
  predicate IsGridStack(errTs: seq<seq<seq<real>>>, taus: nat, lambdas: nat)
  {
    forall f :: 0 <= f < |errTs| ==>
      |errTs[f]| == taus && forall t :: 0 <= t < taus ==> |errTs[f][t]| == lambdas
  }

  predicate IsGrid(g: seq<seq<real>>, lambdas: nat)
  {
    forall t :: 0 <= t < |g| ==> |g[t]| == lambdas
  }

  /** err_ts.mean(axis=0). */
  function FoldMean(errTs: seq<seq<seq<real>>>, taus: nat, lambdas: nat): (g: seq<seq<real>>)
    requires |errTs| > 0 && IsGridStack(errTs, taus, lambdas)
    ensures |g| == taus && IsGrid(g, lambdas)
  {
    seq(taus, t requires 0 <= t < taus =>
      seq(lambdas, l requires 0 <= l < lambdas =>
        Mean(seq(|errTs|, f requires 0 <= f < |errTs| => errTs[f][t][l]))))
  }

  /** Folds that all hold the same grid average to that grid. */
  lemma FoldMeanOfCopies(errTs: seq<seq<seq<real>>>, g: seq<seq<real>>, lambdas: nat)
    requires |errTs| > 0 && IsGrid(g, lambdas)
    requires forall f :: 0 <= f < |errTs| ==> errTs[f] == g
    ensures IsGridStack(errTs, |g|, lambdas)
    ensures FoldMean(errTs, |g|, lambdas) == g
  {
    var m := FoldMean(errTs, |g|, lambdas);
    forall t | 0 <= t < |g| ensures m[t] == g[t] {
      forall l | 0 <= l < lambdas ensures m[t][l] == g[t][l] {
        SumConstant(seq(|errTs|, f requires 0 <= f < |errTs| => errTs[f][t][l]), g[t][l]);
      }
    }
  }

  /** Index k is the first minimum of s. */
  predicate IsFirstMin(s: seq<real>, k: nat)
  {
    k < |s|
    && (forall i :: 0 <= i < |s| ==> s[k] <= s[i])
    && (forall i :: 0 <= i < k ==> s[k] < s[i])
  }

  function ArgMin(s: seq<real>): (k: nat)
    requires |s| > 0
    ensures IsFirstMin(s, k)
  {
    if |s| == 1 then 0
    else
      var k := ArgMin(s[..|s| - 1]);
      if s[|s| - 1] < s[k] then |s| - 1 else k
  }

  /** (t, l) is where the minimum of the grid first occurs in row-major
      order: the first index pair np.where(g == g.min()) returns. */
  predicate IsFirstMinimum(g: seq<seq<real>>, lambdas: nat, t: nat, l: nat)
    requires IsGrid(g, lambdas)
  {
    && t < |g| && l < lambdas
    && (forall t', l' :: 0 <= t' < |g| && 0 <= l' < lambdas ==> g[t][l] <= g[t'][l'])
    && (forall t', l' :: 0 <= t' < |g| && 0 <= l' < lambdas && (t' < t || (t' == t && l' < l))
          ==> g[t][l] < g[t'][l'])
  }

  function GridArgMin(g: seq<seq<real>>, lambdas: nat): (p: (nat, nat))
    requires |g| > 0 && lambdas > 0 && IsGrid(g, lambdas)
    ensures IsFirstMinimum(g, lambdas, p.0, p.1)
  {
    var n := |g| - 1;
    var l := ArgMin(g[n]);
    if n == 0 then (0, l)
    else
      var p := GridArgMin(g[..n], lambdas);
      if g[n][l] < g[p.0][p.1] then (n, l) else p
  }

  /** The first minimum is unique. */
  lemma FirstMinimumUnique(g: seq<seq<real>>, lambdas: nat, t: nat, l: nat, t': nat, l': nat)
    requires IsGrid(g, lambdas)
    requires IsFirstMinimum(g, lambdas, t, l) && IsFirstMinimum(g, lambdas, t', l')
    ensures t == t' && l == l'
  {
    assert g[t][l] == g[t'][l'];
  }

  /** What stage_I returns: the tau and lambda at the first minimum of the
      fold-mean test error, and the indices they were read at. */
  datatype Selection = Selection(tauIndex: nat, lambdaIndex: nat, tauOpt: real, lambdaOpt: real)

  /** The end of stage_I. A grid without entries has no minimum (numpy
      raises on min of a zero-size array); without folds every mean is NaN,
      np.where finds nothing and indexing its first element raises. */
  function StageISelect(errTs: seq<seq<seq<real>>>, tauRange: seq<real>, lambdaRange: seq<real>): (r: Result<Selection>)
    requires IsGridStack(errTs, |tauRange|, |lambdaRange|)
    ensures |tauRange| == 0 || |lambdaRange| == 0 ==> r == Err(EmptyReduction)
    ensures |tauRange| > 0 && |lambdaRange| > 0 && |errTs| == 0 ==> r == Err(IndexOutOfRange)
    ensures r.Ok? <==> |tauRange| > 0 && |lambdaRange| > 0 && |errTs| > 0
    ensures r.Ok? ==>
      && IsFirstMinimum(FoldMean(errTs, |tauRange|, |lambdaRange|), |lambdaRange|, r.value.tauIndex, r.value.lambdaIndex)
      && r.value.tauOpt == tauRange[r.value.tauIndex]
      && r.value.lambdaOpt == lambdaRange[r.value.lambdaIndex]
  {
    if |tauRange| == 0 || |lambdaRange| == 0 then Err(EmptyReduction)
    else if |errTs| == 0 then Err(IndexOutOfRange)
    else
      var p := GridArgMin(FoldMean(errTs, |tauRange|, |lambdaRange|), |lambdaRange|);
      Ok(Selection(p.0, p.1, tauRange[p.0], lambdaRange[p.1]))
  }
}
