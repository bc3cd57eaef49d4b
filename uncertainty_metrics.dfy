/** Uncertainty-realism statistics (xfiles/uncertainty_metrics.py): chi^2 of
    residuals against their covariances, the Cramer-von Mises test of a chi^2
    sample with its conversion to a significance level, and Pearson's binned
    deviations. The chi^2 distribution's CDF and quantile function, the matrix
    inverse and the square root are parameters. */
module UncertaintyMetrics {
  import opened Common
  import opened Sorting

  type Vector = seq<real>
  type Matrix = seq<seq<real>>

  // ---------------------------------------------------------------------
  // chi2
  // ---------------------------------------------------------------------

  /** The numpy arrays `chi2` may receive, told apart by their number of axes.
      `RankN` is an array of four or more axes; its entries play no part. */
  datatype NdArray =
    | Rank0(x: real)
    | Rank1(v: Vector)
    | Rank2(m: Matrix)
    | Rank3(c: seq<Matrix>)
    | RankN(ndim: nat)

  /** `chi2` returns a scalar in scalar mode and one value per pair in batch mode. */
  datatype Chi2Value = Single(chi2: real) | PerPair(chi2s: seq<real>)

  const UnrecognizedShapes := "unrecognized shapes of dx, covar"

  predicate IsSquare(c: Matrix)
  {
    forall j :: 0 <= j < |c| ==> |c[j]| == |c|
  }

  /** `x` has as many entries as the square matrix `a` has rows. */
  predicate Conformant(x: Vector, a: Matrix)
  {
    |a| == |x| && IsSquare(a)
  }

  function MatVec(a: Matrix, x: Vector): (y: Vector)
    requires Conformant(x, a)
    ensures |y| == |x|
  {
    seq(|a|, j requires 0 <= j < |a| => Dot(a[j], x))
  }

  /** x^T A x: the value `np.einsum('ij,ijk,ik->i', dx, cinv, dx)` gives row i. */
  function QuadForm(x: Vector, a: Matrix): real
    requires Conformant(x, a)
  {
    Dot(x, MatVec(a, x))
  }

  function Scale(c: real, x: Vector): (y: Vector)
    ensures |y| == |x|
    ensures forall i :: 0 <= i < |x| ==> y[i] == c * x[i]
  {
    if x == [] then [] else [c * x[0]] + Scale(c, x[1..])
  }

  lemma {:induction false} DotScaleLeft(c: real, a: Vector, b: Vector)
    requires |a| == |b|
    ensures Dot(Scale(c, a), b) == c * Dot(a, b)
  {
    if a != [] {
      DotScaleLeft(c, a[1..], b[1..]);
    }
  }

  lemma {:induction false} DotScaleRight(c: real, a: Vector, b: Vector)
    requires |a| == |b|
    ensures Dot(a, Scale(c, b)) == c * Dot(a, b)
  {
    if a != [] {
      DotScaleRight(c, a[1..], b[1..]);
    }
  }

  /** A x is linear in x. */
  lemma MatVecScale(c: real, x: Vector, a: Matrix)
    requires Conformant(x, a)
    ensures MatVec(a, Scale(c, x)) == Scale(c, MatVec(a, x))
  {
    var mx := MatVec(a, x);
    var ms := MatVec(a, Scale(c, x));
    forall j | 0 <= j < |a| ensures ms[j] == Scale(c, mx)[j] {
      DotScaleRight(c, a[j], x);
    }
  }

  /** Scaling the residual by c scales its chi^2 by c^2. */
  lemma QuadFormHomogeneous(c: real, x: Vector, a: Matrix)
    requires Conformant(x, a)
    ensures QuadForm(Scale(c, x), a) == c * c * QuadForm(x, a)
  {
    var mx := MatVec(a, x);
    MatVecScale(c, x, a);
    DotScaleLeft(c, x, Scale(c, mx));
    DotScaleRight(c, x, mx);
    MulAssoc(c, c, Dot(x, mx));
  }

  lemma MulAssoc(a: real, b: real, c: real)
    ensures a * (b * c) == a * b * c
  {
  }

  /** A zero residual has chi^2 zero, whatever the covariance. */
  lemma QuadFormZero(x: Vector, a: Matrix)
    requires Conformant(x, a)
    requires forall i :: 0 <= i < |x| ==> x[i] == 0.0
    ensures QuadForm(x, a) == 0.0
  {
    assert x == Scale(0.0, x);
    QuadFormHomogeneous(0.0, x, a);
  }

  /** The list comprehension `[np.linalg.inv(c) for c in covar]`: the first
      non-square or singular matrix raises. `inv` is the supplied inverse,
      None for a singular matrix. */
  function Inverses(covar: seq<Matrix>, inv: Matrix -> Option<Matrix>): (r: Result<seq<Matrix>>)
    ensures r.Success? <==> forall i :: 0 <= i < |covar| ==> IsSquare(covar[i]) && inv(covar[i]).Some?
    ensures r.Success? ==> |r.value| == |covar|
    ensures r.Success? ==> forall i :: 0 <= i < |covar| ==> inv(covar[i]) == Some(r.value[i])
    ensures r.Failure? ==> r.error.LinAlgError?
  {
    if covar == [] then Success([])
    else if !IsSquare(covar[0]) then Failure(LinAlgError("Last 2 dimensions of the array must be square"))
    else match inv(covar[0])
      case None => Failure(LinAlgError("Singular matrix"))
      case Some(c0) =>
        var rest :- Inverses(covar[1..], inv);
        Success([c0] + rest)
  }

  /** The einsum over stacked operands. A stack of zero inverses is built by
      numpy as a one-axis array, which the three-index subscript rejects. */
  function Einsum(dx: Matrix, cinv: seq<Matrix>): (r: Result<seq<real>>)
    ensures r.Success? <==>
              0 < |cinv| && |dx| == |cinv| && forall i :: 0 <= i < |dx| ==> Conformant(dx[i], cinv[i])
    ensures r.Failure? ==> r.error.ValueError?
    ensures r.Success? ==>
              |r.value| == |dx| && forall i :: 0 <= i < |dx| ==> r.value[i] == QuadForm(dx[i], cinv[i])
  {
    if |cinv| == 0 then
      Failure(ValueError("einstein sum subscripts string contains too many subscripts for operand 1"))
    else if |dx| != |cinv| || exists i :: 0 <= i < |dx| && !Conformant(dx[i], cinv[i]) then
      Failure(ValueError("operands could not be broadcast together"))
    else
      Success(seq(|dx|, i requires 0 <= i < |dx| && Conformant(dx[i], cinv[i]) => QuadForm(dx[i], cinv[i])))
  }

  /** Batch mode: one chi^2 per (residual, covariance) pair. */
  function Chi2Batch(dx: Matrix, covar: seq<Matrix>, inv: Matrix -> Option<Matrix>): (r: Result<seq<real>>)
    ensures r.Success? <==>
              0 < |covar| == |dx| &&
              forall i :: 0 <= i < |covar| ==>
                IsSquare(covar[i]) && inv(covar[i]).Some? && Conformant(dx[i], inv(covar[i]).value)
    ensures r.Success? ==> |r.value| == |dx|
    ensures r.Success? ==> forall i :: 0 <= i < |dx| ==> r.value[i] == QuadForm(dx[i], inv(covar[i]).value)
    ensures r.Failure? ==> r.error != ValueError(UnrecognizedShapes)
  {
    var cinv :- Inverses(covar, inv);
    Einsum(dx, cinv)
  }

  /** `chi2(dx, covar)`: scalar mode for a vector and a matrix, batch mode for
      a matrix and a stack of matrices, ValueError for every other pairing. */
  function Chi2(dx: NdArray, covar: NdArray, inv: Matrix -> Option<Matrix>): (r: Result<Chi2Value>)
    ensures !((dx.Rank1? && covar.Rank2?) || (dx.Rank2? && covar.Rank3?)) <==>
            r == Failure(ValueError(UnrecognizedShapes))
    ensures dx.Rank1? && covar.Rank2? ==>
              (r.Success? <==> IsSquare(covar.m) && inv(covar.m).Some? && Conformant(dx.v, inv(covar.m).value))
    ensures dx.Rank2? && covar.Rank3? ==>
              (r.Success? <==>
                 0 < |covar.c| == |dx.m| &&
                 forall i :: 0 <= i < |covar.c| ==>
                   IsSquare(covar.c[i]) && inv(covar.c[i]).Some? && Conformant(dx.m[i], inv(covar.c[i]).value))
    ensures r.Success? ==> (r.value.Single? <==> dx.Rank1?)
    ensures r.Success? && dx.Rank1? ==>
              inv(covar.m).Some? && Conformant(dx.v, inv(covar.m).value) &&
              r.value.chi2 == QuadForm(dx.v, inv(covar.m).value)
    ensures r.Success? && dx.Rank2? ==>
              |r.value.chi2s| == |dx.m| == |covar.c| &&
              forall i :: 0 <= i < |dx.m| ==>
                inv(covar.c[i]).Some? && Conformant(dx.m[i], inv(covar.c[i]).value) &&
                r.value.chi2s[i] == QuadForm(dx.m[i], inv(covar.c[i]).value)
  {
    if dx.Rank1? && covar.Rank2? then
      var out :- Chi2Batch([dx.v], [covar.m], inv);
      Success(Single(out[0]))
    else if dx.Rank2? && covar.Rank3? then
      var out :- Chi2Batch(dx.m, covar.c, inv);
      Success(PerPair(out))
    else
      Failure(ValueError(UnrecognizedShapes))
  }

  /** Scalar mode is batch mode on the one wrapped pair, element 0. */
  lemma ScalarIsBatchOfOne(x: Vector, c: Matrix, inv: Matrix -> Option<Matrix>)
    ensures Chi2(Rank1(x), Rank2(c), inv).Success? <==> Chi2(Rank2([x]), Rank3([c]), inv).Success?
    ensures Chi2(Rank1(x), Rank2(c), inv).Success? ==>
              Chi2(Rank1(x), Rank2(c), inv).value.chi2 == Chi2(Rank2([x]), Rank3([c]), inv).value.chi2s[0]
  {
  }

  /** A zero residual vector contributes chi^2 zero in either mode. */
  lemma ZeroResidualZeroChi2(dx: NdArray, covar: NdArray, inv: Matrix -> Option<Matrix>)
    requires dx.Rank1? ==> forall k :: 0 <= k < |dx.v| ==> dx.v[k] == 0.0
    requires dx.Rank2? ==> forall i, k :: 0 <= i < |dx.m| && 0 <= k < |dx.m[i]| ==> dx.m[i][k] == 0.0
    ensures Chi2(dx, covar, inv).Success? && dx.Rank1? ==> Chi2(dx, covar, inv).value.chi2 == 0.0
    ensures Chi2(dx, covar, inv).Success? && dx.Rank2? ==>
              forall i :: 0 <= i < |dx.m| ==> Chi2(dx, covar, inv).value.chi2s[i] == 0.0
  {
    var r := Chi2(dx, covar, inv);
    if r.Success? && dx.Rank1? {
      QuadFormZero(dx.v, inv(covar.m).value);
    }
    if r.Success? && dx.Rank2? {
      forall i | 0 <= i < |dx.m| ensures r.value.chi2s[i] == 0.0 {
        QuadFormZero(dx.m[i], inv(covar.c[i]).value);
      }
    }
  }

  ghost predicate IsZero(x: Vector)
  {
    forall k :: 0 <= k < |x| ==> x[k] == 0.0
  }

  /** x^T A x is non-negative for every conformant x, and zero only for x = 0. */
  ghost predicate PositiveDefinite(a: Matrix)
  {
    forall y :: Conformant(y, a) ==> 0.0 <= QuadForm(y, a) && (QuadForm(y, a) == 0.0 ==> IsZero(y))
  }

  /** When the inverses of the given covariances are positive definite (as the
      inverse of a symmetric positive-definite covariance is), each chi^2 is
      non-negative and is zero exactly for a zero residual, in either mode. */
  lemma Chi2PositiveDefinite(dx: NdArray, covar: NdArray, inv: Matrix -> Option<Matrix>)
    requires covar.Rank2? && inv(covar.m).Some? ==> PositiveDefinite(inv(covar.m).value)
    requires covar.Rank3? ==>
               forall i :: 0 <= i < |covar.c| && inv(covar.c[i]).Some? ==> PositiveDefinite(inv(covar.c[i]).value)
    ensures Chi2(dx, covar, inv).Success? && dx.Rank1? ==>
              0.0 <= Chi2(dx, covar, inv).value.chi2 &&
              (Chi2(dx, covar, inv).value.chi2 == 0.0 <==> IsZero(dx.v))
    ensures Chi2(dx, covar, inv).Success? && dx.Rank2? ==>
              forall i :: 0 <= i < |dx.m| ==>
                0.0 <= Chi2(dx, covar, inv).value.chi2s[i] &&
                (Chi2(dx, covar, inv).value.chi2s[i] == 0.0 <==> IsZero(dx.m[i]))
  {
    var r := Chi2(dx, covar, inv);
    if r.Success? && dx.Rank1? {
      var a := inv(covar.m).value;
      assert PositiveDefinite(a);
      if IsZero(dx.v) {
        QuadFormZero(dx.v, a);
      }
    }
    if r.Success? && dx.Rank2? {
      forall i | 0 <= i < |dx.m|
        ensures 0.0 <= r.value.chi2s[i] && (r.value.chi2s[i] == 0.0 <==> IsZero(dx.m[i]))
      {
        var a := inv(covar.c[i]).value;
        assert PositiveDefinite(a);
        if IsZero(dx.m[i]) {
          QuadFormZero(dx.m[i], a);
        }
      }
    }
  }

  // ---------------------------------------------------------------------
  // cvm_chi2_test and cvm_to_alpha
  // ---------------------------------------------------------------------

  /** The i-th (0-based) summand ((2(i+1)-1)/(2n) - F)^2 of W^2. */
  function CvmTerm(i: nat, n: nat, f: real): (t: real)
    requires 0 < n
    ensures 0.0 <= t
  {
    var d := (2 * (i + 1) - 1) as real / (2 * n) as real - f;
    d * d
  }

  /** The Cramer-von Mises statistic W^2 of the sample against `cdf(., ndof)`;
      an empty sample divides by zero. */
  function CvmStatistic(chi2: seq<real>, ndof: int, cdf: (real, int) -> real): (r: Result<real>)
    ensures r.Success? <==> |chi2| > 0
    ensures r.Failure? ==> r.error == ZeroDivisionError
    ensures r.Success? ==> 1.0 / (12 * |chi2|) as real <= r.value
  {
    if |chi2| == 0 then Failure(ZeroDivisionError)
    else Success(CvmOfSorted(Sort(chi2), ndof, cdf))
  }

  /** W^2 of an already sorted, non-empty sample. */
  function CvmOfSorted(x: seq<real>, ndof: int, cdf: (real, int) -> real): (w: real)
    requires 0 < |x|
    ensures 1.0 / (12 * |x|) as real <= w
  {
    var n := |x|;
    var terms := seq(n, i requires 0 <= i < n => CvmTerm(i, n, cdf(x[i], ndof)));
    assert forall i :: 0 <= i < n ==> terms[i] == CvmTerm(i, n, cdf(x[i], ndof));
    SumNonnegative(terms);
    1.0 / (12 * n) as real + Sum(terms)
  }

  /** `cvm_chi2_test(chi2, ndof, alpha)`. */
  function CvmChi2Test(chi2: seq<real>, ndof: int, alpha: bool, cdf: (real, int) -> real): (r: Result<real>)
    ensures !alpha ==> r == CvmStatistic(chi2, ndof, cdf)
    ensures alpha && |chi2| > 0 ==> r == CvmToAlpha(CvmStatistic(chi2, ndof, cdf).value, |chi2|)
    ensures |chi2| == 0 ==> r == Failure(ZeroDivisionError)
  {
    var ts :- CvmStatistic(chi2, ndof, cdf);
    if alpha then CvmToAlpha(ts, |chi2|) else Success(ts)
  }

  /** The test reads its sample only through its sorted order, so any
      rearrangement of the sample gives the same result. */
  lemma CvmOrderIndependent(a: seq<real>, b: seq<real>, ndof: int, alpha: bool, cdf: (real, int) -> real)
    requires multiset(a) == multiset(b)
    ensures CvmChi2Test(a, ndof, alpha, cdf) == CvmChi2Test(b, ndof, alpha, cdf)
  {
    assert |a| == |b| by {
      assert |multiset(a)| == |a| && |multiset(b)| == |b|;
    }
    SortPermutationInvariant(a, b);
    assert CvmStatistic(a, ndof, cdf) == CvmStatistic(b, ndof, cdf);
  }

  /** Table 4.2 of Stephens (1986), "Tests Based on EDF Statistics". */
  const StephensAlphas: seq<real> := [0.25, 0.15, 0.1, 0.05, 0.025, 0.01, 0.005, 0.001]
  const StephensCritical: seq<real> := [0.209, 0.284, 0.347, 0.461, 0.581, 0.743, 0.869, 1.167]
  /** The extra entries for larger significance levels. */
  const ExtraAlphas: seq<real> := [0.99, 0.9, 0.8, 0.7, 0.6, 0.5, 0.4, 0.3]
  const ExtraCritical: seq<real> := [0.025, 0.046, 0.062, 0.078, 0.097, 0.118, 0.146, 0.184]

  const Alphas: seq<real> := ExtraAlphas + StephensAlphas
  const CriticalValues: seq<real> := ExtraCritical + StephensCritical

  ghost predicate NonIncreasing(s: seq<real>)
  {
    forall i, j :: 0 <= i < j < |s| ==> s[j] <= s[i]
  }

  ghost predicate StrictlyDecreasing(s: seq<real>)
  {
    forall i, j :: 0 <= i < j < |s| ==> s[j] < s[i]
  }

  /** The 16 critical values rise strictly and their significance levels fall strictly. */
  lemma TableOrdered()
    ensures |CriticalValues| == |Alphas| == 16
    ensures StrictlyIncreasing(CriticalValues)
    ensures StrictlyDecreasing(Alphas)
    ensures Alphas[0] == 0.99 && Alphas[15] == 0.001
  {
  }

  /** np.interp(x, xp, fp): fp[0] left of the table, the last fp right of it,
      straight-line interpolation between neighbouring knots. */
  function Interp(x: real, xp: seq<real>, fp: seq<real>): (r: real)
    requires 0 < |xp| == |fp|
    requires StrictlyIncreasing(xp)
    ensures x <= xp[0] ==> r == fp[0]
    ensures xp[|xp| - 1] <= x ==> r == fp[|fp| - 1]
    decreases |xp|
  {
    if x <= xp[0] || |xp| == 1 then fp[0]
    else if x <= xp[1] then
      SegmentAtEnd(x, xp[0], xp[1], fp[0], fp[1]);
      Segment(x, xp[0], xp[1], fp[0], fp[1])
    else Interp(x, xp[1..], fp[1..])
  }

  /** The segment reaches f1 at its right end. */
  lemma SegmentAtEnd(x: real, x0: real, x1: real, f0: real, f1: real)
    requires x0 < x1
    ensures x == x1 ==> Segment(x, x0, x1, f0, f1) == f1
  {
    if x == x1 {
      assert (x - x0) * (f1 - f0) / (x1 - x0) == f1 - f0;
    }
  }

  /** The straight line through (x0, f0) and (x1, f1), evaluated at x. */
  function Segment(x: real, x0: real, x1: real, f0: real, f1: real): real
    requires x0 < x1
  {
    f0 + (x - x0) * (f1 - f0) / (x1 - x0)
  }

  /** Between two knots the interpolant lies between their two values. */
  lemma SegmentBetween(x: real, x0: real, x1: real, f0: real, f1: real)
    requires x0 < x <= x1 && f1 <= f0
    ensures f1 <= Segment(x, x0, x1, f0, f1) <= f0
  {
    var t := (x - x0) / (x1 - x0);
    DivMonotone(x - x0, x1 - x0, x1 - x0);
    assert 0.0 < t <= 1.0;
    assert (x - x0) * (f1 - f0) / (x1 - x0) == t * (f1 - f0);
    assert t * (f1 - f0) <= 0.0;
    assert (1.0 - t) * (f1 - f0) <= 0.0;
  }

  /** Dropping the first knot keeps both orderings. */
  lemma TailOrdered(xp: seq<real>, fp: seq<real>)
    requires 1 < |xp| == |fp|
    requires StrictlyIncreasing(xp) && NonIncreasing(fp)
    ensures StrictlyIncreasing(xp[1..]) && NonIncreasing(fp[1..])
    ensures xp[0] < xp[1] && fp[1] <= fp[0] && fp[|fp| - 1] <= fp[1]
  {
  }

  /** With non-increasing values the interpolant stays within the first and last value. */
  lemma {:induction false} InterpBounds(x: real, xp: seq<real>, fp: seq<real>)
    requires 0 < |xp| == |fp|
    requires StrictlyIncreasing(xp) && NonIncreasing(fp)
    ensures fp[|fp| - 1] <= Interp(x, xp, fp) <= fp[0]
    decreases |xp|
  {
    if |xp| == 1 {
    } else {
      TailOrdered(xp, fp);
      if x <= xp[0] {
      } else if x <= xp[1] {
        SegmentBetween(x, xp[0], xp[1], fp[0], fp[1]);
      } else {
        InterpBounds(x, xp[1..], fp[1..]);
      }
    }
  }

  /** With non-increasing values the interpolant is non-increasing in x. */
  lemma {:induction false} InterpMonotone(x: real, y: real, xp: seq<real>, fp: seq<real>)
    requires x <= y
    requires 0 < |xp| == |fp|
    requires StrictlyIncreasing(xp) && NonIncreasing(fp)
    ensures Interp(y, xp, fp) <= Interp(x, xp, fp)
    decreases |xp|
  {
    if y <= xp[0] || |xp| == 1 {
    } else if x <= xp[0] {
      InterpBounds(y, xp, fp);
    } else {
      TailOrdered(xp, fp);
      if y <= xp[1] {
        SegmentMonotone(x, y, xp[0], xp[1], fp[0], fp[1]);
      } else if x <= xp[1] {
        SegmentBetween(x, xp[0], xp[1], fp[0], fp[1]);
        InterpBounds(y, xp[1..], fp[1..]);
      } else {
        InterpMonotone(x, y, xp[1..], fp[1..]);
      }
    }
  }

  lemma MulSign(a: real, b: real)
    requires 0.0 <= a && b <= 0.0
    ensures a * b <= 0.0
  {
  }

  /** A segment with a falling end value falls. */
  lemma SegmentMonotone(x: real, y: real, x0: real, x1: real, f0: real, f1: real)
    requires x0 < x1 && x <= y && f1 <= f0
    ensures Segment(y, x0, x1, f0, f1) <= Segment(x, x0, x1, f0, f1)
  {
    var s := (f1 - f0) / (x1 - x0);
    assert s <= 0.0;
    assert (x - x0) * (f1 - f0) / (x1 - x0) == (x - x0) * s;
    assert (y - x0) * (f1 - f0) / (x1 - x0) == (y - x0) * s;
    MulSign(y - x, s);
  }

  /** The interpolant passes through every knot. */
  lemma {:induction false} InterpAtKnot(j: nat, xp: seq<real>, fp: seq<real>)
    requires j < |xp| == |fp|
    requires StrictlyIncreasing(xp)
    ensures Interp(xp[j], xp, fp) == fp[j]
    decreases j
  {
    if j == 1 {
      SegmentAtEnd(xp[1], xp[0], xp[1], fp[0], fp[1]);
    } else if j > 1 {
      assert xp[1] < xp[j];
      InterpAtKnot(j - 1, xp[1..], fp[1..]);
    }
  }

  /** The finite-sample correction (W^2 - 0.4/n + 0.6/n^2) / (1 + 1/n). */
  function CorrectedStatistic(ts: real, n: int): (c: real)
    requires 5 <= n
    ensures 0.0 <= ts ==> c < ts
  {
    LowersStatistic(ts, n);
    (ts - 0.4 / n as real + 0.6 / (n * n) as real) / (1.0 + 1.0 / n as real)
  }

  /** For n >= 5 the numerator is below ts and the denominator above 1, so a
      non-negative statistic is lowered. */
  lemma LowersStatistic(ts: real, n: int)
    requires 5 <= n
    ensures 0.0 <= ts ==> (ts - 0.4 / n as real + 0.6 / (n * n) as real) / (1.0 + 1.0 / n as real) < ts
  {
    var m := n as real;
    var d := 1.0 + 1.0 / m;
    var num := ts - 0.4 / m + 0.6 / (n * n) as real;
    assert (n * n) as real == m * m;
    assert 0.6 / (m * m) < 0.4 / m by {
      assert 0.6 / (m * m) * (m * m) == 0.6;
      assert 0.4 / m * (m * m) == 0.4 * m;
    }
    assert num < ts;
    assert 1.0 < d;
    if 0.0 <= ts {
      assert num / d * d == num;
      assert ts * d >= ts;
    }
  }

  lemma CorrectedMonotone(ts1: real, ts2: real, n: int)
    requires 5 <= n && ts1 <= ts2
    ensures CorrectedStatistic(ts1, n) <= CorrectedStatistic(ts2, n)
  {
    var d := 1.0 + 1.0 / n as real;
    var k := 0.6 / (n * n) as real - 0.4 / n as real;
    assert 0.0 < d;
    assert CorrectedStatistic(ts1, n) == (ts1 + k) / d;
    assert CorrectedStatistic(ts2, n) == (ts2 + k) / d;
    DivMonotone(ts1 + k, ts2 + k, d);
  }

  lemma DivMonotone(a: real, b: real, d: real)
    requires a <= b && 0.0 < d
    ensures a / d <= b / d
  {
    assert b / d - a / d == (b - a) / d;
  }

  /** `cvm_to_alpha(ts, n)`: ValueError below five points, otherwise the
      table-interpolated significance of the corrected statistic. */
  function CvmToAlpha(ts: real, n: int): (r: Result<real>)
    ensures r.Failure? <==> n < 5
    ensures r.Failure? ==> r.error == ValueError("n must be >= 5")
    ensures r.Success? ==> 0.001 <= r.value <= 0.99
  {
    if n < 5 then Failure(ValueError("n must be >= 5"))
    else
      TableOrdered();
      InterpBounds(CorrectedStatistic(ts, n), CriticalValues, Alphas);
      Success(Interp(CorrectedStatistic(ts, n), CriticalValues, Alphas))
  }

  /** A larger statistic never gives a larger significance level. */
  lemma CvmToAlphaMonotone(ts1: real, ts2: real, n: int)
    requires 5 <= n && ts1 <= ts2
    ensures CvmToAlpha(ts2, n).value <= CvmToAlpha(ts1, n).value
  {
    TableOrdered();
    CorrectedMonotone(ts1, ts2, n);
    InterpMonotone(CorrectedStatistic(ts1, n), CorrectedStatistic(ts2, n), CriticalValues, Alphas);
  }

  /** A corrected statistic equal to a tabulated critical value gives exactly its alpha. */
  lemma CvmToAlphaAtCriticalValue(ts: real, n: int, j: nat)
    requires 5 <= n && j < 16
    requires CorrectedStatistic(ts, n) == CriticalValues[j]
    ensures CvmToAlpha(ts, n) == Success(Alphas[j])
  {
    TableOrdered();
    InterpAtKnot(j, CriticalValues, Alphas);
  }

  // ---------------------------------------------------------------------
  // pearsons_chi
  // ---------------------------------------------------------------------

  /** The interior cut points ppf(k/nbin, ndof), k = 1 .. nbin-1: the quantiles
      at `np.linspace(0, 1, nbin+1)[1:-1]`. */
  function InnerCuts(nbin: nat, ndof: int, ppf: (real, int) -> real): (cuts: seq<real>)
    requires 1 <= nbin
    ensures |cuts| == nbin - 1
    ensures forall k :: 0 <= k < nbin - 1 ==> cuts[k] == ppf((k + 1) as real / nbin as real, ndof)
  {
    seq(nbin - 1, k requires 0 <= k < nbin - 1 => ppf((k + 1) as real / nbin as real, ndof))
  }

  /** A strictly increasing quantile function gives strictly increasing cuts. */
  lemma InnerCutsIncreasing(nbin: nat, ndof: int, ppf: (real, int) -> real)
    requires 1 <= nbin
    requires forall p, q :: 0.0 < p < q < 1.0 ==> ppf(p, ndof) < ppf(q, ndof)
    ensures StrictlyIncreasing(InnerCuts(nbin, ndof, ppf))
  {
    var cuts := InnerCuts(nbin, ndof, ppf);
    forall i, j | 0 <= i < j < |cuts| ensures cuts[i] < cuts[j] {
      FractionsOrdered(i + 1, j + 1, nbin);
    }
  }

  /** 0 < a/n < b/n < 1 for naturals 0 < a < b < n. */
  lemma FractionsOrdered(a: nat, b: nat, n: nat)
    requires 0 < a < b < n
    ensures 0.0 < a as real / n as real < b as real / n as real < 1.0
  {
    DivStrict(0.0, a as real, n as real);
    DivStrict(a as real, b as real, n as real);
    DivStrict(b as real, n as real, n as real);
  }

  lemma DivStrict(a: real, b: real, d: real)
    requires 0.0 < d && a < b
    ensures a / d < b / d
  {
    assert b / d - a / d == (b - a) / d;
  }

  /** The number of interior cuts strictly below v. For increasing cuts, which
      a monotone `ppf` gives, this is `np.searchsorted([-inf] + inner + [inf], v) - 1`
      for a finite v. */
  function BinOf(inner: seq<real>, v: real): (b: nat)
    ensures b <= |inner|
  {
    if inner == [] then 0 else (if inner[0] < v then 1 else 0) + BinOf(inner[1..], v)
  }

  lemma {:induction false} BinOfAllAbove(inner: seq<real>, v: real)
    requires forall k :: 0 <= k < |inner| ==> v <= inner[k]
    ensures BinOf(inner, v) == 0
  {
    if inner != [] {
      BinOfAllAbove(inner[1..], v);
    }
  }

  /** Position i brackets v: cut i-1 lies strictly below v and cut i at or above it. */
  ghost predicate Brackets(inner: seq<real>, v: real, i: nat)
  {
    i <= |inner| && (i == 0 || inner[i - 1] < v) && (i == |inner| || v <= inner[i])
  }

  /** With sorted cuts, v goes into bin i exactly when cut i-1 < v <= cut i
      (a value equal to a cut goes to the lower bin). */
  lemma {:induction false} BinOfBrackets(inner: seq<real>, v: real, i: nat)
    requires Sorted(inner)
    ensures Brackets(inner, v, i) <==> BinOf(inner, v) == i
  {
    BinOfBracketsItself(inner, v);
  }

  lemma {:induction false} BinOfBracketsItself(inner: seq<real>, v: real)
    requires Sorted(inner)
    ensures Brackets(inner, v, BinOf(inner, v))
  {
    if inner != [] {
      if inner[0] < v {
        BinOfBracketsItself(inner[1..], v);
      } else {
        BinOfAllAbove(inner[1..], v);
      }
    }
  }

  function Zeros(n: nat): (z: seq<nat>)
    ensures |z| == n && NatSum(z) == 0
    ensures forall i :: 0 <= i < n ==> z[i] == 0
  {
    if n == 0 then [] else [0] + Zeros(n - 1)
  }

  lemma {:induction false} NatSumIncrement(s: seq<nat>, k: nat)
    requires k < |s|
    ensures NatSum(s[k := s[k] + 1]) == NatSum(s) + 1
  {
    if k > 0 {
      assert s[k := s[k] + 1][1..] == s[1..][k - 1 := s[k] + 1];
      NatSumIncrement(s[1..], k - 1);
    }
  }

  /** `np.bincount(bins, minlength=nbin)` for bins below nbin. */
  function BinCount(bins: seq<nat>, nbin: nat): (counts: seq<nat>)
    requires forall k :: 0 <= k < |bins| ==> bins[k] < nbin
    ensures |counts| == nbin
    ensures forall i :: 0 <= i < nbin ==> counts[i] == Count(bins, i)
    ensures NatSum(counts) == |bins|
  {
    if bins == [] then Zeros(nbin)
    else
      var rest := BinCount(bins[1..], nbin);
      NatSumIncrement(rest, bins[0]);
      rest[bins[0] := rest[bins[0]] + 1]
  }

  lemma DivAdd(p: real, q: real, r: real)
    requires r != 0.0
    ensures p / r + q / r == (p + q) / r
  {
  }

  /** (counts - expected) / root, entry by entry. */
  function Standardized(counts: seq<nat>, expected: real, root: real): (z: seq<real>)
    requires root != 0.0
    ensures |z| == |counts|
    ensures forall i :: 0 <= i < |counts| ==> z[i] == (counts[i] as real - expected) / root
  {
    if counts == [] then []
    else [(counts[0] as real - expected) / root] + Standardized(counts[1..], expected, root)
  }

  /** e added to itself n times. */
  function Repeat(n: nat, e: real): real
  {
    if n == 0 then 0.0 else e + Repeat(n - 1, e)
  }

  lemma {:induction false} RepeatIsProduct(n: nat, e: real)
    ensures Repeat(n, e) == n as real * e
  {
    if n > 0 {
      RepeatIsProduct(n - 1, e);
      assert n as real * e == e + (n - 1) as real * e;
    }
  }

  /** The standardized deviations add up to the standardized total deviation. */
  lemma {:induction false} StandardizedSum(counts: seq<nat>, expected: real, root: real)
    requires root != 0.0
    ensures Sum(Standardized(counts, expected, root)) == (NatSum(counts) as real - Repeat(|counts|, expected)) / root
  {
    if counts != [] {
      var rest := Standardized(counts[1..], expected, root);
      var head := (counts[0] as real - expected) / root;
      assert Standardized(counts, expected, root) == [head] + rest;
      SumCons(head, rest);
      StandardizedSum(counts[1..], expected, root);
      DivAdd(counts[0] as real - expected, NatSum(counts[1..]) as real - Repeat(|counts| - 1, expected), root);
    }
  }

  /** The bin of every sample value. */
  function Bins(inner: seq<real>, chi2: seq<real>): (bins: seq<nat>)
    ensures |bins| == |chi2|
    ensures forall k :: 0 <= k < |chi2| ==> bins[k] == BinOf(inner, chi2[k])
  {
    seq(|chi2|, k requires 0 <= k < |chi2| => BinOf(inner, chi2[k]))
  }

  /** `pearsons_chi(chi2, ndof, nbin)`: per equal-probability bin, the count's
      deviation from n/nbin in units of sqrt(n/nbin). `sqrt` is the supplied
      square root. */
  function PearsonsChi(chi2: seq<real>, ndof: int, nbin: int, ppf: (real, int) -> real, sqrt: real -> real): (r: Result<seq<real>>)
    requires forall x :: 0.0 < x ==> 0.0 < sqrt(x)
    ensures nbin < 0 ==> r.Failure? && r.error.ValueError?
    ensures nbin == 0 ==> r == Failure(ZeroDivisionError)
    ensures 0 < nbin && |chi2| == 0 ==> r == Failure(NotANumber)
    ensures r.Success? <==> 0 < nbin && 0 < |chi2|
    ensures r.Success? ==>
              var expected := |chi2| as real / nbin as real;
              var bins := Bins(InnerCuts(nbin, ndof, ppf), chi2);
              |r.value| == nbin &&
              (forall i :: 0 <= i < nbin ==> r.value[i] == (Count(bins, i) as real - expected) / sqrt(expected)) &&
              Sum(r.value) == 0.0
  {
    if nbin < -1 then Failure(ValueError("Number of samples must be non-negative"))
    else if nbin == -1 then Failure(ValueError("'minlength' must not be negative"))
    else if nbin == 0 then Failure(ZeroDivisionError)
    else if |chi2| == 0 then Failure(NotANumber)
    else Success(Deviations(Bins(InnerCuts(nbin, ndof, ppf), chi2), nbin, sqrt))
  }

  /** The standardized per-bin deviations of a non-empty sample's bins. */
  function Deviations(bins: seq<nat>, nbin: nat, sqrt: real -> real): (z: seq<real>)
    requires 0 < nbin && 0 < |bins|
    requires forall k :: 0 <= k < |bins| ==> bins[k] < nbin
    requires 0.0 < sqrt(|bins| as real / nbin as real)
    ensures var expected := |bins| as real / nbin as real;
            |z| == nbin &&
            (forall i :: 0 <= i < nbin ==> z[i] == (Count(bins, i) as real - expected) / sqrt(expected)) &&
            Sum(z) == 0.0
  {
    var counts := BinCount(bins, nbin);
    var expected := |bins| as real / nbin as real;
    var root := sqrt(expected);
    BalancedSum(counts, |bins|, nbin, root);
    Standardized(counts, expected, root)
  }

  /** Counts totalling n over nbin bins, standardized against n/nbin, add up to zero. */
  lemma BalancedSum(counts: seq<nat>, n: nat, nbin: nat, root: real)
    requires 0 < nbin && root != 0.0
    requires |counts| == nbin && NatSum(counts) == n
    ensures Sum(Standardized(counts, n as real / nbin as real, root)) == 0.0
  {
    var e := n as real / nbin as real;
    StandardizedSum(counts, e, root);
    BalancedDeviations(n, nbin, e, root);
  }

  /** With expected = n/nbin in every one of nbin bins, the deviations of
      counts totalling n cancel. */
  lemma BalancedDeviations(n: nat, nbin: nat, e: real, root: real)
    requires 0 < nbin && root != 0.0 && e == n as real / nbin as real
    ensures (n as real - Repeat(nbin, e)) / root == 0.0
  {
    RepeatIsProduct(nbin, e);
    assert nbin as real * e == n as real;
  }

  /** Every sample value is counted in the bin whose cuts bracket it, and the
      counts add up to the sample size. */
  lemma PearsonBinning(chi2: seq<real>, ndof: int, nbin: nat, ppf: (real, int) -> real, k: nat)
    requires 1 <= nbin && k < |chi2|
    requires forall p, q :: 0.0 < p < q < 1.0 ==> ppf(p, ndof) < ppf(q, ndof)
    ensures var inner := InnerCuts(nbin, ndof, ppf);
            var bins := Bins(inner, chi2);
            bins[k] < nbin && Brackets(inner, chi2[k], bins[k]) &&
            NatSum(BinCount(bins, nbin)) == |chi2|
  {
    var inner := InnerCuts(nbin, ndof, ppf);
    InnerCutsIncreasing(nbin, ndof, ppf);
    BinOfBrackets(inner, chi2[k], BinOf(inner, chi2[k]));
  }
}
