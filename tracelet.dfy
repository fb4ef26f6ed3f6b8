/** The fall-segment fitter of tracelet.py: the three least-squares objectives over the decay
    models, and `optimize`, which records the optimizer's answer, the time constant and the
    coefficient of determination on the tracelet. The optimizer itself
    (`scipy.optimize.minimize`) is foreign: its result record is an input. */
module TraceletFit {
  import opened Wrappers
  import opened SeqMath
  import opened Models

  /** A numpy float: finite, or the infinity / NaN that a division by zero produces. */
  datatype Num = Finite(value: real) | NonFinite

  /** numpy division, which yields a non-finite value instead of raising on a zero divisor. */
  function NumpyDivide(a: real, b: real): (q: Num)
    ensures q.Finite? <==> b != 0.0
    ensures q.Finite? ==> q.value * b == a
  {
    if b == 0.0 then NonFinite else Finite(a / b)
  }

  /** The fields of scipy's `OptimizeResult` that `optimize` reads. */
  datatype MinimizeResult = MinimizeResult(success: bool, nit: int, x: seq<real>, fun: real)

  /** The assertion or indexing failure that stops `optimize`. */
  datatype FitError =
    | UnknownModel       // the model number is not 0, 1 or 2
    | EmptySegment       // y[0] / y[-1] of an empty segment
    | TimeAxisTooShort   // fewer predictions (one per time point) than samples

  /** The iteration cap given to Nelder-Mead for the two-parameter fit. */
  const NelderMeadMaxIter := 500

  /** The number of parameters each model fits: k alone, or k and the plateau. */
  function ParameterCount(model: int): nat
  {
    if model == 2 then 2 else 1
  }

  /** The objectives can be evaluated: they read the first and last sample and one
      prediction per time point for every sample. */
  predicate Evaluable(x: seq<real>, y: seq<real>)
  {
    |y| > 0 && |x| >= |y|
  }

  function SquaredResiduals(y: seq<real>, yHat: seq<real>): (r: seq<real>)
    requires |yHat| >= |y|
    ensures |r| == |y|
  {
    seq(|y|, i requires 0 <= i < |y| => (y[i] - yHat[i]) * (y[i] - yHat[i]))
  }

  lemma SquareSign(d: real)
    ensures d * d >= 0.0
    ensures d != 0.0 ==> d * d > 0.0
  {
    if d < 0.0 {
      assert (-d) * (-d) > 0.0;
      assert d * d == (-d) * (-d);
    } else if d > 0.0 {
      assert d * d > 0.0;
    }
  }

  lemma SquaredResidualsSign(y: seq<real>, yHat: seq<real>)
    requires |yHat| >= |y|
    ensures forall i :: 0 <= i < |y| ==>
              SquaredResiduals(y, yHat)[i] >= 0.0
              && (SquaredResiduals(y, yHat)[i] == 0.0 <==> y[i] == yHat[i])
  {
    forall i | 0 <= i < |y| {
      SquareSign(y[i] - yHat[i]);
    }
  }

  /** `sum([(y[i] - y_hat[i]) ** 2 for i in range(len(y))])` */
  function SumOfSquares(y: seq<real>, yHat: seq<real>): (ss: real)
    requires |yHat| >= |y|
    ensures ss >= 0.0
  {
    SquaredResidualsSign(y, yHat);
    SumNonNegative(SquaredResiduals(y, yHat));
    Sum(SquaredResiduals(y, yHat))
  }

  /** A sum of squared residuals vanishes exactly when every sample is predicted exactly. */
  lemma SumOfSquaresZeroIff(y: seq<real>, yHat: seq<real>)
    requires |yHat| >= |y|
    ensures SumOfSquares(y, yHat) == 0.0 <==> forall i :: 0 <= i < |y| ==> y[i] == yHat[i]
  {
    SquaredResidualsSign(y, yHat);
    SumZeroIff(SquaredResiduals(y, yHat));
  }

  /** The zero-order prediction at every time point, measured from the first one. */
  function ZeroOrderPrediction(x: seq<real>, y: seq<real>, k: real): (yHat: seq<real>)
    requires |y| > 0
    ensures |yHat| == |x|
  {
    seq(|x|, i requires 0 <= i < |x| => ModelZero(x[i] - x[0], k, y[0], y[|y| - 1]))
  }

  /** The first-order prediction from `y0` towards `y1` at every time point. */
  function FirstOrderPrediction(exp: real -> real, x: seq<real>, y0: real, k: real, y1: real): (yHat: seq<real>)
    ensures |yHat| == |x|
  {
    seq(|x|, i requires 0 <= i < |x| => ModelFirst(exp, x[i] - x[0], k, y0, y1))
  }

  /** `objective_function_o0p1`: zero-order model, rate only. */
  function ObjectiveO0P1(x: seq<real>, y: seq<real>, k: real): (ss: real)
    requires Evaluable(x, y)
    ensures ss >= 0.0
  {
    SumOfSquares(y, ZeroOrderPrediction(x, y, k))
  }

  /** `objective_function_o1p1`: first-order model, rate only, plateau fixed at the last sample. */
  function ObjectiveO1P1(exp: real -> real, x: seq<real>, y: seq<real>, k: real): (ss: real)
    requires Evaluable(x, y)
    ensures ss >= 0.0
  {
    SumOfSquares(y, FirstOrderPrediction(exp, x, y[0], k, y[|y| - 1]))
  }

  /** `objective_function_o1p2`: first-order model, rate `para[0]` and plateau `para[1]`. */
  function ObjectiveO1P2(exp: real -> real, x: seq<real>, y: seq<real>, para: seq<real>): (ss: real)
    requires Evaluable(x, y) && |para| >= 2
    ensures ss >= 0.0
  {
    SumOfSquares(y, FirstOrderPrediction(exp, x, y[0], para[0], para[1]))
  }

  /** The objective `optimize` hands to the optimizer for each model. */
  function Objective(exp: real -> real, model: int, x: seq<real>, y: seq<real>, para: seq<real>): (ss: real)
    requires 0 <= model <= 2 && Evaluable(x, y) && |para| == ParameterCount(model)
    ensures ss >= 0.0
  {
    if model == 0 then ObjectiveO0P1(x, y, para[0])
    else if model == 1 then ObjectiveO1P1(exp, x, y, para[0])
    else ObjectiveO1P2(exp, x, y, para)
  }

  /** The one-parameter first-order fit is the two-parameter fit with the plateau pinned to
      the last sample. */
  lemma ObjectiveO1P1PinsPlateau(exp: real -> real, x: seq<real>, y: seq<real>, k: real)
    requires Evaluable(x, y)
    ensures ObjectiveO1P1(exp, x, y, k) == ObjectiveO1P2(exp, x, y, [k, y[|y| - 1]])
  {
  }

  /** Every model starts at the first sample, so the first residual of every objective is
      zero whatever the parameters. */
  lemma FirstResidualZero(exp: real -> real, x: seq<real>, y: seq<real>, k: real, y1: real)
    requires Evaluable(x, y) && exp(0.0) == 1.0
    ensures SquaredResiduals(y, ZeroOrderPrediction(x, y, k))[0] == 0.0
    ensures SquaredResiduals(y, FirstOrderPrediction(exp, x, y[0], k, y1))[0] == 0.0
  {
    assert x[0] - x[0] == 0.0;
    ModelZeroStartsAtY0(0.0, k, y[0], y[|y| - 1], y1);
    ModelFirstStartsAtY0(exp, 0.0, k, y[0], y1);
  }

  /** The zero-order objective vanishes exactly when the samples lie on the line. */
  lemma ObjectiveO0P1ZeroIff(x: seq<real>, y: seq<real>, k: real)
    requires Evaluable(x, y)
    ensures ObjectiveO0P1(x, y, k) == 0.0 <==>
            forall i :: 0 <= i < |y| ==> y[i] == ModelZero(x[i] - x[0], k, y[0], y[|y| - 1])
  {
    SumOfSquaresZeroIff(y, ZeroOrderPrediction(x, y, k));
  }

  /** The two-parameter objective vanishes exactly when the samples lie on the first-order
      curve with that rate and plateau. */
  lemma ObjectiveO1P2ZeroIff(exp: real -> real, x: seq<real>, y: seq<real>, k: real, y1: real)
    requires Evaluable(x, y)
    ensures ObjectiveO1P2(exp, x, y, [k, y1]) == 0.0 <==>
            forall i :: 0 <= i < |y| ==> y[i] == ModelFirst(exp, x[i] - x[0], k, y[0], y1)
  {
    SumOfSquaresZeroIff(y, FirstOrderPrediction(exp, x, y[0], k, y1));
  }

  /** Samples that follow a first-order curve exactly make its rate and plateau a global
      minimiser of the two-parameter objective. */
  lemma ExactCurveMinimises(exp: real -> real, x: seq<real>, y: seq<real>, k: real, y1: real, para: seq<real>)
    requires Evaluable(x, y) && |para| >= 2
    requires forall i :: 0 <= i < |y| ==> y[i] == ModelFirst(exp, x[i] - x[0], k, y[0], y1)
    ensures ObjectiveO1P2(exp, x, y, [k, y1]) == 0.0
    ensures ObjectiveO1P2(exp, x, y, para) >= ObjectiveO1P2(exp, x, y, [k, y1])
  {
    ObjectiveO1P2ZeroIff(exp, x, y, k, y1);
  }

  /** `np.mean` of a non-empty segment. */
  function Mean(y: seq<real>): real
    requires |y| > 0
  {
    Sum(y) / |y| as real
  }

  /** The total sum of squares `sum((y - np.mean(y)) ** 2)`. */
  function TotalSumOfSquares(y: seq<real>): (tss: real)
    requires |y| > 0
    ensures tss >= 0.0
  {
    SumOfSquares(y, seq(|y|, i => Mean(y)))
  }

  /** The total sum of squares vanishes exactly when the segment is flat. */
  lemma TotalSumOfSquaresZeroIff(y: seq<real>)
    requires |y| > 0
    ensures TotalSumOfSquares(y) == 0.0 <==> forall i :: 0 <= i < |y| ==> y[i] == y[0]
  {
    var mean := seq(|y|, i => Mean(y));
    SumOfSquaresZeroIff(y, mean);
    if forall i :: 0 <= i < |y| ==> y[i] == y[0] {
      SumConstant(y, y[0]);
      assert Mean(y) == y[0];
      assert forall i :: 0 <= i < |y| ==> y[i] == mean[i];
    }
  }

  /** `1. - (res.fun / tss)`, non-finite for a flat segment. */
  function Determination(fun: real, tss: real): Num
  {
    if tss == 0.0 then NonFinite else Finite(1.0 - fun / tss)
  }

  /** With a non-negative residual sum and a segment that is not flat, R2 is finite, at most
      one, exactly one for a perfect fit, and non-negative exactly when the fit does no worse
      than the mean. */
  lemma DeterminationBounds(fun: real, tss: real)
    requires fun >= 0.0 && tss > 0.0
    ensures Determination(fun, tss).Finite?
    ensures Determination(fun, tss).value <= 1.0
    ensures Determination(fun, tss).value == 1.0 <==> fun == 0.0
    ensures Determination(fun, tss).value >= 0.0 <==> fun <= tss
  {
    var q := fun / tss;
    assert q * tss == fun;
    if q > 1.0 {
      assert (q - 1.0) * tss > 0.0;
    }
    if q < 1.0 {
      assert (1.0 - q) * tss > 0.0;
    }
  }

  /** R2 of any fit of a non-flat segment, taking `fun` to be the objective at the returned
      parameters: at most one, and exactly one when the fitted curve passes through every
      sample. */
  lemma FitDetermination(exp: real -> real, model: int, x: seq<real>, y: seq<real>, para: seq<real>)
    requires 0 <= model <= 2 && Evaluable(x, y) && |para| == ParameterCount(model)
    requires exists i :: 0 <= i < |y| && y[i] != y[0]
    ensures Determination(Objective(exp, model, x, y, para), TotalSumOfSquares(y)).Finite?
    ensures Determination(Objective(exp, model, x, y, para), TotalSumOfSquares(y)).value <= 1.0
    ensures Determination(Objective(exp, model, x, y, para), TotalSumOfSquares(y)).value == 1.0 <==>
            Objective(exp, model, x, y, para) == 0.0
  {
    TotalSumOfSquaresZeroIff(y);
    DeterminationBounds(Objective(exp, model, x, y, para), TotalSumOfSquares(y));
  }

  /** Whether `optimize` takes the optimizer's answer: on success, and for the two-parameter
      fit also when Nelder-Mead stopped at its iteration cap. */
  predicate Accepted(model: int, res: MinimizeResult)
  {
    if model == 2 then res.success || res.nit == NelderMeadMaxIter else res.success
  }

  class Tracelet {
    const x: seq<real>
    const y: seq<real>
    const ySm: seq<real>
    var optK: real
    var optY1: real
    var optTau: Num
    var r2: Num
    var optSuccess: bool

    /** A fall segment: time points, ratio samples and smoothed samples, with the fit fields at
        their defaults (k = 1, plateau 0.5, tau = 1, R2 = 0, no success). */
    constructor (tm: seq<real>, dt: seq<real>, sm: seq<real>)
      ensures x == tm && y == dt && ySm == sm
      ensures optK == 1.0 && optY1 == 0.5 && optTau == Finite(1.0) && r2 == Finite(0.0)
      ensures !optSuccess
    {
      x := tm;
      y := dt;
      ySm := sm;
      optK := 1.0;
      optY1 := 0.5;
      optTau := Finite(1.0);
      r2 := Finite(0.0);
      optSuccess := false;
    }

    /** `optimize(model)` given the optimizer's result `res` for that model's objective. An
        accepted result sets the success flag and the fitted rate (and plateau: the last
        sample for model 1, the fitted one for model 2); a rejected one leaves all three as
        they were. Tau and R2 are recomputed either way. */
    method Optimize(model: int, res: MinimizeResult) returns (r: Result<(), FitError>)
      requires 0 <= model <= 2 ==> |res.x| == ParameterCount(model)
      modifies this`optK, this`optY1, this`optTau, this`r2, this`optSuccess
      ensures !(0 <= model <= 2) ==> r == Err(UnknownModel)
      ensures 0 <= model <= 2 && |y| == 0 ==> r == Err(EmptySegment)
      ensures 0 <= model <= 2 && 0 < |y| && |x| < |y| ==> r == Err(TimeAxisTooShort)
      ensures r.Err? ==> unchanged(this)
      ensures 0 <= model <= 2 && Evaluable(x, y) ==>
                r == Ok(())
                && optSuccess == (old(optSuccess) || Accepted(model, res))
                && optK == (if Accepted(model, res) then res.x[0] else old(optK))
                && optY1 == (if !Accepted(model, res) || model == 0 then old(optY1)
                             else if model == 1 then y[|y| - 1]
                             else res.x[1])
                && optTau == NumpyDivide(1.0, optK)
                && r2 == Determination(res.fun, TotalSumOfSquares(y))
    {
      if !(0 <= model <= 2) {
        return Err(UnknownModel);
      }
      if |y| == 0 {
        return Err(EmptySegment);
      }
      if |x| < |y| {
        return Err(TimeAxisTooShort);
      }
      if Accepted(model, res) {
        optSuccess := true;
        optK := res.x[0];
        if model == 1 {
          optY1 := y[|y| - 1];
        } else if model == 2 {
          optY1 := res.x[1];
        }
      }
      optTau := NumpyDivide(1.0, optK);
      r2 := Determination(res.fun, TotalSumOfSquares(y));
      r := Ok(());
    }
  }
}
