/**
 * Fitting and choosing a Theta model (statsforecast/theta.py):
 * optimize_theta_target_fn runs the minimiser over the free parameters,
 * thetamodel writes the fitted values back and runs pegelsresid_theta once
 * more, and auto_theta validates its arguments, fits the candidate models
 * and keeps the first one with the smallest mse.  The seasonal test and
 * decomposition of auto_theta are not part of this model.
 */
module AutoTheta {
  import opened Floats
  import opened ThetaRecursion
  import opened ThetaCalc
  import opened NelderMead
  import opened ThetaParams

  // ---------------------------------------------------------------- optimize_theta_target_fn

  /** The settings optimize_theta_target_fn passes to the minimiser (theta.py:440-458 and the defaults at 311-325). */
  const InitStep: real := 0.05
  const ZeroPert: real := 0.0001
  const Classic: Coeffs := Coeffs(1.0, 2.0, 0.5, 0.5)
  const MaxIter: nat := 1000

  /**
   * optimize_theta_target_fn (theta.py:426-460): nothing to fit gives no
   * result; otherwise minimise the objective from the packed starting values
   * inside the bounds of the free parameters.  The point found lies in
   * those bounds, thetacalc is defined there, and the reported value is the
   * objective at that point.
   */
  method OptimizeThetaTargetFn(init: Init, y: seq<real>, m: ModelType) returns (res: Option<Result>)
    requires |y| >= 2 && FixedOk(init)
    ensures res.None? <==> NumFree(init.opt) == 0
    ensures res.Some? ==>
      var x := res.value.x;
      && |x| == NumFree(init.opt) && InBox(x, FreeLower(init.opt), FreeUpper(init.opt))
      && WellDefined(ConfigOf(y, m, Unpack(init.opt, init.par, x)))
      && res.value.fun == TargetFn(init.opt, init.par, y, m, x)
      && 1 <= res.value.nit <= MaxIter
  {
    var x0 := Pack(init.opt, init.par);
    if |x0| == 0 {
      return None;
    }
    var lower, upper := FreeLower(init.opt), FreeUpper(init.opt);
    FreeBoundsOk(init.opt);
    ObjectiveDomain(init, y, m);
    var r, stopped;
    ghost var values;
    r, stopped, values := Minimize(Objective, TargetArgs(init, y, m), x0, lower, upper,
                                   InitStep, ZeroPert, Classic, MaxIter, TOL_STD, true);
    BoxedParamsWellDefined(init, y, m, r.x);
    res := Some(r);
  }

  // ---------------------------------------------------------------- thetamodel

  /** What thetamodel returns: the fitted model's mse, parameters, optimiser result and tables. */
  datatype Fit = Fit(m: ModelType, mse: Ext, par: Par, fred: Option<Result>,
                     amse: seq<real>, e: seq<Ext>, states: seq<Row>)

  /** The user-given alpha and theta do not divide by zero (theta only matters for OTM and DOTM). */
  predicate GivenOk(alpha: Param, theta: Param, m: ModelType)
  {
    (alpha.Given? ==> alpha.value != 0.0) && ((m == OTM || m == DOTM) && theta.Given? ==> theta.value != 0.0)
  }

  /**
   * fit is what thetamodel (theta.py:467-521) returns for model m: the
   * starting values are initparamtheta's, the parameters are fitted from
   * them (Started), and the tables are pegelsresid_theta's on the result
   * (Resid).
   */
  ghost predicate ModelFit(y: seq<real>, m: ModelType, s0: Param, alpha: Param, theta: Param, nmse: nat, fit: Fit)
  {
    Started(y, m, s0, alpha, theta, fit) && Resid(y, m, nmse, fit)
  }

  /**
   * The fitted parameters (theta.py:476-505): when some starting values are
   * free, the optimiser's point lies in their bounds, its value is the
   * objective there, it took at most MaxIter iterations, and the fitted
   * alpha and theta are written back while the level keeps its starting
   * value; otherwise the starting values are kept.
   */
  ghost predicate Started(y: seq<real>, m: ModelType, s0: Param, alpha: Param, theta: Param, fit: Fit)
  {
    && |y| >= 2
    && var init := InitParamTheta(s0, alpha, theta, y, m);
    && (fit.fred.None? <==> NumFree(init.opt) == 0)
    && (fit.fred.None? ==> fit.par == init.par)
    && (fit.fred.Some? ==>
          var x := fit.fred.value.x;
          && |x| == NumFree(init.opt) && InBox(x, FreeLower(init.opt), FreeUpper(init.opt))
          && WellDefined(ConfigOf(y, m, Unpack(init.opt, init.par, x)))
          && fit.fred.value.fun == TargetFn(init.opt, init.par, y, m, x)
          && 1 <= fit.fred.value.nit <= MaxIter
          && fit.par == Unpack(init.opt, init.par, x).(level := init.par.level))
  }

  /**
   * The final pass (theta.py:507-521): fit is for model m, and its mse,
   * residuals, amse and state rows are pegelsresid_theta's on its parameters.
   */
  ghost predicate Resid(y: seq<real>, m: ModelType, nmse: nat, fit: Fit)
  {
    && fit.m == m
    && WellDefined(ConfigOf(y, m, fit.par))
    && var c := ConfigOf(y, m, fit.par);
    && fit.mse == PegelsMse(CalcSpec(c))
    && |fit.states| == |fit.e| == |y| && |fit.amse| == nmse
    && (forall k :: 0 <= k < |y| ==> fit.states[k] == if k < Stop(c) then TrueRow(c, k) else ZeroRow)
    && (forall k :: 0 <= k < |y| ==> fit.e[k] == if k < Stop(c) then Fin(Residual(c, k)) else NaN)
    && (forall j :: 0 <= j < nmse ==> fit.amse[j] == AmseSpec(c, j, Stop(c)))
  }

  /**
   * thetamodel (theta.py:467-521): choose the starting values, fit the free
   * ones, write the fitted alpha and theta back (the level keeps its
   * starting value) and run pegelsresid_theta on the result.
   */
  method ThetaModel(y: seq<real>, m: ModelType, s0: Param, alpha: Param, theta: Param, nmse: nat)
    returns (fit: Fit)
    requires |y| >= 2 && nmse >= 1 && GivenOk(alpha, theta, m)
    ensures ModelFit(y, m, s0, alpha, theta, nmse, fit)
  {
    var init := InitParamTheta(s0, alpha, theta, y, m);
    var fred := OptimizeThetaTargetFn(init, y, m);
    var par := init.par;
    if fred.Some? {
      par := WriteBack(init.opt, init.par, fred.value.x);
      WriteBackIsUnpack(init.opt, init.par, fred.value.x);
    }
    fit := FinalPass(y, m, par, fred, nmse);
  }

  /** thetamodel's last step (theta.py:507-521): pegelsresid_theta on the fitted parameters. */
  method FinalPass(y: seq<real>, m: ModelType, par: Par, fred: Option<Result>, nmse: nat) returns (fit: Fit)
    requires |y| >= 2 && nmse >= 1 && WellDefined(ConfigOf(y, m, par))
    ensures fit.par == par && fit.fred == fred
    ensures Resid(y, m, nmse, fit)
  {
    var amse, e, states, mse := PegelsResid(y, m, par.level, par.alpha, par.theta, nmse);
    fit := Fit(m, mse, par, fred, amse[..], e[..], states[..]);
  }

  // ---------------------------------------------------------------- validation

  /** Why auto_theta raises. */
  datatype Failure = NmseOutOfRange | EmptySeries | OneObservation | InvalidModel | TinyDataset | NoModelFitted

  /**
   * The checks auto_theta makes before fitting, in its order: nmse in
   * [1, 30] (theta.py:606-607); a non-empty series, which is_constant
   * needs (theta.py:609); more than one observation, because a single one
   * is constant and its constant-series fit divides by n^2 - 1 = 0
   * (theta.py:609-618, 46); a known model name (theta.py:645-646); more
   * than three observations (theta.py:649-652).
   */
  function Validate(nmse: int, model: Option<string>, n: nat): Option<Failure>
  {
    if nmse < 1 || nmse > 30 then Some(NmseOutOfRange)
    else if n == 0 then Some(EmptySeries)
    else if n == 1 then Some(OneObservation)
    else if model.Some? && SwitchTheta(model.value).None? then Some(InvalidModel)
    else if n <= 3 then Some(TinyDataset)
    else None
  }

  /**
   * The arguments pass exactly when all conditions hold, and each failure
   * is reported only once every earlier check has passed.
   */
  lemma ValidateOrder(nmse: int, model: Option<string>, n: nat)
    ensures Validate(nmse, model, n).None? <==>
      1 <= nmse <= 30 && n > 3 && (model.Some? ==> SwitchTheta(model.value).Some?)
    ensures Validate(nmse, model, n) == Some(NmseOutOfRange) <==> nmse < 1 || nmse > 30
    ensures Validate(nmse, model, n) == Some(EmptySeries) <==> 1 <= nmse <= 30 && n == 0
    ensures Validate(nmse, model, n) == Some(OneObservation) <==> 1 <= nmse <= 30 && n == 1
    ensures Validate(nmse, model, n) == Some(InvalidModel) <==>
      1 <= nmse <= 30 && n >= 2 && model.Some? && SwitchTheta(model.value).None?
    ensures Validate(nmse, model, n) == Some(TinyDataset) <==>
      1 <= nmse <= 30 && 2 <= n <= 3 && (model.Some? ==> SwitchTheta(model.value).Some?)
    ensures Validate(nmse, model, n) != Some(NoModelFitted)
  {
  }

  /**
   * The constant-series fit (theta.py:609-618) is STM with alpha 0.5 and
   * theta 2.0: whatever its starting level, it is defined exactly when the
   * series has at least two observations.
   */
  lemma ConstantFitNeedsTwo(y: seq<real>, s0: real)
    requires |y| >= 1
    ensures WellDefined(Config(y, STM, s0, 0.5, 2.0)) <==> |y| >= 2
  {
  }

  /** The model type named by the `model` argument, if any. */
  function Wanted(model: Option<string>): Option<ModelType>
  {
    if model.None? then None else SwitchTheta(model.value)
  }

  /** The models auto_theta tries: all four in the order STM, OTM, DSTM, DOTM, or the one asked for. */
  function Candidates(model: Option<ModelType>): (ms: seq<ModelType>)
    ensures 1 <= |ms| <= 4
  {
    if model.None? then [STM, OTM, DSTM, DOTM] else [model.value]
  }

  // ---------------------------------------------------------------- selection

  /**
   * The selection loop of auto_theta (theta.py:654-675) over the candidates'
   * mses: skip NaN, keep a value strictly below the best so far, and fail
   * when the best is still infinite.  The winner is a finite smallest
   * non-NaN value, strictly below every earlier non-NaN value; there is none
   * exactly when some value is negative infinity or no value is finite.
   */
  method SelectModel(mses: seq<Ext>) returns (r: Option<nat>)
    ensures r.Some? ==>
      && r.value < |mses| && mses[r.value].Fin?
      && (forall k :: 0 <= k < |mses| && !mses[k].NaN? ==> Le(mses[r.value], mses[k]))
      && (forall k :: 0 <= k < r.value && !mses[k].NaN? ==> Lt(mses[r.value], mses[k]))
    ensures r.None? <==> (exists k :: 0 <= k < |mses| && mses[k].NegInf?) || (forall k :: 0 <= k < |mses| ==> !mses[k].Fin?)
  {
    var best := PosInf;
    var chosen: Option<nat> := None;
    var i := 0;
    while i < |mses|
      invariant 0 <= i <= |mses|
      invariant !best.NaN?
      invariant chosen.None? <==> best == PosInf
      invariant chosen.Some? ==> chosen.value < i && best == mses[chosen.value]
      invariant chosen.Some? ==> forall k :: 0 <= k < chosen.value && !mses[k].NaN? ==> Lt(best, mses[k])
      invariant forall k :: 0 <= k < i && !mses[k].NaN? ==> Le(best, mses[k])
      invariant best.NegInf? <==> exists k :: 0 <= k < i && mses[k].NegInf?
      invariant best.Fin? ==> exists k :: 0 <= k < i && mses[k].Fin?
      invariant (exists k :: 0 <= k < i && mses[k].Fin?) ==> !best.PosInf?
    {
      var fitIc := mses[i];
      if !fitIc.NaN? && Lt(fitIc, best) {
        chosen := Some(i);
        best := fitIc;
      }
      i := i + 1;
    }
    if IsInf(best) {
      r := None;
    } else {
      r := chosen;
    }
  }

  /**
   * The mses thetamodel reports are NaN or non-negative finite values; among
   * such values the selection fails exactly when every candidate failed.
   */
  lemma SelectionFailsIffAllNaN(mses: seq<Ext>)
    requires forall k :: 0 <= k < |mses| ==> mses[k].NaN? || (mses[k].Fin? && mses[k].v >= 0.0)
    ensures ((exists k :: 0 <= k < |mses| && mses[k].NegInf?) || (forall k :: 0 <= k < |mses| ==> !mses[k].Fin?))
      <==> forall k :: 0 <= k < |mses| ==> mses[k].NaN?
  {
  }

  // ---------------------------------------------------------------- auto_theta

  /** The outcome of auto_theta: a failure, or the chosen fit. */
  datatype Outcome = Failed(failure: Failure) | Fitted(fit: Fit)

  /** A fit whose mse is pegelsresid's on its own parameters: NaN or a non-negative number. */
  predicate Scored(y: seq<real>, fit: Fit)
  {
    && WellDefined(ConfigOf(y, fit.m, fit.par))
    && fit.mse == PegelsMse(CalcSpec(ConfigOf(y, fit.m, fit.par)))
    && (fit.mse.NaN? || (fit.mse.Fin? && fit.mse.v >= 0.0))
  }

  /** The fitting loop of auto_theta (theta.py:658-664): thetamodel on each candidate in turn. */
  method FitCandidates(y: seq<real>, ms: seq<ModelType>, s0: Param, alpha: Param, theta: Param, nmse: nat)
    returns (fits: seq<Fit>)
    requires |y| >= 2 && nmse >= 1
    requires forall k :: 0 <= k < |ms| ==> GivenOk(alpha, theta, ms[k])
    ensures |fits| == |ms|
    ensures forall k :: 0 <= k < |ms| ==> ModelFit(y, ms[k], s0, alpha, theta, nmse, fits[k]) && Scored(y, fits[k])
  {
    fits := [];
    var i := 0;
    while i < |ms|
      invariant 0 <= i <= |ms| && |fits| == i
      invariant forall k :: 0 <= k < i ==> ModelFit(y, ms[k], s0, alpha, theta, nmse, fits[k]) && Scored(y, fits[k])
    {
      var fit := ThetaModel(y, ms[i], s0, alpha, theta, nmse);
      PegelsMseNaNIffAborted(ConfigOf(y, ms[i], fit.par));
      assert Scored(y, fit);
      fits := fits + [fit];
      i := i + 1;
    }
  }

  /**
   * fits[w] is the fit the selection keeps: its mse is finite, no larger
   * than any non-NaN mse, and smaller than every earlier non-NaN one.
   */
  predicate FirstBest(fits: seq<Fit>, w: int)
  {
    && 0 <= w < |fits| && fits[w].mse.Fin?
    && (forall k :: 0 <= k < |fits| && !fits[k].mse.NaN? ==> Le(fits[w].mse, fits[k].mse))
    && (forall k :: 0 <= k < w && !fits[k].mse.NaN? ==> Lt(fits[w].mse, fits[k].mse))
  }

  /**
   * auto_theta without the seasonal adjustment (theta.py:588-685): validate
   * the arguments, fit every candidate in order and keep the first one whose
   * mse is a smallest non-NaN value.  fits are the candidates' fits, in
   * order; nothing is fitted when the arguments are rejected, and
   * NoModelFitted is reported exactly when every fit's mse is NaN.
   */
  method AutoThetaFit(y: seq<real>, model: Option<string>, s0: Param, alpha: Param, theta: Param, nmse: int)
    returns (out: Outcome, ghost fits: seq<Fit>)
    requires Validate(nmse, model, |y|).None? ==>
      forall k :: 0 <= k < |Candidates(Wanted(model))| ==> GivenOk(alpha, theta, Candidates(Wanted(model))[k])
    ensures Validate(nmse, model, |y|).Some? ==> out == Failed(Validate(nmse, model, |y|).value)
    ensures Validate(nmse, model, |y|).Some? ==> fits == []
    ensures out.Failed? ==> out.failure == NoModelFitted || Validate(nmse, model, |y|) == Some(out.failure)
    ensures Validate(nmse, model, |y|).None? ==>
      && |fits| == |Candidates(Wanted(model))|
      && (forall k :: 0 <= k < |fits| ==>
            ModelFit(y, Candidates(Wanted(model))[k], s0, alpha, theta, nmse, fits[k]) && Scored(y, fits[k]))
      && (out == Failed(NoModelFitted) <==> forall k :: 0 <= k < |fits| ==> fits[k].mse.NaN?)
      && (out.Failed? ==> out.failure == NoModelFitted)
    ensures out.Fitted? ==> Validate(nmse, model, |y|).None? && out.fit.mse.Fin? && out.fit.mse.v >= 0.0
    ensures out.Fitted? ==> exists w :: FirstBest(fits, w) && out.fit == fits[w]
  {
    var failure := Validate(nmse, model, |y|);
    if failure.Some? {
      return Failed(failure.value), [];
    }
    ValidateOrder(nmse, model, |y|);
    var fitted := FitCandidates(y, Candidates(Wanted(model)), s0, alpha, theta, nmse as nat);
    fits := fitted;
    out := SelectFit(fitted);
  }

  /**
   * The selection at the end of auto_theta (theta.py:664-673) over fits
   * whose mses are NaN or non-negative: the kept fit is the first best one,
   * and none is kept exactly when every mse is NaN.
   */
  method SelectFit(fits: seq<Fit>) returns (out: Outcome)
    requires forall k :: 0 <= k < |fits| ==> fits[k].mse.NaN? || (fits[k].mse.Fin? && fits[k].mse.v >= 0.0)
    ensures out.Failed? ==> out.failure == NoModelFitted
    ensures out.Failed? <==> forall k :: 0 <= k < |fits| ==> fits[k].mse.NaN?
    ensures out.Fitted? ==> exists w :: FirstBest(fits, w) && out.fit == fits[w]
  {
    var mses := seq(|fits|, k requires 0 <= k < |fits| => fits[k].mse);
    assert forall k :: 0 <= k < |fits| ==> fits[k].mse == mses[k];
    SelectionFailsIffAllNaN(mses);
    var chosen := SelectModel(mses);
    if chosen.None? {
      return Failed(NoModelFitted);
    }
    var w := chosen.value;
    assert FirstBest(fits, w);
    out := Fitted(fits[w]);
  }

  // ---------------------------------------------------------------- interval levels

  /**
   * The quantiles forecast_theta reads for a level lv (theta.py:573-574):
   * `min_q = (100 - lv) / 200` and `max_q = min_q + lv / 100`.
   */
  function QuantileLevels(lv: real): (q: (real, real))
  {
    var lo := (100.0 - lv) / 200.0;
    (lo, lo + lv / 100.0)
  }

  /**
   * The two quantiles are lv percent apart and symmetric about the median;
   * for a level in [0, 100] they lie in [0, 1], the lower one at most 1/2.
   */
  lemma QuantileLevelsCentred(lv: real)
    ensures QuantileLevels(lv).1 - QuantileLevels(lv).0 == lv / 100.0
    ensures QuantileLevels(lv).0 + QuantileLevels(lv).1 == 1.0
    ensures 0.0 <= lv <= 100.0 ==> 0.0 <= QuantileLevels(lv).0 <= 0.5 <= QuantileLevels(lv).1 <= 1.0
  {
  }
}
