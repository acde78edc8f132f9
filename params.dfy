/**
 * Parameter bookkeeping of statsforecast/theta.py: the defaults and
 * optimise flags of initparamtheta, the model-name table of switch_theta,
 * is_constant, the packing of the free parameters into the optimiser's
 * vector and back (optimize_theta_target_fn, theta_target_fn, thetamodel),
 * the score theta_target_fn hands to the optimiser, and the optimiser's
 * bounds.
 */
module ThetaParams {
  import opened Floats
  import opened ThetaRecursion
  import opened ThetaCalc
  import opened NelderMead

  datatype Option<T> = None | Some(value: T)

  /** A parameter argument: NaN (not given, so to be chosen) or a value. */
  datatype Param = Missing | Given(value: real)

  /** The three parameters, in the order the optimiser's vector lists them. */
  datatype Par = Par(level: real, alpha: real, theta: real)

  /** Which parameters the optimiser fits (`optimize_initial_smoothed`, `optimize_alpha`, `optimize_theta`). */
  datatype Flags = Flags(level: bool, alpha: bool, theta: bool)

  /** What initparamtheta returns: the starting values and the flags. */
  datatype Init = Init(par: Par, opt: Flags)

  // ---------------------------------------------------------------- initparamtheta

  /** A missing parameter takes the default and is flagged; a given one is kept and not flagged. */
  function Choose(p: Param, default: real): real
  {
    match p
    case Missing => default
    case Given(v) => v
  }

  /**
   * initparamtheta (theta.py:179-218): the level defaults to y[0] / 2, alpha
   * to 0.5; the simple models fix theta at 2.0 whatever was passed, the
   * optimised ones default it to 2.0.
   */
  function InitParamTheta(s0: Param, alpha: Param, theta: Param, y: seq<real>, m: ModelType): Init
    requires s0.Missing? ==> |y| >= 1
  {
    var level := if s0.Missing? then y[0] / 2.0 else s0.value;
    var optTheta := m == OTM || m == DOTM;
    Init(Par(level, Choose(alpha, 0.5), if optTheta then Choose(theta, 2.0) else 2.0),
         Flags(s0.Missing?, alpha.Missing?, optTheta && theta.Missing?))
  }

  /**
   * A parameter is flagged exactly when it was not given (theta only for
   * OTM and DOTM); a flagged one starts at its default and an unflagged one
   * keeps the value passed, except theta of STM and DSTM, which is 2.0.
   */
  lemma InitParamDefaults(s0: Param, alpha: Param, theta: Param, y: seq<real>, m: ModelType)
    requires s0.Missing? ==> |y| >= 1
    ensures var r := InitParamTheta(s0, alpha, theta, y, m);
      && (r.opt.level <==> s0.Missing?)
      && (r.opt.alpha <==> alpha.Missing?)
      && (r.opt.theta <==> (m == OTM || m == DOTM) && theta.Missing?)
      && r.par.level == (if s0.Missing? then y[0] / 2.0 else s0.value)
      && r.par.alpha == (if alpha.Missing? then 0.5 else alpha.value)
      && ((m == STM || m == DSTM) ==> r.par.theta == 2.0)
      && ((m == OTM || m == DOTM) ==> r.par.theta == if theta.Missing? then 2.0 else theta.value)
  {
  }

  /** Passing back the values initparamtheta chose gives the same values with nothing left to fit. */
  lemma InitParamIdempotent(s0: Param, alpha: Param, theta: Param, y: seq<real>, m: ModelType)
    requires s0.Missing? ==> |y| >= 1
    ensures var r := InitParamTheta(s0, alpha, theta, y, m);
      InitParamTheta(Given(r.par.level), Given(r.par.alpha), Given(r.par.theta), y, m)
        == Init(r.par, Flags(false, false, false))
  {
  }

  // ---------------------------------------------------------------- switch_theta

  /** The model's name as the string API spells it. */
  function Name(m: ModelType): string
  {
    match m
    case STM => "STM"
    case OTM => "OTM"
    case DSTM => "DSTM"
    case DOTM => "DOTM"
  }

  /** switch_theta's integer code: STM 0, OTM 1, DSTM 2, DOTM 3. */
  function Code(m: ModelType): nat
  {
    match m
    case STM => 0
    case OTM => 1
    case DSTM => 2
    case DOTM => 3
  }

  /** switch_theta (theta.py:222-223): the model a name denotes; any other name has none (a KeyError). */
  function SwitchTheta(name: string): Option<ModelType>
  {
    if name == "STM" then Some(STM)
    else if name == "OTM" then Some(OTM)
    else if name == "DSTM" then Some(DSTM)
    else if name == "DOTM" then Some(DOTM)
    else None
  }

  /** Every model is found under its name, and a name that is found is that model's name. */
  lemma SwitchThetaNames(name: string, m: ModelType)
    ensures SwitchTheta(Name(m)) == Some(m)
    ensures SwitchTheta(name) == Some(m) ==> name == Name(m)
  {
  }

  /** The codes are 0..3, distinct, and the dynamic models are the codes 2 and 3. */
  lemma CodeTable(m: ModelType, m': ModelType)
    ensures Code(m) <= 3
    ensures Code(m) == Code(m') ==> m == m'
    ensures IsDynamic(m) <==> Code(m) >= 2
  {
  }

  // ---------------------------------------------------------------- is_constant

  /** is_constant (theta.py:463-464): every value equals the first one. */
  predicate IsConstant(y: seq<real>)
    requires |y| >= 1
  {
    forall k :: 0 <= k < |y| ==> y[0] == y[k]
  }

  /**
   * A series is constant exactly when some value is all of it, and then the
   * trend initstate fits has slope 0 and intercept that value.
   */
  lemma IsConstantMeansFlat(y: seq<real>, c: real)
    requires |y| >= 1
    ensures (forall k :: 0 <= k < |y| ==> y[k] == c) ==> IsConstant(y) && y[0] == c
    ensures IsConstant(y) ==> forall k :: 0 <= k < |y| ==> y[k] == y[0]
    ensures |y| >= 2 && IsConstant(y) ==> TrendSlope(y) == 0.0 && TrendIntercept(y) == y[0]
  {
    if |y| >= 2 && IsConstant(y) {
      ConstantHasNoTrend(y, y[0]);
    }
  }

  // ---------------------------------------------------------------- packing

  function Bit(b: bool): nat { if b then 1 else 0 }

  /** The length of the optimiser's vector: one slot per flagged parameter. */
  function NumFree(opt: Flags): (k: nat)
    ensures k <= 3
  {
    Bit(opt.level) + Bit(opt.alpha) + Bit(opt.theta)
  }

  /** The vector x0 of optimize_theta_target_fn (theta.py:427): the flagged values, level first, then alpha, then theta. */
  function Pack(opt: Flags, par: Par): (x: seq<real>)
    ensures |x| == NumFree(opt)
  {
    (if opt.level then [par.level] else [])
    + (if opt.alpha then [par.alpha] else [])
    + (if opt.theta then [par.theta] else [])
  }

  /**
   * theta_target_fn's unpacking (theta.py:268-286): each flagged parameter
   * takes the next slot of the vector, each other one keeps its initial value.
   */
  function Unpack(opt: Flags, init: Par, x: seq<real>): (p: Par)
    requires |x| >= NumFree(opt)
    ensures !opt.level ==> p.level == init.level
    ensures !opt.alpha ==> p.alpha == init.alpha
    ensures !opt.theta ==> p.theta == init.theta
  {
    var ia := Bit(opt.level);
    var it := ia + Bit(opt.alpha);
    Par(if opt.level then x[0] else init.level,
        if opt.alpha then x[ia] else init.alpha,
        if opt.theta then x[it] else init.theta)
  }

  /** Unpacking the packed starting values gives the starting values back. */
  lemma UnpackPack(opt: Flags, par: Par)
    ensures Unpack(opt, par, Pack(opt, par)) == par
  {
  }

  /** Every vector of the right length is the packing of what it unpacks to. */
  lemma PackUnpack(opt: Flags, init: Par, x: seq<real>)
    requires |x| == NumFree(opt)
    ensures Pack(opt, Unpack(opt, init, x)) == x
  {
  }

  /**
   * thetamodel's write-back (theta.py:498-506): alpha and theta take their
   * fitted slots; the level's slot is skipped and the level keeps its
   * initial value.
   */
  function WriteBack(opt: Flags, par: Par, fit: seq<real>): (p: Par)
    requires |fit| >= NumFree(opt)
    ensures p.level == par.level
  {
    var j := Bit(opt.level);
    var alpha := if opt.alpha then fit[j] else par.alpha;
    var j' := j + Bit(opt.alpha);
    Par(par.level, alpha, if opt.theta then fit[j'] else par.theta)
  }

  /** The write-back is the unpacking of the fitted vector with the level put back. */
  lemma WriteBackIsUnpack(opt: Flags, par: Par, fit: seq<real>)
    requires |fit| >= NumFree(opt)
    ensures WriteBack(opt, par, fit) == Unpack(opt, par, fit).(level := par.level)
  {
  }

  // ---------------------------------------------------------------- the score

  /** thetacalc's result as the float theta_target_fn sees: the NA sentinel, or the mse. */
  function AsFloat(r: CalcResult): Ext
  {
    match r
    case Aborted => Fin(NA)
    case Mse(v) => Fin(v)
  }

  /** `math.fabs(mse + 99999) < 1e-7`: the value is the NA sentinel. */
  predicate IsSentinel(a: Ext)
  {
    a.Fin? && Abs(a.v - NA) < 0.0000001
  }

  /** The floor theta_target_fn clamps to: `if mse < -1e10: mse = -1e10`. */
  function Floor(a: Ext): (r: Ext)
    ensures !r.NaN? ==> !Lt(r, Fin(-HUGEN))
  {
    if Lt(a, Fin(-HUGEN)) then Fin(-HUGEN) else a
  }

  /**
   * The score mapping of theta_target_fn AS WRITTEN (theta.py:301-306): the
   * floor, then NaN and the sentinel become negative infinity.
   */
  function ScoreAsWritten(mse: Ext): Ext
  {
    var a := Floor(mse);
    if a.NaN? || IsSentinel(a) then NegInf else a
  }

  /**
   * As written, an invalid candidate (thetacalc stopped on the sentinel)
   * scores negative infinity, which sorts strictly before the score of every
   * valid candidate, so the minimiser ranks it best.
   */
  lemma InvalidScoresBestAsWritten(v: real)
    requires v >= 0.0
    ensures ScoreAsWritten(AsFloat(Aborted)) == NegInf
    ensures ScoreAsWritten(NaN) == NegInf
    ensures ScoreAsWritten(AsFloat(Mse(v))) == Fin(v)
    ensures Lt(ScoreAsWritten(AsFloat(Aborted)), ScoreAsWritten(AsFloat(Mse(v))))
  {
  }

  /**
   * The score the optimiser minimises, corrected: as ScoreAsWritten, except
   * that NaN and the sentinel become positive infinity, the worst value.
   */
  function TargetScore(mse: Ext): Ext
  {
    var a := Floor(mse);
    if a.NaN? || IsSentinel(a) then PosInf else a
  }

  /**
   * The corrected score: NaN and the sentinel are worse than every other
   * score; every finite value at or above the floor and away from the
   * sentinel is passed on unchanged; anything below the floor becomes the
   * floor; the score is never NaN.
   */
  lemma TargetScoreMap(mse: Ext)
    ensures !TargetScore(mse).NaN?
    ensures mse.NaN? || IsSentinel(mse) ==> TargetScore(mse) == PosInf
    ensures mse.Fin? && mse.v >= -HUGEN && !IsSentinel(mse) ==> TargetScore(mse) == mse
    ensures mse.NegInf? || (mse.Fin? && mse.v < -HUGEN) ==> TargetScore(mse) == Fin(-HUGEN)
    ensures mse.PosInf? ==> TargetScore(mse) == PosInf
    ensures TargetScore(mse) != PosInf ==> SortLt(TargetScore(mse), TargetScore(NaN))
  {
  }

  /** With the correction, every valid candidate sorts strictly before every invalid one. */
  lemma ValidScoresBeatInvalid(v: real)
    requires v >= 0.0
    ensures TargetScore(AsFloat(Aborted)) == PosInf
    ensures TargetScore(AsFloat(Mse(v))) == Fin(v)
    ensures Lt(TargetScore(AsFloat(Mse(v))), TargetScore(AsFloat(Aborted)))
  {
  }

  // ---------------------------------------------------------------- the objective

  function ConfigOf(y: seq<real>, m: ModelType, p: Par): Config
  {
    Config(y, m, p.level, p.alpha, p.theta)
  }

  /**
   * theta_target_fn (theta.py:256-307), with the corrected score: unpack the
   * vector, run thetacalc on the resulting parameters, score its result.
   */
  function TargetFn(opt: Flags, init: Par, y: seq<real>, m: ModelType, x: seq<real>): Ext
    requires |x| == NumFree(opt) && WellDefined(ConfigOf(y, m, Unpack(opt, init, x)))
  {
    TargetScore(AsFloat(CalcSpec(ConfigOf(y, m, Unpack(opt, init, x)))))
  }

  /**
   * The objective is never NaN; it is positive infinity exactly when
   * thetacalc stopped on the sentinel, and otherwise the mse of the unpacked
   * parameters, which is not negative.
   */
  lemma TargetFnMeaning(opt: Flags, init: Par, y: seq<real>, m: ModelType, x: seq<real>)
    requires |x| == NumFree(opt) && WellDefined(ConfigOf(y, m, Unpack(opt, init, x)))
    ensures var c := ConfigOf(y, m, Unpack(opt, init, x));
      && !TargetFn(opt, init, y, m, x).NaN?
      && (TargetFn(opt, init, y, m, x) == PosInf <==> CalcSpec(c).Aborted?)
      && (CalcSpec(c).Mse? ==> TargetFn(opt, init, y, m, x) == Fin(CalcSpec(c).value) && CalcSpec(c).value >= 0.0)
  {
    var c := ConfigOf(y, m, Unpack(opt, init, x));
    if CalcSpec(c).Mse? {
      CalcSpecNonNegative(c);
    }
  }

  /** At the starting vector the objective scores the starting parameters. */
  lemma TargetFnAtStart(opt: Flags, init: Par, y: seq<real>, m: ModelType)
    requires WellDefined(ConfigOf(y, m, init))
    ensures (UnpackPack(opt, init); TargetFn(opt, init, y, m, Pack(opt, init)) == TargetScore(AsFloat(CalcSpec(ConfigOf(y, m, init)))))
  {
    UnpackPack(opt, init);
  }

  /** The arguments theta_target_fn receives after the vector: the starting values and flags, the series and the model. */
  datatype TargetArgs = TargetArgs(init: Init, y: seq<real>, m: ModelType)

  /**
   * theta_target_fn as the minimiser's objective: applied only inside the
   * bounds of the free parameters, and only where the unpacked parameters
   * are defined.
   */
  function Objective(a: TargetArgs, x: seq<real>): Ext
    requires |x| == NumFree(a.init.opt) && InBox(x, FreeLower(a.init.opt), FreeUpper(a.init.opt))
    requires WellDefined(ConfigOf(a.y, a.m, Unpack(a.init.opt, a.init.par, x)))
  {
    TargetFn(a.init.opt, a.init.par, a.y, a.m, x)
  }

  // ---------------------------------------------------------------- bounds

  /** `lower=np.array([-1e10, 0.1, 1.0])` as written (theta.py:454). */
  const FixedLower: seq<real> := [-HUGEN, 0.1, 1.0]

  /** `upper=np.array([1e10, 0.99, 1e10])` as written (theta.py:455). */
  const FixedUpper: seq<real> := [HUGEN, 0.99, HUGEN]

  /**
   * The fixed triple is matched to the vector coordinate by coordinate, so
   * when the level is given alpha is checked against the level's range and
   * theta against alpha's: alpha = 0, theta = 0.5 lies in the box, and
   * thetacalc then divides by alpha = 0.
   */
  lemma FixedBoundsMisaligned(y: seq<real>, m: ModelType, init: Par)
    requires |y| >= 2
    ensures var opt := Flags(false, true, true);
      var x := [0.0, 0.5];
      && |x| == NumFree(opt)
      && InBox(x, FixedLower, FixedUpper)
      && Unpack(opt, init, x).alpha == 0.0 && Unpack(opt, init, x).theta < 1.0
      && !WellDefined(ConfigOf(y, m, Unpack(opt, init, x)))
  {
  }

  /** The range of each free parameter, in the vector's order: the bounds as intended. */
  function FreeLower(opt: Flags): (r: seq<real>)
    ensures |r| == NumFree(opt)
  {
    Pack(opt, Par(-HUGEN, 0.1, 1.0))
  }

  function FreeUpper(opt: Flags): (r: seq<real>)
    ensures |r| == NumFree(opt)
  {
    Pack(opt, Par(HUGEN, 0.99, HUGEN))
  }

  /** The corrected bounds agree with the fixed triple when the free parameters are a leading run. */
  lemma FreeBoundsAgreeOnPrefix(opt: Flags)
    requires opt.theta ==> opt.alpha
    requires opt.alpha ==> opt.level
    ensures FreeLower(opt) == FixedLower[..NumFree(opt)]
    ensures FreeUpper(opt) == FixedUpper[..NumFree(opt)]
  {
  }

  /** The corrected bounds form a non-empty box. */
  lemma FreeBoundsOk(opt: Flags)
    ensures BoxOk(FreeLower(opt), FreeUpper(opt), NumFree(opt))
  {
  }

  /** A vector inside the corrected bounds unpacks to parameters in their intended ranges. */
  lemma FreeBoundsRanges(opt: Flags, init: Par, x: seq<real>)
    requires |x| == NumFree(opt) && InBox(x, FreeLower(opt), FreeUpper(opt))
    ensures var p := Unpack(opt, init, x);
      && (opt.level ==> -HUGEN <= p.level <= HUGEN)
      && (opt.alpha ==> 0.1 <= p.alpha <= 0.99)
      && (opt.theta ==> 1.0 <= p.theta <= HUGEN)
  {
    var ia := Bit(opt.level);
    var it := ia + Bit(opt.alpha);
    if opt.alpha {
      assert FreeLower(opt)[ia] == 0.1 && FreeUpper(opt)[ia] == 0.99;
    }
    if opt.theta {
      assert FreeLower(opt)[it] == 1.0 && FreeUpper(opt)[it] == HUGEN;
    }
  }

  /** The parameters a user fixed do not divide by zero. */
  predicate FixedOk(init: Init)
  {
    (!init.opt.alpha ==> init.par.alpha != 0.0) && (!init.opt.theta ==> init.par.theta != 0.0)
  }

  /** Inside the corrected bounds thetacalc is always defined, whatever the flags. */
  lemma BoxedParamsWellDefined(init: Init, y: seq<real>, m: ModelType, x: seq<real>)
    requires |y| >= 2 && FixedOk(init)
    requires |x| == NumFree(init.opt) && InBox(x, FreeLower(init.opt), FreeUpper(init.opt))
    ensures WellDefined(ConfigOf(y, m, Unpack(init.opt, init.par, x)))
  {
    FreeBoundsRanges(init.opt, init.par, x);
  }

  /** So the objective is defined exactly on the box the minimiser searches. */
  lemma ObjectiveDomain(init: Init, y: seq<real>, m: ModelType)
    requires |y| >= 2 && FixedOk(init)
    ensures DefinedOn(Objective, TargetArgs(init, y, m), NumFree(init.opt), FreeLower(init.opt), FreeUpper(init.opt))
  {
    forall x | |x| == NumFree(init.opt) && InBox(x, FreeLower(init.opt), FreeUpper(init.opt))
      ensures Objective.requires(TargetArgs(init, y, m), x)
    {
      BoxedParamsWellDefined(init, y, m, x);
    }
  }
}
