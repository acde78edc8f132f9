/**
 * The in-sample pass of the Theta model (statsforecast/theta.py, thetacalc
 * and pegelsresid_theta): fill the state table row by row, record the one-step
 * residuals and the running mean squared j-step errors, stop early when a
 * one-step forecast hits the NA sentinel, and return the scaled sum of squared
 * residuals.
 */
module ThetaCalc {
  import opened Floats
  import opened ThetaRecursion

  /** One fit: the series, the variant and the three parameters. */
  datatype Config = Config(y: seq<real>, m: ModelType, s0: real, alpha: real, theta: real)

  /**
   * What thetacalc needs so that none of its divisions is by zero: initstate's
   * (see InitOk) and, once there is a second observation, thetaupdate's
   * divisions by alpha and theta.
   */
  predicate WellDefined(c: Config)
  {
    InitOk(c.y, c.m, c.theta) && (|c.y| >= 2 ==> c.alpha != 0.0 && c.theta != 0.0)
  }

  /** Row k of the table as thetacalc computes it from the data (no feedback of mu). */
  function TrueRow(c: Config, k: nat): Row
    requires WellDefined(c) && k < |c.y|
  {
    if k == 0 then InitState(c.y, c.m, c.s0, c.alpha, c.theta)
    else Step(TrueRow(c, k - 1), k, c.m, c.alpha, c.theta, c.y[k], false)
  }

  /** The one-step forecast of y[k] made from row k-1: f[0] in the k-th pass of the loop. */
  function OneStep(c: Config, k: nat): real
    requires WellDefined(c) && 1 <= k < |c.y|
  {
    Predict(TrueRow(c, k - 1), k, c.alpha, c.theta)
  }

  /** The (j+1)-step forecast made from row k-1, i.e. f[j] in the k-th pass. */
  function Ahead(c: Config, k: nat, j: nat): real
    requires WellDefined(c) && 1 <= k < |c.y|
  {
    Fcst(TrueRow(c, k - 1), k, j + 1, c.m, c.alpha, c.theta)[j]
  }

  /** `math.fabs(x - NA) < TOL`: the value is the NA sentinel. */
  predicate NearNA(x: real)
  {
    Abs(x - NA) < TOL
  }

  /** The first index k in [from, n) whose one-step forecast is the NA sentinel, or n. */
  function FirstNA(c: Config, from: nat): (k: nat)
    requires WellDefined(c) && 1 <= from <= |c.y|
    ensures from <= k <= |c.y|
    ensures forall t :: from <= t < k ==> !NearNA(OneStep(c, t))
    ensures k < |c.y| ==> NearNA(OneStep(c, k))
    decreases |c.y| - from
  {
    if from == |c.y| then from
    else if NearNA(OneStep(c, from)) then from
    else FirstNA(c, from + 1)
  }

  /** Where the loop of thetacalc stops: the first NA forecast, or n. */
  function Stop(c: Config): (k: nat)
    requires WellDefined(c)
    ensures 1 <= k <= |c.y|
  {
    FirstNA(c, 1)
  }

  /** e[k]: y[k] minus the mu column of row k (row 0's mu for k = 0, the one-step forecast after). */
  function Residual(c: Config, k: nat): real
    requires WellDefined(c) && k < |c.y|
  {
    c.y[k] - TrueRow(c, k).mu
  }

  /** `np.sum(s ** 2)` over finite values. */
  function SumSquares(s: seq<Ext>): (r: real)
    requires forall k :: 0 <= k < |s| ==> s[k].Fin?
    ensures r >= 0.0
  {
    if |s| == 0 then 0.0 else SumSquares(s[..|s| - 1]) + Square(s[|s| - 1].v)
  }

  /** `np.sum(np.abs(y))`. */
  function SumAbs(y: seq<real>): (r: real)
    ensures r >= 0.0
  {
    if |y| == 0 then 0.0 else SumAbs(y[..|y| - 1]) + Abs(y[|y| - 1])
  }

  /** The divisor of the mse: `np.mean(np.abs(y))`, replaced by TOL when it is within TOL of 0. */
  function Scale(y: seq<real>): real
    requires |y| >= 1
  {
    var meanAbs := SumAbs(y) / (|y| as real);
    if Abs(meanAbs - 0.0) < TOL then TOL else meanAbs
  }

  /** The scale never divides by zero: it is at least TOL. */
  lemma ScalePositive(y: seq<real>)
    requires |y| >= 1
    ensures Scale(y) >= TOL
  {
    var meanAbs := SumAbs(y) / (|y| as real);
    assert meanAbs >= 0.0;
  }

  /** The residual column the loop writes, as finite values. */
  function Residuals(c: Config, k: nat): (e: seq<Ext>)
    requires WellDefined(c) && k <= |c.y|
    ensures |e| == k && forall t :: 0 <= t < k ==> e[t] == Fin(Residual(c, t))
  {
    seq(k, t requires 0 <= t < k => Fin(Residual(c, t)))
  }

  /** `e[3:]` skips the first three residuals (all of them when n < 3). */
  function Burn(n: nat): (b: nat)
    ensures b <= n && (n >= 3 ==> b == 3)
  {
    if n < 3 then n else 3
  }

  /** The result of thetacalc: the NA sentinel as its own constructor, or the mse. */
  datatype CalcResult = Aborted | Mse(value: real)

  /** What thetacalc returns. */
  function CalcSpec(c: Config): CalcResult
    requires WellDefined(c)
  {
    if Stop(c) < |c.y| then Aborted
    else Mse(SumSquares(Residuals(c, |c.y|)[Burn(|c.y|)..]) / Scale(c.y))
  }

  /** The mse thetacalc returns is never negative. */
  lemma CalcSpecNonNegative(c: Config)
    requires WellDefined(c) && CalcSpec(c).Mse?
    ensures CalcSpec(c).value >= 0.0
  {
    ScalePositive(c.y);
    var s := SumSquares(Residuals(c, |c.y|)[Burn(|c.y|)..]);
    assert s >= 0.0;
    NonNegQuotient(s, Scale(c.y));
  }

  /** A non-negative sum over a positive scale is non-negative, as the mse quotient at theta.py:115 needs. */
  lemma NonNegQuotient(a: real, b: real)
    requires a >= 0.0 && b > 0.0
    ensures a / b >= 0.0
  {
  }

  /** How many passes k in [1, upto) have k + j < n: the final value of denom[j]. */
  function Count(n: nat, j: nat, upto: nat): nat
  {
    if upto <= 1 then 0
    else Count(n, j, upto - 1) + (if upto - 1 + j < n then 1 else 0)
  }

  /** denom[j] counts max(0, min(upto, n - j) - 1) passes; after a full run, max(0, n - 1 - j). */
  lemma {:induction false} CountClosed(n: nat, j: nat, upto: nat)
    ensures Count(n, j, upto) == if upto <= 1 || n <= j + 1 then 0
      else if upto <= n - j then upto - 1 else n - j - 1
  {
    if upto > 1 {
      CountClosed(n, j, upto - 1);
    }
  }

  /** The sum of squared (j+1)-step errors over the passes k in [1, upto) with k + j < n. */
  function SumSqErr(c: Config, j: nat, upto: nat): real
    requires WellDefined(c) && upto <= |c.y|
  {
    if upto <= 1 then 0.0
    else
      var k := upto - 1;
      SumSqErr(c, j, k) + (if k + j < |c.y| then Square(c.y[k + j] - Ahead(c, k, j)) else 0.0)
  }

  /** amse[j] after the passes [1, upto): the mean squared (j+1)-step error, 0 when there is none. */
  function AmseSpec(c: Config, j: nat, upto: nat): real
    requires WellDefined(c) && upto <= |c.y|
  {
    var d := Count(|c.y|, j, upto);
    if d == 0 then 0.0 else SumSqErr(c, j, upto) / (d as real)
  }

  /** Passes that do not count contribute nothing to the sum. */
  lemma {:induction false} EmptyCountEmptySum(c: Config, j: nat, upto: nat)
    requires WellDefined(c) && upto <= |c.y| && Count(|c.y|, j, upto) == 0
    ensures SumSqErr(c, j, upto) == 0.0
  {
    if upto > 1 {
      EmptyCountEmptySum(c, j, upto - 1);
    }
  }

  /** Every amse entry is a mean of squares, hence non-negative. */
  lemma {:induction false} SumSqErrNonNegative(c: Config, j: nat, upto: nat)
    requires WellDefined(c) && upto <= |c.y|
    ensures SumSqErr(c, j, upto) >= 0.0
  {
    if upto > 1 {
      SumSqErrNonNegative(c, j, upto - 1);
    }
  }

  lemma AmseNonNegative(c: Config, j: nat, upto: nat)
    requires WellDefined(c) && upto <= |c.y|
    ensures AmseSpec(c, j, upto) >= 0.0
  {
    SumSqErrNonNegative(c, j, upto);
    var d := Count(|c.y|, j, upto);
    if d != 0 {
      NonNegQuotient(SumSqErr(c, j, upto), d as real);
    }
  }

  /**
   * One running-mean update of thetacalc: with the count already bumped to d,
   * `(mean * (d - 1) + t * t) / d`.
   */
  function MeanUpdate(mean: real, d: real, t: real): real
    requires d != 0.0
  {
    (mean * (d - 1.0) + t * t) / d
  }

  /** The update turns the mean of d-1 squares into the mean of d squares. */
  lemma OnlineMean(sum: real, d: real, t: real)
    requires d >= 1.0 && (d == 1.0 ==> sum == 0.0)
    ensures MeanUpdate(if d == 1.0 then 0.0 else sum / (d - 1.0), d, t) == (sum + Square(t)) / d
  {
    if d != 1.0 {
      assert sum / (d - 1.0) * (d - 1.0) == sum;
    }
  }

  /** One pass of the amse loop on entry j agrees with AmseSpec. */
  lemma AmseStep(c: Config, j: nat, k: nat, f: real)
    requires WellDefined(c) && 1 <= k < |c.y| && f == Ahead(c, k, j)
    ensures k + j < |c.y| ==>
      Count(|c.y|, j, k + 1) == Count(|c.y|, j, k) + 1
      && AmseSpec(c, j, k + 1)
         == MeanUpdate(AmseSpec(c, j, k), Count(|c.y|, j, k + 1) as real, c.y[k + j] - f)
    ensures k + j >= |c.y| ==>
      Count(|c.y|, j, k + 1) == Count(|c.y|, j, k) && AmseSpec(c, j, k + 1) == AmseSpec(c, j, k)
  {
    var d := Count(|c.y|, j, k);
    if k + j < |c.y| {
      if d == 0 {
        EmptyCountEmptySum(c, j, k);
      }
      OnlineMean(SumSqErr(c, j, k), (d + 1) as real, c.y[k + j] - f);
    }
  }

  /** Arithmetic mean of a non-empty series. */
  function Mean(s: seq<real>): real
    requires |s| >= 1
  {
    Sum(s) / |s| as real
  }

  lemma MeanSingle(s: seq<real>)
    requires |s| == 1
    ensures Mean(s) == s[0]
  {
    assert s[..0] == [];
    assert Sum(s) == s[0];
  }

  /** Appending one observation moves the mean as the running-mean update says. */
  lemma MeanSnoc(s: seq<real>, x: real)
    requires |s| >= 1
    ensures Mean(s + [x]) == RunningMean(|s| as real, Mean(s), x)
  {
    assert (s + [x])[..|s|] == s;
    assert Sum(s + [x]) == Sum(s) + x;
    MeanShift(|s| as real, Sum(s), x);
  }

  lemma MeanShift(n: real, total: real, x: real)
    requires n >= 1.0
    ensures (total + x) / (n + 1.0) == RunningMean(n, total / n, x)
  {
    var r := RunningMean(n, total / n, x);
    assert n * (total / n) == total;
    assert (n + 1.0) * r == total + x;
  }

  /** The mean column of row k is the mean of y[0..k]. */
  lemma {:induction false} TrueRowMean(c: Config, k: nat)
    requires WellDefined(c) && k < |c.y|
    ensures TrueRow(c, k).meanY == Mean(c.y[..k + 1])
  {
    if k == 0 {
      MeanSingle(c.y[..1]);
    } else {
      TrueRowMean(c, k - 1);
      TrueRowMeanStep(c, k);
      assert c.y[..k + 1] == c.y[..k] + [c.y[k]];
      MeanSnoc(c.y[..k], c.y[k]);
    }
  }

  /** The mean column of row k is the running mean of row k-1's and y[k]. */
  lemma TrueRowMeanStep(c: Config, k: nat)
    requires WellDefined(c) && 1 <= k < |c.y|
    ensures TrueRow(c, k).meanY == RunningMean(k as real, TrueRow(c, k - 1).meanY, c.y[k])
  {
    var prev := TrueRow(c, k - 1);
    assert TrueRow(c, k) == Advance(prev, k as real, c.m, c.alpha, OneStep(c, k), c.y[k]);
  }


  /** Non-dynamic variants keep initstate's closed-form trend in every row. */
  lemma {:induction false} TrueRowTrend(c: Config, k: nat)
    requires WellDefined(c) && k < |c.y| && !IsDynamic(c.m)
    ensures TrueRow(c, k).an == TrendIntercept(c.y) && TrueRow(c, k).bn == TrendSlope(c.y)
  {
    if k > 0 {
      TrueRowTrend(c, k - 1);
    }
  }

  /** f[j] of a horizon-h forecast is the (j+1)-step forecast, whatever h is. */
  lemma FcstAt(last: Row, i: nat, h: nat, j: nat, m: ModelType, alpha: real, theta: real)
    requires i >= 1 && alpha != 0.0 && theta != 0.0 && j < h
    ensures Fcst(last, i, h, m, alpha, theta)[j] == Fcst(last, i, j + 1, m, alpha, theta)[j]
  {
    RollPrefix(last, i, h, j + 1, m, alpha, theta);
    assert Roll(last, i, h, m, alpha, theta)[j] == Roll(last, i, h, m, alpha, theta)[..j + 1][j];
  }

  /**
   * thetacalc (theta.py:57-116).  Rows, residuals and amse entries the loop
   * reaches are those of the specification; rows and residuals past an early
   * stop keep their old contents; the result is CalcSpec.
   */
  method Calc(y: seq<real>, states: array<Row>, m: ModelType, s0: real, alpha: real, theta: real,
              e: array<Ext>, amse: array<real>, nmse: nat) returns (r: CalcResult)
    requires WellDefined(Config(y, m, s0, alpha, theta))
    requires states.Length == |y| == e.Length && nmse <= amse.Length
    requires |y| >= 2 ==> nmse >= 1
    modifies states, e, amse
    ensures var c := Config(y, m, s0, alpha, theta);
      && r == CalcSpec(c)
      && (forall k :: 0 <= k < |y| ==> states[k] == if k < Stop(c) then TrueRow(c, k) else old(states[k]))
      && (forall k :: 0 <= k < e.Length ==> e[k] == if k < Stop(c) then Fin(Residual(c, k)) else old(e[k]))
      && (forall j :: 0 <= j < amse.Length ==> amse[j] == if j < nmse then AmseSpec(c, j, Stop(c)) else old(amse[j]))
  {
    var c := Config(y, m, s0, alpha, theta);
    var n := |y|;
    ghost var st0, es0, am0 := states[..], e[..], amse[..];
    var denom := new real[nmse](_ => 0.0);
    var f := new real[nmse](_ => 0.0);
    CalcInit(c, states, e, amse, denom, nmse, st0, es0, am0);
    var i := 1;
    while i < n
      invariant 1 <= i <= n && Pass(c, i, states, e, amse, denom, nmse, st0, es0, am0)
    {
      var hit := CalcStep(c, i, states, f, denom, e, amse, nmse, st0, es0, am0);
      if hit {
        StopAt(c, i);
        return Aborted;
      }
      i := i + 1;
    }
    StopAt(c, n);
    r := FinishMse(c, e);
  }

  /** Before the loop of thetacalc (theta.py:78-80): row 0 from initstate, amse[:nmse] zeroed, e[0] the first residual. */
  method CalcInit(c: Config, states: array<Row>, e: array<Ext>, amse: array<real>, denom: array<real>, nmse: nat,
                  ghost st0: seq<Row>, ghost es0: seq<Ext>, ghost am0: seq<real>)
    requires WellDefined(c) && states.Length == |c.y| <= e.Length && nmse <= amse.Length && denom.Length == nmse
    requires st0 == states[..] && es0 == e[..] && am0 == amse[..] && amse != denom
    requires forall j :: 0 <= j < nmse ==> denom[j] == 0.0
    modifies states, e, amse
    ensures Pass(c, 1, states, e, amse, denom, nmse, st0, es0, am0)
  {
    states[0] := InitState(c.y, c.m, c.s0, c.alpha, c.theta);
    forall j | 0 <= j < nmse {
      amse[j] := 0.0;
    }
    e[0] := Fin(c.y[0] - states[0].mu);
  }

  /**
   * The state of thetacalc's arrays before pass i: rows and residuals below i
   * are the specified ones, the rest keep their contents st0 / es0 from
   * before the call; denom and amse hold the counts and mean squared errors
   * of the passes so far; no one-step forecast so far was the sentinel.
   */
  ghost predicate Pass(c: Config, i: nat, states: array<Row>, e: array<Ext>, amse: array<real>,
                       denom: array<real>, nmse: nat, st0: seq<Row>, es0: seq<Ext>, am0: seq<real>)
    reads states, e, amse, denom
    requires WellDefined(c)
  {
    && 1 <= i <= |c.y| == states.Length == |st0| && |c.y| <= e.Length == |es0| && amse.Length == |am0|
    && nmse <= amse.Length && denom.Length == nmse
    && (forall t :: 1 <= t < i ==> !NearNA(OneStep(c, t)))
    && (forall k :: 0 <= k < |c.y| ==> states[k] == if k < i then TrueRow(c, k) else st0[k])
    && (forall k :: 0 <= k < e.Length ==> e[k] == if k < i then Fin(Residual(c, k)) else es0[k])
    && (forall j :: 0 <= j < nmse ==> Entry(c, j, i, denom[j], amse[j]))
    && (forall j :: nmse <= j < amse.Length ==> amse[j] == am0[j])
  }

  /** One turn of thetacalc's loop: the pass either hits the sentinel and changes nothing, or moves Pass from i to i + 1. */
  method CalcStep(c: Config, i: nat, states: array<Row>, f: array<real>, denom: array<real>,
                  e: array<Ext>, amse: array<real>, nmse: nat,
                  ghost st0: seq<Row>, ghost es0: seq<Ext>, ghost am0: seq<real>) returns (hit: bool)
    requires WellDefined(c) && i < |c.y| && Pass(c, i, states, e, amse, denom, nmse, st0, es0, am0)
    requires |c.y| >= 2 ==> nmse >= 1
    requires nmse == f.Length && f != denom && f != amse && denom != amse
    modifies states, f, denom, e, amse
    ensures hit == NearNA(OneStep(c, i))
    ensures hit ==> Pass(c, i, states, e, amse, denom, nmse, st0, es0, am0)
    ensures !hit ==> Pass(c, i + 1, states, e, amse, denom, nmse, st0, es0, am0)
  {
    hit := CalcPass(c, i, states, f, denom, e, amse, nmse);
    if !hit {
      NoNAThrough(c, i);
    }
  }

  /**
   * The tail of thetacalc once the loop ran to the end (theta.py:112-115):
   * `mean_y = mean(|y|)`, replaced by TOL when within TOL of 0, and the mse
   * of the residuals after the burn-in over it.
   */
  method FinishMse(c: Config, e: array<Ext>) returns (r: CalcResult)
    requires WellDefined(c) && Stop(c) == |c.y| == e.Length
    requires forall k :: 0 <= k < |c.y| ==> e[k] == Fin(Residual(c, k))
    ensures r == CalcSpec(c)
  {
    var n := |c.y|;
    var meanY := SumAbs(c.y) / (n as real);
    if Abs(meanY - 0.0) < TOL {
      meanY := TOL;
    }
    assert e[..n] == Residuals(c, n);
    assert e[Burn(n)..] == e[..n][Burn(n)..];
    r := Mse(SumSquares(e[Burn(n)..]) / meanY);
  }

  /**
   * One pass of the loop of thetacalc (theta.py:80-107) at index i: forecast
   * nmse steps from row i-1; if the one-step forecast is the sentinel, report
   * it and change nothing else; otherwise record the residual, fold the
   * j-step errors into amse and write row i.
   */
  method CalcPass(c: Config, i: nat, states: array<Row>, f: array<real>, denom: array<real>,
                  e: array<Ext>, amse: array<real>, nmse: nat) returns (hit: bool)
    requires WellDefined(c) && 1 <= i < |c.y|
    requires states.Length == |c.y| <= e.Length && nmse <= amse.Length
    requires 1 <= nmse == f.Length == denom.Length && f != denom && f != amse && denom != amse
    requires forall k :: 0 <= k < i ==> states[k] == TrueRow(c, k)
    requires forall j :: 0 <= j < nmse ==>
      Entry(c, j, i, denom[j], amse[j])
    modifies states, f, denom, e, amse
    ensures hit == NearNA(OneStep(c, i))
    ensures hit ==> states[..] == old(states[..]) && e[..] == old(e[..]) && amse[..] == old(amse[..])
                    && denom[..] == old(denom[..])
    ensures !hit ==> forall k :: 0 <= k < states.Length ==>
      states[k] == if k == i then TrueRow(c, i) else old(states[k])
    ensures !hit ==> forall k :: 0 <= k < e.Length ==>
      e[k] == if k == i then Fin(Residual(c, i)) else old(e[k])
    ensures !hit ==> forall j :: 0 <= j < nmse ==>
      Entry(c, j, i + 1, denom[j], amse[j])
    ensures forall j :: nmse <= j < amse.Length ==> amse[j] == old(amse[j])
  {
    ThetaFcst(states, i, c.m, f, nmse, c.alpha, c.theta);
    FcstFirst(states[i - 1], i, nmse, c.m, c.alpha, c.theta);
    if Abs(f[0] - NA) < TOL {
      return true;
    }
    assert TrueRow(c, i).mu == f[0];
    e[i] := Fin(c.y[i] - f[0]);
    forall j | 0 <= j < nmse
      ensures f[j] == Ahead(c, i, j)
    {
      FcstAt(states[i - 1], i, nmse, j, c.m, c.alpha, c.theta);
    }
    AccumulateAmse(c, i, f, denom, amse, nmse);
    ThetaUpdate(states, i, c.m, c.alpha, c.theta, c.y[i], false);
    hit := false;
  }

  /** denom[j] and amse[j] after the passes before `upto`: the count and the mean squared (j+1)-step error. */
  predicate Entry(c: Config, j: nat, upto: nat, d: real, a: real)
    requires WellDefined(c) && upto <= |c.y|
  {
    d == Count(|c.y|, j, upto) as real && a == AmseSpec(c, j, upto)
  }

  /**
   * The inner loop of thetacalc (theta.py:95-99): for every horizon j whose
   * target y[i+j] exists, bump denom[j] and fold the squared (j+1)-step error
   * into the running mean amse[j].
   */
  method AccumulateAmse(c: Config, i: nat, f: array<real>, denom: array<real>, amse: array<real>, nmse: nat)
    requires WellDefined(c) && 1 <= i < |c.y|
    requires nmse <= f.Length && nmse <= denom.Length && nmse <= amse.Length
    requires denom != amse && f != denom && f != amse
    requires forall j :: 0 <= j < nmse ==> f[j] == Ahead(c, i, j)
    requires forall j :: 0 <= j < nmse ==>
      Entry(c, j, i, denom[j], amse[j])
    modifies denom, amse
    ensures forall j :: 0 <= j < nmse ==>
      Entry(c, j, i + 1, denom[j], amse[j])
    ensures forall j :: nmse <= j < amse.Length ==> amse[j] == old(amse[j])
    ensures forall j :: nmse <= j < denom.Length ==> denom[j] == old(denom[j])
  {
    var n := |c.y|;
    var j := 0;
    while j < nmse
      invariant 0 <= j <= nmse
      invariant forall t :: 0 <= t < j ==>
        Entry(c, t, i + 1, denom[t], amse[t])
      invariant forall t :: j <= t < nmse ==>
        Entry(c, t, i, denom[t], amse[t])
      invariant forall t :: nmse <= t < amse.Length ==> amse[t] == old(amse[t])
      invariant forall t :: nmse <= t < denom.Length ==> denom[t] == old(denom[t])
    {
      var d, a := NextEntry(c, i, j, f[j], denom[j], amse[j]);
      denom[j], amse[j] := d, a;
      j := j + 1;
    }
  }

  /**
   * One j of the inner loop (theta.py:97-101): when y[i+j] exists, bump the
   * count and fold the squared error of the forecast fj into the mean;
   * otherwise leave both alone.
   */
  method NextEntry(c: Config, i: nat, j: nat, fj: real, d: real, a: real) returns (d': real, a': real)
    requires WellDefined(c) && 1 <= i < |c.y| && fj == Ahead(c, i, j) && Entry(c, j, i, d, a)
    ensures Entry(c, j, i + 1, d', a')
  {
    AmseStep(c, j, i, fj);
    if i + j < |c.y| {
      d' := d + 1.0;
      a' := MeanUpdate(a, d', c.y[i + j] - fj);
    } else {
      d', a' := d, a;
    }
  }

  /** One more pass without the sentinel extends the NA-free prefix. */
  lemma NoNAThrough(c: Config, i: nat)
    requires WellDefined(c) && 1 <= i < |c.y|
    requires forall t :: 1 <= t < i ==> !NearNA(OneStep(c, t))
    requires !NearNA(OneStep(c, i))
    ensures forall t :: 1 <= t < i + 1 ==> !NearNA(OneStep(c, t))
  {
  }

  /** The stop index is pinned down by "no NA before k, NA at k (or k = n)". */
  lemma StopAt(c: Config, k: nat)
    requires WellDefined(c) && 1 <= k <= |c.y|
    requires forall t :: 1 <= t < k ==> !NearNA(OneStep(c, t))
    requires k < |c.y| ==> NearNA(OneStep(c, k))
    ensures Stop(c) == k
  {
  }

  /**
   * pegelsresid_theta's mse: the NA sentinel (and any value within 1e-7 of
   * it) becomes NaN.
   */
  function PegelsMse(r: CalcResult): Ext
  {
    match r
    case Aborted => NaN
    case Mse(v) => if Abs(v - NA) < 0.0000001 then NaN else Fin(v)
  }

  /** pegelsresid's mse is NaN exactly when thetacalc stopped early, and never negative otherwise. */
  lemma PegelsMseNaNIffAborted(c: Config)
    requires WellDefined(c)
    ensures PegelsMse(CalcSpec(c)).NaN? <==> CalcSpec(c).Aborted?
    ensures PegelsMse(CalcSpec(c)).Fin? ==> PegelsMse(CalcSpec(c)).v >= 0.0
  {
    if CalcSpec(c).Mse? {
      CalcSpecNonNegative(c);
    }
  }

  /**
   * pegelsresid_theta (theta.py:227-252): runs thetacalc on a fresh zero table,
   * NaN-filled residuals and amse, and maps the sentinel to NaN.
   */
  method PegelsResid(y: seq<real>, m: ModelType, s0: real, alpha: real, theta: real, nmse: nat)
    returns (amse: array<real>, e: array<Ext>, states: array<Row>, mse: Ext)
    requires WellDefined(Config(y, m, s0, alpha, theta))
    requires |y| >= 2 ==> nmse >= 1
    ensures var c := Config(y, m, s0, alpha, theta);
      && mse == PegelsMse(CalcSpec(c))
      && states.Length == |y| && e.Length == |y| && amse.Length == nmse
      && (forall k :: 0 <= k < |y| ==> states[k] == if k < Stop(c) then TrueRow(c, k) else ZeroRow)
      && (forall k :: 0 <= k < |y| ==> e[k] == if k < Stop(c) then Fin(Residual(c, k)) else NaN)
      && (forall j :: 0 <= j < nmse ==> amse[j] == AmseSpec(c, j, Stop(c)))
  {
    states := new Row[|y|](_ => ZeroRow);
    e := new Ext[|y|](_ => NaN);
    amse := new real[nmse](_ => 0.0);
    var r := Calc(y, states, m, s0, alpha, theta, e, amse, nmse);
    mse := PegelsMse(r);
  }
}
