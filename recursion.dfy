/**
 * The Theta state recursion (statsforecast/theta.py, initstate, thetaupdate,
 * thetafcst, thetaforecast).  The state table has one row per time index with
 * five columns: level, running mean of y, An, Bn and mu (the one-step
 * prediction made at that index).
 */
module ThetaRecursion {

  /** The four variants; STM/OTM are the non-dynamic ones, DSTM/DOTM the dynamic ones. */
  datatype ModelType = STM | OTM | DSTM | DOTM

  /** `modeltype in [DSTM, DOTM]`: An and Bn are recomputed at every step. */
  predicate IsDynamic(m: ModelType) { m == DSTM || m == DOTM }

  /** One row of the state table. */
  datatype Row = Row(level: real, meanY: real, an: real, bn: real, mu: real)

  const ZeroRow: Row := Row(0.0, 0.0, 0.0, 0.0, 0.0)

  /** b^k, the `(1 - alpha) ** i` of the recursion. */
  function Pow(b: real, k: nat): real
  {
    if k == 0 then 1.0 else b * Pow(b, k - 1)
  }

  /** y[0] + ... + y[n-1]. */
  function Sum(s: seq<real>): real
  {
    if |s| == 0 then 0.0 else Sum(s[..|s| - 1]) + s[|s| - 1]
  }

  /** 1*y[0] + 2*y[1] + ... + n*y[n-1], i.e. n times `np.mean(np.arange(1, n + 1) * y)`. */
  function WeightedSum(s: seq<real>): real
  {
    if |s| == 0 then 0.0 else WeightedSum(s[..|s| - 1]) + (|s| as real) * s[|s| - 1]
  }

  /** Slope Bn of the closed-form linear trend of initstate (theta.py:43-47). */
  function TrendSlope(y: seq<real>): real
    requires |y| >= 2
  {
    SlopeOf(|y| as real, Sum(y), WeightedSum(y))
  }

  /** Intercept An of the closed-form linear trend of initstate (theta.py:48). */
  function TrendIntercept(y: seq<real>): real
    requires |y| >= 2
  {
    InterceptOf(|y| as real, Sum(y), SlopeOf(|y| as real, Sum(y), WeightedSum(y)))
  }

  /** The slope formula on the length n, the sum s and the weighted sum w. */
  function SlopeOf(n: real, s: real, w: real): real
    requires n >= 2.0
  {
    6.0 * (2.0 * (w / n) - (1.0 + n) * (s / n)) / (n * n - 1.0)
  }

  /** The intercept formula on the length n, the sum s and the slope b. */
  function InterceptOf(n: real, s: real, b: real): real
    requires n >= 2.0
  {
    s / n - (n + 1.0) * b / 2.0
  }

  /** The sum of the line a + b*t over t = 1..n. */
  lemma {:induction false} SumOfLine(y: seq<real>, a: real, b: real)
    requires forall k :: 0 <= k < |y| ==> y[k] == a + b * (k as real + 1.0)
    ensures Sum(y) == (|y| as real) * a + b * (|y| as real) * (|y| as real + 1.0) / 2.0
    decreases |y|
  {
    if |y| > 0 {
      var n := |y| as real;
      SumOfLine(y[..|y| - 1], a, b);
      assert Sum(y) == (n - 1.0) * a + b * (n - 1.0) * n / 2.0 + (a + b * n);
    }
  }

  /** The weighted sum 1*y_1 + ... + n*y_n of the line a + b*t. */
  lemma {:induction false} WeightedSumOfLine(y: seq<real>, a: real, b: real)
    requires forall k :: 0 <= k < |y| ==> y[k] == a + b * (k as real + 1.0)
    ensures WeightedSum(y)
      == a * (|y| as real) * (|y| as real + 1.0) / 2.0
       + b * (|y| as real) * (|y| as real + 1.0) * (2.0 * (|y| as real) + 1.0) / 6.0
    decreases |y|
  {
    if |y| > 0 {
      var n := |y| as real;
      WeightedSumOfLine(y[..|y| - 1], a, b);
      assert WeightedSum(y)
        == a * (n - 1.0) * n / 2.0 + b * (n - 1.0) * n * (2.0 * n - 1.0) / 6.0 + n * (a + b * n);
    }
  }

  /**
   * The closed-form trend of initstate is the least-squares line: on a series
   * that lies exactly on the line a + b*t (t = 1..n) it returns slope b and
   * intercept a.
   */
  lemma TrendOfLine(y: seq<real>, a: real, b: real)
    requires |y| >= 2
    requires forall k :: 0 <= k < |y| ==> y[k] == a + b * (k as real + 1.0)
    ensures TrendSlope(y) == b && TrendIntercept(y) == a
  {
    LineSums(y, a, b);
    TrendFromSums(y, a, b);
  }

  lemma TrendFromSums(y: seq<real>, a: real, b: real)
    requires |y| >= 2
    requires Sum(y) == (|y| as real) * a + b * (|y| as real) * (|y| as real + 1.0) / 2.0
    requires WeightedSum(y)
      == a * (|y| as real) * (|y| as real + 1.0) / 2.0
       + b * (|y| as real) * (|y| as real + 1.0) * (2.0 * (|y| as real) + 1.0) / 6.0
    ensures TrendSlope(y) == b && TrendIntercept(y) == a
  {
    TrendArithmetic(|y| as real, Sum(y), WeightedSum(y), a, b);
  }

  lemma LineSums(y: seq<real>, a: real, b: real)
    requires forall k :: 0 <= k < |y| ==> y[k] == a + b * (k as real + 1.0)
    ensures Sum(y) == (|y| as real) * a + b * (|y| as real) * (|y| as real + 1.0) / 2.0
    ensures WeightedSum(y)
      == a * (|y| as real) * (|y| as real + 1.0) / 2.0
       + b * (|y| as real) * (|y| as real + 1.0) * (2.0 * (|y| as real) + 1.0) / 6.0
  {
    SumOfLine(y, a, b);
    WeightedSumOfLine(y, a, b);
  }

  /** The algebra behind TrendOfLine, on plain numbers. */
  lemma TrendArithmetic(n: real, s: real, w: real, a: real, b: real)
    requires n >= 2.0
    requires s == n * a + b * n * (n + 1.0) / 2.0
    requires w == a * n * (n + 1.0) / 2.0 + b * n * (n + 1.0) * (2.0 * n + 1.0) / 6.0
    ensures SlopeOf(n, s, w) == b && InterceptOf(n, s, b) == a
  {
    var sMean := a + b * (n + 1.0) / 2.0;
    var wMean := a * (n + 1.0) / 2.0 + b * (n + 1.0) * (2.0 * n + 1.0) / 6.0;
    var d := n * n - 1.0;
    assert s / n == sMean by {
      FactorMean(n, s, a, b * (n + 1.0) / 2.0);
    }
    assert w / n == wMean by {
      FactorMean(n, w, a * (n + 1.0) / 2.0, b * (n + 1.0) * (2.0 * n + 1.0) / 6.0);
    }
    assert SlopeOf(n, s, w) == 6.0 * (2.0 * wMean - (1.0 + n) * sMean) / d;
    assert 2.0 * wMean - (1.0 + n) * sMean == b * d / 6.0 by {
      LineMoments(n, a, b);
    }
    assert d > 0.0 by {
      GrowsPastOne(n);
    }
    assert 6.0 * (b * d / 6.0) / d == b by {
      SixthCancel(b, d);
    }
  }

  lemma GrowsPastOne(n: real)
    requires n >= 2.0
    ensures n * n - 1.0 > 0.0
  {
    assert n * n >= 2.0 * n;
  }

  lemma FactorMean(n: real, s: real, p: real, q: real)
    requires n != 0.0 && s == n * p + n * q
    ensures s / n == p + q
  {
  }

  lemma LineMoments(n: real, a: real, b: real)
    ensures 2.0 * (a * (n + 1.0) / 2.0 + b * (n + 1.0) * (2.0 * n + 1.0) / 6.0)
      - (1.0 + n) * (a + b * (n + 1.0) / 2.0) == b * (n * n - 1.0) / 6.0
  {
  }

  lemma SixthCancel(x: real, d: real)
    requires d != 0.0
    ensures 6.0 * (x * d / 6.0) / d == x
  {
  }

  /** A constant series has no trend: An is the constant and Bn is zero. */
  lemma ConstantHasNoTrend(y: seq<real>, c: real)
    requires |y| >= 2 && forall k :: 0 <= k < |y| ==> y[k] == c
    ensures TrendSlope(y) == 0.0 && TrendIntercept(y) == c
  {
    TrendOfLine(y, c, 0.0);
  }

  /**
   * What initstate needs so that none of its divisions is by zero:
   * the non-dynamic trend divides by n^2 - 1 and by theta.
   */
  predicate InitOk(y: seq<real>, m: ModelType, theta: real)
  {
    |y| >= 1 && (!IsDynamic(m) ==> |y| >= 2 && theta != 0.0)
  }

  /** Row 0 of the state table (theta.py:31-53). */
  function InitState(y: seq<real>, m: ModelType, s0: real, alpha: real, theta: real): Row
    requires InitOk(y, m, theta)
  {
    var level := alpha * y[0] + (1.0 - alpha) * s0;
    if IsDynamic(m) then
      Row(level, y[0], y[0], 0.0, y[0])
    else
      var an := TrendIntercept(y);
      var bn := TrendSlope(y);
      Row(level, y[0], an, bn, s0 + (1.0 - 1.0 / theta) * (an + bn))
  }

  /** The one-step prediction mu_i computed from row i-1 (theta.py:150-152). */
  function Predict(prev: Row, i: nat, alpha: real, theta: real): real
    requires alpha != 0.0 && theta != 0.0
  {
    prev.level + (1.0 - 1.0 / theta)
      * (prev.an * Pow(1.0 - alpha, i) + prev.bn * (1.0 - Pow(1.0 - alpha, i + 1)) / alpha)
  }

  /** The level update: move a fraction alpha of the way from the old level to the observation. */
  function SmoothLevel(alpha: real, obs: real, level: real): (r: real)
    ensures r - level == alpha * (obs - level)
  {
    alpha * obs + (1.0 - alpha) * level
  }

  /** The mean column at index n: the mean of n+1 values whose first n have mean `meanY`. */
  function RunningMean(n: real, meanY: real, obs: real): (r: real)
    requires n >= 0.0
    ensures (n + 1.0) * r == n * meanY + obs
  {
    (n * meanY + obs) / (n + 1.0)
  }

  /** Dynamic Bn update at index n (theta.py:162). */
  function DynamicSlope(n: real, bn: real, obs: real, meanY: real): real
    requires n >= 0.0
  {
    ((n - 1.0) * bn + 6.0 * (obs - meanY) / (n + 1.0)) / (n + 2.0)
  }

  /** Dynamic An update at index n (theta.py:163): An is read off the new mean and Bn. */
  function DynamicIntercept(n: real, meanY: real, bn: real): real
  {
    meanY - bn * (n + 2.0) / 2.0
  }

  /**
   * Row i computed from row i-1 (theta.py:141-166).  With `useMu` the
   * observation fed to the level, mean and trend updates is the prediction mu
   * itself and `y` is ignored.
   */
  function Step(prev: Row, i: nat, m: ModelType, alpha: real, theta: real, y: real, useMu: bool): Row
    requires i >= 1 && alpha != 0.0 && theta != 0.0
  {
    var mu := Predict(prev, i, alpha, theta);
    Advance(prev, i as real, m, alpha, mu, if useMu then mu else y)
  }

  /**
   * The column updates of a step at index n once mu is known: level, mean and
   * (for the dynamic variants) Bn and An all take in the observation `obs`.
   */
  function Advance(prev: Row, n: real, m: ModelType, alpha: real, mu: real, obs: real): Row
    requires n >= 0.0
  {
    var meanY := RunningMean(n, prev.meanY, obs);
    if IsDynamic(m) then
      var bn := DynamicSlope(n, prev.bn, obs, prev.meanY);
      Row(SmoothLevel(alpha, obs, prev.level), meanY, DynamicIntercept(n, meanY, bn), bn, mu)
    else
      Row(SmoothLevel(alpha, obs, prev.level), meanY, prev.an, prev.bn, mu)
  }

  /** The mu column of a step is the prediction from the previous row. */
  lemma StepMu(prev: Row, i: nat, m: ModelType, alpha: real, theta: real, y: real, useMu: bool)
    requires i >= 1 && alpha != 0.0 && theta != 0.0
    ensures Step(prev, i, m, alpha, theta, y, useMu).mu == Predict(prev, i, alpha, theta)
  {
  }

  /** The level moves a fraction alpha of the way from the old level to the observation. */
  lemma AdvanceLevel(prev: Row, n: real, m: ModelType, alpha: real, mu: real, obs: real)
    requires n >= 0.0
    ensures Advance(prev, n, m, alpha, mu, obs).level - prev.level == alpha * (obs - prev.level)
  {
    assert Advance(prev, n, m, alpha, mu, obs).level == SmoothLevel(alpha, obs, prev.level);
  }

  /** The mean column becomes the running mean including the observation. */
  lemma AdvanceMean(prev: Row, n: real, m: ModelType, alpha: real, mu: real, obs: real)
    requires n >= 0.0
    ensures (n + 1.0) * Advance(prev, n, m, alpha, mu, obs).meanY == n * prev.meanY + obs
  {
    assert Advance(prev, n, m, alpha, mu, obs).meanY == RunningMean(n, prev.meanY, obs);
  }

  /** Non-dynamic variants carry An and Bn over unchanged. */
  lemma StepKeepsTrend(prev: Row, i: nat, m: ModelType, alpha: real, theta: real, y: real, useMu: bool)
    requires i >= 1 && alpha != 0.0 && theta != 0.0 && !IsDynamic(m)
    ensures Step(prev, i, m, alpha, theta, y, useMu).an == prev.an
    ensures Step(prev, i, m, alpha, theta, y, useMu).bn == prev.bn
  {
  }

  /** With `useMu` the supplied observation plays no part. */
  lemma StepIgnoresY(prev: Row, i: nat, m: ModelType, alpha: real, theta: real, y: real, y': real)
    requires i >= 1 && alpha != 0.0 && theta != 0.0
    ensures Step(prev, i, m, alpha, theta, y, true) == Step(prev, i, m, alpha, theta, y', true)
  {
  }

  /**
   * The rows i, i+1, ..., i+h-1 that thetafcst builds on its scratch table,
   * starting from row `last` (= row i-1) and feeding each prediction back in.
   */
  function Roll(last: Row, i: nat, h: nat, m: ModelType, alpha: real, theta: real): (rows: seq<Row>)
    requires i >= 1 && alpha != 0.0 && theta != 0.0
    ensures |rows| == h
    decreases h
  {
    if h == 0 then []
    else
      var next := Step(last, i, m, alpha, theta, 0.0, true);
      [next] + Roll(next, i + 1, h - 1, m, alpha, theta)
  }

  /** The mu column of a list of rows. */
  function Mus(rows: seq<Row>): (f: seq<real>)
    ensures |f| == |rows|
  {
    seq(|rows|, k requires 0 <= k < |rows| => rows[k].mu)
  }

  /** The h forecasts thetafcst writes into f[0..h). */
  function Fcst(last: Row, i: nat, h: nat, m: ModelType, alpha: real, theta: real): (f: seq<real>)
    requires i >= 1 && alpha != 0.0 && theta != 0.0
    ensures |f| == h
  {
    Mus(Roll(last, i, h, m, alpha, theta))
  }

  /** The rows rolled forward for a shorter horizon are a prefix of those for a longer one. */
  lemma {:induction false} RollPrefix(last: Row, i: nat, h: nat, k: nat, m: ModelType, alpha: real, theta: real)
    requires i >= 1 && alpha != 0.0 && theta != 0.0 && k <= h
    ensures Roll(last, i, h, m, alpha, theta)[..k] == Roll(last, i, k, m, alpha, theta)
    decreases k
  {
    if k > 0 {
      var next := Step(last, i, m, alpha, theta, 0.0, true);
      RollPrefix(next, i + 1, h - 1, k - 1, m, alpha, theta);
      assert Roll(last, i, h, m, alpha, theta)[..k] == [next] + Roll(next, i + 1, h - 1, m, alpha, theta)[..k - 1];
    }
  }

  /** Row k of a roll is one step (index i+k, mu fed back) from row k-1, or from `last` when k = 0. */
  lemma {:induction false} RollAt(last: Row, i: nat, h: nat, k: nat, m: ModelType, alpha: real, theta: real)
    requires i >= 1 && alpha != 0.0 && theta != 0.0 && k < h
    ensures var rows := Roll(last, i, h, m, alpha, theta);
      rows[k] == Step(if k == 0 then last else rows[k - 1], i + k, m, alpha, theta, 0.0, true)
    decreases k
  {
    if k > 0 {
      var next := Step(last, i, m, alpha, theta, 0.0, true);
      RollAt(next, i + 1, h - 1, k - 1, m, alpha, theta);
    }
  }

  /** Extending the horizon by one appends exactly one row (what thetafcst's loop does). */
  lemma RollSnoc(last: Row, i: nat, h: nat, m: ModelType, alpha: real, theta: real)
    requires i >= 1 && alpha != 0.0 && theta != 0.0
    ensures var rows := Roll(last, i, h, m, alpha, theta);
      Roll(last, i, h + 1, m, alpha, theta)
        == rows + [Step(if h == 0 then last else rows[h - 1], i + h, m, alpha, theta, 0.0, true)]
  {
    var long := Roll(last, i, h + 1, m, alpha, theta);
    RollPrefix(last, i, h + 1, h, m, alpha, theta);
    RollAt(last, i, h + 1, h, m, alpha, theta);
    if h > 0 {
      assert long[h - 1] == long[..h][h - 1];
    }
    assert long == long[..h] + [long[h]];
  }

  /**
   * Prefix consistency of the forecasts: asking for horizon h and dropping the
   * last value gives the forecasts for horizon h-1.
   */
  lemma FcstPrefix(last: Row, i: nat, h: nat, m: ModelType, alpha: real, theta: real)
    requires i >= 1 && alpha != 0.0 && theta != 0.0 && h >= 1
    ensures Fcst(last, i, h, m, alpha, theta)[..h - 1] == Fcst(last, i, h - 1, m, alpha, theta)
  {
    RollPrefix(last, i, h, h - 1, m, alpha, theta);
    var long := Roll(last, i, h, m, alpha, theta);
    var short := Roll(last, i, h - 1, m, alpha, theta);
    forall k | 0 <= k < h - 1
      ensures Fcst(last, i, h, m, alpha, theta)[k] == Fcst(last, i, h - 1, m, alpha, theta)[k]
    {
      assert long[..h - 1][k] == short[k];
    }
  }

  /** The first forecast is the prediction made from the last known row. */
  lemma FcstFirst(last: Row, i: nat, h: nat, m: ModelType, alpha: real, theta: real)
    requires i >= 1 && alpha != 0.0 && theta != 0.0 && h >= 1
    ensures Fcst(last, i, h, m, alpha, theta)[0] == Predict(last, i, alpha, theta)
  {
  }

  /** Non-dynamic variants never change An and Bn while rolling forward. */
  lemma {:induction false} RollKeepsTrend(last: Row, i: nat, h: nat, m: ModelType, alpha: real, theta: real)
    requires i >= 1 && alpha != 0.0 && theta != 0.0 && !IsDynamic(m)
    ensures forall k :: 0 <= k < h ==>
      Roll(last, i, h, m, alpha, theta)[k].an == last.an && Roll(last, i, h, m, alpha, theta)[k].bn == last.bn
    decreases h
  {
    if h > 0 {
      var next := Step(last, i, m, alpha, theta, 0.0, true);
      RollKeepsTrend(next, i + 1, h - 1, m, alpha, theta);
    }
  }

  /**
   * thetaupdate (theta.py:141-166): writes row i of the table from row i-1,
   * column by column, and touches no other row.
   */
  method ThetaUpdate(states: array<Row>, i: nat, m: ModelType, alpha: real, theta: real, y: real, useMu: bool)
    requires 1 <= i < states.Length && alpha != 0.0 && theta != 0.0
    modifies states
    ensures states[..] == old(states[..])[i := Step(old(states[..])[i - 1], i, m, alpha, theta, y, useMu)]
  {
    var level := states[i - 1].level;
    var meany := states[i - 1].meanY;
    var an := states[i - 1].an;
    var bn := states[i - 1].bn;
    states[i] := states[i].(mu := Predict(states[i - 1], i, alpha, theta));
    var obs := y;
    if useMu {
      obs := states[i].mu;
    }
    states[i] := states[i].(level := SmoothLevel(alpha, obs, level));
    states[i] := states[i].(meanY := RunningMean(i as real, meany, obs));
    if IsDynamic(m) {
      states[i] := states[i].(bn := DynamicSlope(i as real, bn, obs, meany));
      states[i] := states[i].(an := DynamicIntercept(i as real, states[i].meanY, states[i].bn));
    } else {
      states[i] := states[i].(an := an);
      states[i] := states[i].(bn := bn);
    }
  }

  /**
   * thetafcst (theta.py:120-137): copies rows [0, i) onto a scratch table, rolls
   * the recursion h steps with mu fed back, and writes the predictions into
   * f[0..h).  The state table itself is only read.
   */
  method ThetaFcst(states: array<Row>, i: nat, m: ModelType, f: array<real>, h: nat, alpha: real, theta: real)
    requires 1 <= i <= states.Length && h <= f.Length && alpha != 0.0 && theta != 0.0
    modifies f
    ensures f[..h] == Fcst(states[i - 1], i, h, m, alpha, theta)
    ensures f[h..] == old(f[h..])
  {
    var newStates := new Row[i + h](_ => ZeroRow);
    forall k | 0 <= k < i {
      newStates[k] := states[k];
    }
    ghost var last := states[i - 1];
    var ih := 0;
    while ih < h
      invariant 0 <= ih <= h
      invariant RolledTo(newStates[..], f[..], last, i, h, ih, m, alpha, theta)
      invariant f[h..] == old(f[h..])
    {
      ghost var rows := newStates[..];
      ghost var fs := f[..];
      ThetaUpdate(newStates, i + ih, m, alpha, theta, 0.0, true);
      f[ih] := newStates[i + ih].mu;
      RolledStep(rows, newStates[..], fs, f[..], last, i, h, ih, m, alpha, theta);
      ih := ih + 1;
    }
    assert f[..h] == f[..][..h];
  }

  /**
   * The loop invariant of thetafcst's forecast loop after ih passes: the
   * scratch table holds row i-1 unchanged and the first ih rolled rows after
   * it, and f starts with their mu column.
   */
  ghost predicate RolledTo(rows: seq<Row>, fs: seq<real>, last: Row, i: nat, h: nat, ih: nat,
                           m: ModelType, alpha: real, theta: real)
  {
    && i >= 1 && alpha != 0.0 && theta != 0.0 && ih <= h <= |fs| && |rows| == i + h
    && rows[i - 1] == last
    && rows[i..i + ih] == Roll(last, i, ih, m, alpha, theta)
    && fs[..ih] == Mus(rows[i..i + ih])
  }

  /** One pass of the forecast loop (an update of row i+ih, then f[ih]) keeps the invariant. */
  lemma RolledStep(rows: seq<Row>, rows': seq<Row>, fs: seq<real>, fs': seq<real>, last: Row,
                   i: nat, h: nat, ih: nat, m: ModelType, alpha: real, theta: real)
    requires RolledTo(rows, fs, last, i, h, ih, m, alpha, theta) && ih < h
    requires rows' == rows[i + ih := Step(rows[i + ih - 1], i + ih, m, alpha, theta, 0.0, true)]
    requires fs' == fs[ih := rows'[i + ih].mu]
    ensures RolledTo(rows', fs', last, i, h, ih + 1, m, alpha, theta)
    ensures fs'[h..] == fs[h..]
  {
    ExtendSlice(rows, rows', i, ih);
    RollSnoc(last, i, ih, m, alpha, theta);
    MusSnoc(rows'[i..i + ih], rows'[i + ih]);
    assert fs'[..ih + 1] == fs[..ih] + [fs'[ih]];
    assert rows'[i..i + ih] == rows[i..i + ih];
  }

  /** Overwriting slot lo+k of a table extends its slice [lo, lo+k) by that one row. */
  lemma ExtendSlice(before: seq<Row>, after: seq<Row>, lo: nat, k: nat)
    requires lo >= 1 && lo + k < |before| == |after| && after == before[lo + k := after[lo + k]]
    ensures after[lo..lo + k + 1] == before[lo..lo + k] + [after[lo + k]]
    ensures after[lo - 1] == before[lo - 1]
    ensures k > 0 ==> after[lo + k - 1] == before[lo..lo + k][k - 1]
  {
  }

  lemma MusSnoc(rows: seq<Row>, r: Row)
    ensures Mus(rows + [r]) == Mus(rows) + [r.mu]
  {
  }

  /** thetaforecast (theta.py:170-175): forecasts h steps beyond the n rows of a fitted table. */
  method ThetaForecast(states: array<Row>, n: nat, m: ModelType, f: array<real>, h: nat, alpha: real, theta: real)
    requires 1 <= n <= states.Length && h <= f.Length && alpha != 0.0 && theta != 0.0
    modifies f
    ensures f[..h] == Fcst(states[n - 1], n, h, m, alpha, theta)
    ensures f[h..] == old(f[h..])
  {
    ThetaFcst(states, n, m, f, h, alpha, theta);
  }
}
