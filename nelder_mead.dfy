/**
 * The bounded Nelder-Mead minimiser of statsforecast/theta.py
 * (nelder_mead_theta), over an arbitrary objective `f(args, x)`, as the
 * source calls `fn(x, *args)`.  For the given args the objective is a
 * partial function defined exactly on the box [lower, upper], so each
 * application of it shows that the point evaluated lies in the box; every
 * such point is clipped into the box first.
 *
 * NumPy's `argsort` is modelled by its contract only (some permutation of
 * the indices that sorts the values ascending, NaN last), so nothing below
 * depends on how ties are ordered.
 */
module NelderMead {
  import opened Floats

  // ---------------------------------------------------------------- boxes

  function Min(a: real, b: real): real { if a <= b then a else b }

  function Max(a: real, b: real): real { if a >= b then a else b }

  /** `np.clip` of one coordinate: `min(max(v, lo), hi)`. */
  function Clamp(v: real, lo: real, hi: real): (r: real)
    ensures lo <= hi ==> lo <= r <= hi
    ensures lo <= v <= hi ==> r == v
  {
    Min(Max(v, lo), hi)
  }

  /** The bound vectors cover the first n coordinates. */
  predicate Covers(lower: seq<real>, upper: seq<real>, n: nat)
  {
    |lower| >= n && |upper| >= n
  }

  /** A non-empty box on the first n coordinates. */
  predicate BoxOk(lower: seq<real>, upper: seq<real>, n: nat)
  {
    Covers(lower, upper, n) && forall k :: 0 <= k < n ==> lower[k] <= upper[k]
  }

  /** x lies in the box, coordinate k against bound k. */
  predicate InBox(x: seq<real>, lower: seq<real>, upper: seq<real>)
  {
    Covers(lower, upper, |x|) && forall k :: 0 <= k < |x| ==> lower[k] <= x[k] <= upper[k]
  }

  /**
   * `np.clip(x, lower, upper)`, coordinate k against bound k.  The result is
   * in the box, and a point already in the box is left alone.
   */
  function Clip(x: seq<real>, lower: seq<real>, upper: seq<real>): (r: seq<real>)
    requires Covers(lower, upper, |x|)
    ensures |r| == |x|
    ensures BoxOk(lower, upper, |x|) ==> InBox(r, lower, upper)
    ensures InBox(x, lower, upper) ==> r == x
    ensures forall k :: 0 <= k < |x| && lower[k] <= x[k] <= upper[k] ==> r[k] == x[k]
  {
    seq(|x|, k requires 0 <= k < |x| => Clamp(x[k], lower[k], upper[k]))
  }

  /**
   * The objective is defined exactly on the n-dimensional box, so every
   * point it is applied to lies in the box.
   */
  ghost predicate DefinedOn<A>(f: (A, seq<real>) --> Ext, args: A, n: nat, lower: seq<real>, upper: seq<real>)
  {
    forall x :: f.requires(args, x) <==> |x| == n && InBox(x, lower, upper)
  }

  // ---------------------------------------------------------------- vectors

  function Add(a: seq<real>, b: seq<real>): (r: seq<real>)
    requires |a| == |b|
    ensures |r| == |a| && forall k :: 0 <= k < |a| ==> r[k] == a[k] + b[k]
  {
    seq(|a|, k requires 0 <= k < |a| => a[k] + b[k])
  }

  function Sub(a: seq<real>, b: seq<real>): (r: seq<real>)
    requires |a| == |b|
    ensures |r| == |a| && forall k :: 0 <= k < |a| ==> r[k] == a[k] - b[k]
  {
    seq(|a|, k requires 0 <= k < |a| => a[k] - b[k])
  }

  function Mul(c: real, a: seq<real>): (r: seq<real>)
    ensures |r| == |a| && forall k :: 0 <= k < |a| ==> r[k] == c * a[k]
  {
    seq(|a|, k requires 0 <= k < |a| => c * a[k])
  }

  function Zeros(n: nat): (r: seq<real>)
    ensures |r| == n
  {
    seq(n, _ => 0.0)
  }

  /** Every listed row exists and has dimension n. */
  predicate Rows(rows: seq<seq<real>>, idx: seq<nat>, n: nat)
  {
    forall t :: 0 <= t < |idx| ==> idx[t] < |rows| && |rows[idx[t]]| == n
  }

  /** The sum of the listed rows, `simplex[idx].sum(axis=0)`. */
  function SumRows(rows: seq<seq<real>>, idx: seq<nat>, n: nat): (r: seq<real>)
    requires Rows(rows, idx, n)
    ensures |r| == n
  {
    if |idx| == 0 then Zeros(n)
    else Add(SumRows(rows, idx[..|idx| - 1], n), rows[idx[|idx| - 1]])
  }

  /** The centroid of all vertices but the worst: the sum of the first n sorted rows over n. */
  function Centroid(rows: seq<seq<real>>, order: seq<nat>, n: nat): (r: seq<real>)
    requires n >= 1 && |order| == n + 1 && Rows(rows, order, n)
    ensures |r| == n
  {
    Mul(1.0 / (n as real), SumRows(rows, order[..n], n))
  }

  /** The shrink of a vertex towards the best one: `best + sigma * (row - best)`. */
  function Toward(best: seq<real>, row: seq<real>, sigma: real): (r: seq<real>)
    requires |best| == |row|
    ensures |r| == |best|
  {
    Add(best, Mul(sigma, Sub(row, best)))
  }

  // ---------------------------------------------------------------- the initial simplex

  /** The perturbed diagonal entry: a zero becomes zero_pert, and then every entry is scaled. */
  function Perturb(v: real, zeroPert: real, initStep: real): real
  {
    (if v == 0.0 then zeroPert else v) * (1.0 + initStep)
  }

  /** Vertex j before clipping: x0 with coordinate j perturbed (j < n), or x0 itself (j = n). */
  function Vertex(x0: seq<real>, j: nat, zeroPert: real, initStep: real): (r: seq<real>)
    ensures |r| == |x0|
  {
    if j < |x0| then x0[j := Perturb(x0[j], zeroPert, initStep)] else x0
  }

  /** The n + 1 starting vertices, each clipped into the box. */
  function InitialSimplex(x0: seq<real>, lower: seq<real>, upper: seq<real>, zeroPert: real, initStep: real)
    : (rows: seq<seq<real>>)
    requires BoxOk(lower, upper, |x0|)
    ensures |rows| == |x0| + 1
    ensures forall j :: 0 <= j <= |x0| ==> |rows[j]| == |x0| && InBox(rows[j], lower, upper)
  {
    seq(|x0| + 1, j requires 0 <= j <= |x0| => Clip(Vertex(x0, j, zeroPert, initStep), lower, upper))
  }

  /**
   * Starting from a point in the box, vertex j < n differs from it only at
   * coordinate j, which holds the clipped perturbation; vertex n is the point.
   */
  lemma InitialSimplexShape(x0: seq<real>, lower: seq<real>, upper: seq<real>, zeroPert: real, initStep: real)
    requires BoxOk(lower, upper, |x0|) && InBox(x0, lower, upper)
    ensures var rows := InitialSimplex(x0, lower, upper, zeroPert, initStep);
      rows[|x0|] == x0
      && forall j, k :: 0 <= j < |x0| && 0 <= k < |x0| ==>
           rows[j][k] == if k == j then Clamp(Perturb(x0[j], zeroPert, initStep), lower[j], upper[j])
                         else x0[k]
  {
    var rows := InitialSimplex(x0, lower, upper, zeroPert, initStep);
    forall j, k | 0 <= j < |x0| && 0 <= k < |x0|
      ensures rows[j][k] == if k == j then Clamp(Perturb(x0[j], zeroPert, initStep), lower[j], upper[j])
                            else x0[k]
    {
      var v := Vertex(x0, j, zeroPert, initStep);
      assert rows[j] == Clip(v, lower, upper);
      assert rows[j][k] == Clamp(v[k], lower[k], upper[k]);
    }
  }

  // ---------------------------------------------------------------- coefficients and stopping

  /** Reflection (`alpha`), expansion (`gamma`), contraction (`rho`) and shrink (`sigma`) factors. */
  datatype Coeffs = Coeffs(refl: real, gamma: real, rho: real, sigma: real)

  /**
   * The coefficients in use: with `adaptive`, gamma, rho and sigma depend on
   * the dimension n (the reflection factor is kept).
   */
  function Coefficients(co: Coeffs, n: nat, adaptive: bool): (r: Coeffs)
    requires n >= 1
    ensures r.refl == co.refl
    ensures !adaptive ==> r == co
    ensures adaptive ==> 1.0 < r.gamma <= 3.0 && 0.25 <= r.rho < 0.75 && 0.0 <= r.sigma < 1.0
  {
    if adaptive then
      var nr := n as real;
      Coeffs(co.refl, 1.0 + 2.0 / nr, 0.75 - 1.0 / (2.0 * nr), 1.0 - 1.0 / nr)
    else co
  }

  function Finite(fs: seq<Ext>): (vs: seq<real>)
    requires forall k :: 0 <= k < |fs| ==> fs[k].Fin?
    ensures |vs| == |fs| && forall k :: 0 <= k < |fs| ==> vs[k] == fs[k].v
  {
    seq(|fs|, k requires 0 <= k < |fs| => fs[k].v)
  }

  function Total1(vs: seq<real>): real
  {
    if |vs| == 0 then 0.0 else Total1(vs[..|vs| - 1]) + vs[|vs| - 1]
  }

  /** Sum of squared deviations from c. */
  function Spread(vs: seq<real>, c: real): (r: real)
    ensures r >= 0.0
  {
    if |vs| == 0 then 0.0
    else Spread(vs[..|vs| - 1], c) + Square(vs[|vs| - 1] - c)
  }

  /** The population variance (`ddof = 0`), the square of `np.std`. */
  function Variance(vs: seq<real>): (r: real)
    requires |vs| >= 1
    ensures r >= 0.0
  {
    Spread(vs, Total1(vs) / |vs| as real) / |vs| as real
  }

  /**
   * `np.std(f_simplex) < tol_std`.  Any infinity or NaN makes the standard
   * deviation NaN, which compares false; otherwise std < tol is
   * variance < tol^2 for a positive tol and impossible for any other.
   */
  predicate StdBelow(fs: seq<Ext>, tol: real)
  {
    |fs| >= 1 && tol > 0.0 && (forall k :: 0 <= k < |fs| ==> fs[k].Fin?)
    && Variance(Finite(fs)) < tol * tol
  }

  lemma SpreadConstant(vs: seq<real>, c: real)
    requires forall k :: 0 <= k < |vs| ==> vs[k] == c
    ensures Spread(vs, c) == 0.0
  {
    if |vs| > 0 {
      SpreadConstant(vs[..|vs| - 1], c);
    }
  }

  lemma {:induction false} TotalConstant(vs: seq<real>, c: real)
    requires forall k :: 0 <= k < |vs| ==> vs[k] == c
    ensures Total1(vs) == (|vs| as real) * c
  {
    if |vs| > 0 {
      TotalConstant(vs[..|vs| - 1], c);
    }
  }

  /** The standard-deviation tolerance the Theta optimiser passes. */
  const TOL_STD: real := 0.0001

  /** A simplex whose values are all equal and finite has stopped at the optimiser's tolerance. */
  lemma FlatSimplexStops(fs: seq<Ext>, c: real)
    requires |fs| >= 1
    requires forall k :: 0 <= k < |fs| ==> fs[k] == Fin(c)
    ensures StdBelow(fs, TOL_STD)
  {
    var vs := Finite(fs);
    TotalConstant(vs, c);
    var n := |vs| as real;
    CancelMean(n, c, Total1(vs));
    SpreadConstant(vs, c);
    ZeroOver(n);
  }

  lemma CancelMean(n: real, c: real, total: real)
    requires n >= 1.0 && total == n * c
    ensures total / n == c
  {
  }

  lemma ZeroOver(n: real)
    requires n >= 1.0
    ensures 0.0 / n == 0.0
  {
  }


  // ---------------------------------------------------------------- argsort

  /** order is a permutation of the indices of fs that lists fs ascending in NumPy's order. */
  predicate IsArgsort(order: seq<nat>, fs: seq<Ext>)
  {
    |order| == |fs|
    && (forall t :: 0 <= t < |order| ==> order[t] < |fs|)
    && (forall a, b :: 0 <= a < b < |order| ==> order[a] != order[b])
    && (forall k :: 0 <= k < |fs| ==> k in order)
    && (forall a, b :: 0 <= a < b < |order| ==> SortLe(fs[order[a]], fs[order[b]]))
  }

  /** The first index of an argsort holds a smallest value; without NaN, smallest by IEEE `<=`. */
  lemma ArgsortFirstIsMin(order: seq<nat>, fs: seq<Ext>)
    requires IsArgsort(order, fs) && |fs| >= 1
    ensures forall k :: 0 <= k < |fs| ==> SortLe(fs[order[0]], fs[k])
    ensures (forall k :: 0 <= k < |fs| ==> !fs[k].NaN?) ==>
      forall k :: 0 <= k < |fs| ==> Le(fs[order[0]], fs[k])
  {
    forall k | 0 <= k < |fs|
      ensures SortLe(fs[order[0]], fs[k])
    {
      assert k in order;
      var t :| 0 <= t < |order| && order[t] == k;
      if t == 0 {
        SortLeTotal(fs[k], fs[k]);
      }
    }
    if forall k :: 0 <= k < |fs| ==> !fs[k].NaN? {
      forall k | 0 <= k < |fs|
        ensures Le(fs[order[0]], fs[k])
      {
        SortLeAgreesWithLe(fs[order[0]], fs[k]);
      }
    }
  }

  /** `f_simplex.argsort()`: callers rely on the contract only. */
  method ArgSort(fs: seq<Ext>) returns (order: seq<nat>)
    ensures IsArgsort(order, fs)
  {
    order := [];
    var i := 0;
    while i < |fs|
      invariant 0 <= i <= |fs| && |order| == i
      invariant forall t :: 0 <= t < i ==> order[t] < i
      invariant forall a, b :: 0 <= a < b < i ==> order[a] != order[b]
      invariant forall k :: 0 <= k < i ==> k in order
      invariant forall a, b :: 0 <= a < b < i ==> SortLe(fs[order[a]], fs[order[b]])
    {
      var p := 0;
      while p < i && SortLe(fs[order[p]], fs[i])
        invariant 0 <= p <= i
        invariant forall t :: 0 <= t < p ==> SortLe(fs[order[t]], fs[i])
      {
        p := p + 1;
      }
      InsertIndex(order, i, p);
      InsertSorted(order, fs, i, p);
      order := order[..p] + [i] + order[p..];
      i := i + 1;
    }
  }

  /** Inserting the fresh index i anywhere keeps the indices a permutation, of 0..i now. */
  lemma InsertIndex(order: seq<nat>, i: nat, p: nat)
    requires |order| == i && p <= i
    requires forall t :: 0 <= t < i ==> order[t] < i
    requires forall a, b :: 0 <= a < b < i ==> order[a] != order[b]
    requires forall k :: 0 <= k < i ==> k in order
    ensures var o := order[..p] + [i] + order[p..];
      |o| == i + 1
      && (forall t :: 0 <= t < i + 1 ==> o[t] < i + 1)
      && (forall a, b :: 0 <= a < b < i + 1 ==> o[a] != o[b])
      && (forall k :: 0 <= k < i + 1 ==> k in o)
  {
    var o := order[..p] + [i] + order[p..];
    assert forall t :: 0 <= t < i + 1 ==> o[t] == if t < p then order[t] else if t == p then i else order[t - 1];
    forall k | 0 <= k < i + 1
      ensures k in o
    {
      if k == i {
        assert o[p] == k;
      } else {
        assert k in order;
        var t :| 0 <= t < i && order[t] == k;
        if t < p {
          assert o[t] == k;
        } else {
          assert o[t + 1] == k;
        }
      }
    }
  }

  /**
   * Inserting index i at the first place whose value sorts after fs[i] keeps
   * the values in NumPy's order.
   */
  lemma InsertSorted(order: seq<nat>, fs: seq<Ext>, i: nat, p: nat)
    requires i < |fs| && |order| == i && p <= i
    requires forall t :: 0 <= t < i ==> order[t] < i
    requires forall a, b :: 0 <= a < b < i ==> SortLe(fs[order[a]], fs[order[b]])
    requires forall t :: 0 <= t < p ==> SortLe(fs[order[t]], fs[i])
    requires p < i ==> !SortLe(fs[order[p]], fs[i])
    ensures var o := order[..p] + [i] + order[p..];
      forall a, b :: 0 <= a < b < i + 1 ==> SortLe(fs[o[a]], fs[o[b]])
  {
    var o := order[..p] + [i] + order[p..];
    assert forall t :: 0 <= t < i + 1 ==> o[t] == if t < p then order[t] else if t == p then i else order[t - 1];
    if p < i {
      SortLeTotal(fs[order[p]], fs[i]);
    }
    forall t | p <= t < i
      ensures SortLe(fs[i], fs[order[t]])
    {
      if t > p {
        SortLeTrans(fs[i], fs[order[p]], fs[order[t]]);
      }
    }
  }


  // ---------------------------------------------------------------- one iteration

  /** The simplex as the method keeps it: n + 1 vertices of dimension n in the box, each with its value. */
  ghost predicate Evaluated<A>(rows: seq<seq<real>>, fs: seq<Ext>, f: (A, seq<real>) --> Ext, args: A,
                            lower: seq<real>, upper: seq<real>)
  {
    |rows| == |fs| >= 2
    && forall j :: 0 <= j < |rows| ==>
         |rows[j]| == |rows| - 1 && InBox(rows[j], lower, upper) && f.requires(args, rows[j]) && fs[j] == f(args, rows[j])
  }

  /** How an iteration ended. */
  datatype Move = Reflect | Expand | ContractOut | ContractIn | Shrink

  /** The reflection of the worst vertex through the centroid of the others, clipped. */
  function Reflected(rows: seq<seq<real>>, order: seq<nat>, refl: real, lower: seq<real>, upper: seq<real>)
    : (r: seq<real>)
    requires |order| >= 2 && Rows(rows, order, |order| - 1) && Covers(lower, upper, |order| - 1)
    ensures |r| == |order| - 1
    ensures BoxOk(lower, upper, |order| - 1) ==> InBox(r, lower, upper)
  {
    var n := |order| - 1;
    var xo := Centroid(rows, order, n);
    Clip(Add(xo, Mul(refl, Sub(xo, rows[order[n]]))), lower, upper)
  }

  /** The expansion `x_o + gamma * (x_r - x_o)`, clipped. */
  function Expanded(xo: seq<real>, xr: seq<real>, gamma: real, lower: seq<real>, upper: seq<real>): (r: seq<real>)
    requires |xo| == |xr| && Covers(lower, upper, |xo|)
    ensures |r| == |xo| && (BoxOk(lower, upper, |xo|) ==> InBox(r, lower, upper))
  {
    Clip(Add(xo, Mul(gamma, Sub(xr, xo))), lower, upper)
  }

  /** `x_o + rho * (x_r - x_o)` (outside) or `x_o - rho * (x_r - x_o)` (inside), clipped. */
  function Contracted(xo: seq<real>, xr: seq<real>, outside: bool, rho: real, lower: seq<real>, upper: seq<real>)
    : (r: seq<real>)
    requires |xo| == |xr| && Covers(lower, upper, |xo|)
    ensures |r| == |xo| && (BoxOk(lower, upper, |xo|) ==> InBox(r, lower, upper))
  {
    var step := Mul(rho, Sub(xr, xo));
    Clip(if outside then Add(xo, step) else Sub(xo, step), lower, upper)
  }

  /** Only the worst vertex changed: it now holds x with the value fx, which sorts strictly before the old worst value. */
  ghost predicate ReplacedWorst(rows: seq<seq<real>>, fs: seq<Ext>, rows': seq<seq<real>>, fs': seq<Ext>,
                                order: seq<nat>, x: seq<real>, fx: Ext)
  {
    |rows| == |fs| && |order| >= 1 && order[|order| - 1] < |rows|
    && var worst := order[|order| - 1];
    rows' == rows[worst := x] && fs' == fs[worst := fx] && SortLt(fx, fs[worst])
  }

  /** The best vertex stayed; every other one moved towards it by sigma and was clipped. */
  ghost predicate Shrunk(rows: seq<seq<real>>, fs: seq<Ext>, rows': seq<seq<real>>, fs': seq<Ext>,
                         order: seq<nat>, sigma: real, lower: seq<real>, upper: seq<real>)
  {
    |rows| == |fs| == |rows'| == |fs'| == |order| >= 1 && order[0] < |rows|
    && var best := order[0];
    rows'[best] == rows[best] && fs'[best] == fs[best]
    && forall k :: 0 <= k < |rows| && k != best ==>
         |rows[k]| == |rows[best]| && Covers(lower, upper, |rows[k]|)
         && rows'[k] == Clip(Toward(rows[best], rows[k], sigma), lower, upper)
  }

  /**
   * Step 3 taken: the expansion point xe (value fe) of x_r away from the
   * centroid xo; the worst vertex becomes xe when fe < fr, and x_r otherwise.
   */
  ghost predicate Expanding(rows: seq<seq<real>>, fs: seq<Ext>, order: seq<nat>, xo: seq<real>, xr: seq<real>, fr: Ext,
                            xe: seq<real>, fe: Ext, gamma: real, lower: seq<real>, upper: seq<real>,
                            rows': seq<seq<real>>, fs': seq<Ext>)
  {
    |xo| == |xr| && Covers(lower, upper, |xo|)
    && xe == Expanded(xo, xr, gamma, lower, upper)
    && if Lt(fe, fr) then ReplacedWorst(rows, fs, rows', fs', order, xe, fe)
       else ReplacedWorst(rows, fs, rows', fs', order, xr, fr)
  }

  /**
   * Steps 4 to 6: the contraction is the outside one when
   * second-worst <= fr < worst and the inside one otherwise; its point xc
   * (value fc) replaces the worst vertex when fc <= fr (outside) or
   * fc < worst (inside), and otherwise the simplex shrinks.
   */
  ghost predicate Contracting(rows: seq<seq<real>>, fs: seq<Ext>, order: seq<nat>, xo: seq<real>, xr: seq<real>,
                              fr: Ext, xc: seq<real>, fc: Ext, co: Coeffs, lower: seq<real>, upper: seq<real>,
                              move: Move, rows': seq<seq<real>>, fs': seq<Ext>)
  {
    |fs| >= 2 && |order| == |fs| && (forall t :: 0 <= t < |order| ==> order[t] < |fs|)
    && |xo| == |xr| && Covers(lower, upper, |xo|)
    && var second, worst := fs[order[|order| - 2]], fs[order[|order| - 1]];
    (if Le(second, fr) && Lt(fr, worst) then
       xc == Contracted(xo, xr, true, co.rho, lower, upper)
       && (move == ContractOut || move == Shrink) && (move == ContractOut <==> Le(fc, fr))
     else
       xc == Contracted(xo, xr, false, co.rho, lower, upper)
       && (move == ContractIn || move == Shrink) && (move == ContractIn <==> Lt(fc, worst)))
    && (move != Shrink ==> ReplacedWorst(rows, fs, rows', fs', order, xc, fc))
    && (move == Shrink ==> Shrunk(rows, fs, rows', fs', order, co.sigma, lower, upper))
  }

  /**
   * One pass of the main loop after the stopping test: reflect the worst
   * vertex through the centroid of the others and keep the reflection, the
   * expansion or a contraction in its place, or else shrink the simplex
   * towards the best vertex.  xt and ft are the expansion or contraction
   * point and its value, when the pass computed one.
   */
  method Iteration<A>(f: (A, seq<real>) --> Ext, args: A, rows: seq<seq<real>>, fs: seq<Ext>, order: seq<nat>,
                   lower: seq<real>, upper: seq<real>, co: Coeffs)
    returns (rows': seq<seq<real>>, fs': seq<Ext>, move: Move, xt: seq<real>, ft: Ext)
    requires Evaluated(rows, fs, f, args, lower, upper) && IsArgsort(order, fs)
    requires BoxOk(lower, upper, |rows| - 1) && DefinedOn(f, args, |rows| - 1, lower, upper)
    ensures Evaluated(rows', fs', f, args, lower, upper)
    ensures |order| >= 2 && Rows(rows, order, |order| - 1) && Covers(lower, upper, |order| - 1)
    ensures var xr := Reflected(rows, order, co.refl, lower, upper);
      var xo := Centroid(rows, order, |order| - 1);
      f.requires(args, xr)
      && (move == Reflect <==> Le(fs[order[0]], f(args, xr)) && Lt(f(args, xr), fs[order[|order| - 2]]))
      && (move == Expand <==> !(move == Reflect) && Lt(f(args, xr), fs[order[0]]))
      && (move == Reflect ==> ReplacedWorst(rows, fs, rows', fs', order, xr, f(args, xr)))
      && (move == Expand ==> Expanding(rows, fs, order, xo, xr, f(args, xr), xt, ft, co.gamma, lower, upper, rows', fs'))
      && (move != Reflect && move != Expand ==>
            Contracting(rows, fs, order, xo, xr, f(args, xr), xt, ft, co, lower, upper, move, rows', fs'))
    ensures move != Reflect ==> f.requires(args, xt) && ft == f(args, xt)
  {
    var xo, xr, fr := EvaluateReflection(f, args, rows, fs, order, lower, upper, co.refl);
    rows', fs', move, xt, ft := AfterReflection(f, args, rows, fs, order, xo, xr, fr, lower, upper, co);
  }

  /** Steps 2 to 6 once the reflected point xr has the value fr: keep it, or go on to expand, contract or shrink. */
  method AfterReflection<A>(f: (A, seq<real>) --> Ext, args: A, rows: seq<seq<real>>, fs: seq<Ext>, order: seq<nat>,
                         xo: seq<real>, xr: seq<real>, fr: Ext, lower: seq<real>, upper: seq<real>, co: Coeffs)
    returns (rows': seq<seq<real>>, fs': seq<Ext>, move: Move, xt: seq<real>, ft: Ext)
    requires Evaluated(rows, fs, f, args, lower, upper) && IsArgsort(order, fs)
    requires BoxOk(lower, upper, |rows| - 1) && DefinedOn(f, args, |rows| - 1, lower, upper)
    requires |xo| == |xr| == |rows| - 1 && f.requires(args, xr) && fr == f(args, xr)
    ensures Evaluated(rows', fs', f, args, lower, upper)
    ensures move == Reflect <==> Le(fs[order[0]], fr) && Lt(fr, fs[order[|order| - 2]])
    ensures move == Expand <==> !(move == Reflect) && Lt(fr, fs[order[0]])
    ensures move == Reflect ==> ReplacedWorst(rows, fs, rows', fs', order, xr, fr)
    ensures move == Expand ==> Expanding(rows, fs, order, xo, xr, fr, xt, ft, co.gamma, lower, upper, rows', fs')
    ensures move != Reflect && move != Expand ==>
      Contracting(rows, fs, order, xo, xr, fr, xt, ft, co, lower, upper, move, rows', fs')
    ensures move != Reflect ==> f.requires(args, xt) && ft == f(args, xt)
  {
    var n := |rows| - 1;
    if Le(fs[order[0]], fr) && Lt(fr, fs[order[n - 1]]) {
      rows', fs' := TakeReflection(f, args, rows, fs, order, xr, fr, lower, upper);
      move, xt, ft := Reflect, xr, fr;
    } else {
      rows', fs', move, xt, ft := NotReflected(f, args, rows, fs, order, xo, xr, fr, lower, upper, co);
    }
  }

  /** Step 1: the centroid x_o, `x_r = clip(x_o + reflect * (x_o - worst))` and its value. */
  method EvaluateReflection<A>(f: (A, seq<real>) --> Ext, args: A, rows: seq<seq<real>>, fs: seq<Ext>, order: seq<nat>,
                            lower: seq<real>, upper: seq<real>, refl: real)
    returns (xo: seq<real>, xr: seq<real>, fr: Ext)
    requires Evaluated(rows, fs, f, args, lower, upper) && IsArgsort(order, fs)
    requires BoxOk(lower, upper, |rows| - 1) && DefinedOn(f, args, |rows| - 1, lower, upper)
    ensures |order| >= 2 && Rows(rows, order, |order| - 1) && Covers(lower, upper, |order| - 1)
    ensures xo == Centroid(rows, order, |order| - 1) && xr == Reflected(rows, order, refl, lower, upper)
    ensures |xo| == |xr| == |rows| - 1 && f.requires(args, xr) && fr == f(args, xr)
  {
    assert Rows(rows, order, |order| - 1);
    xo := Centroid(rows, order, |order| - 1);
    xr := Reflected(rows, order, refl, lower, upper);
    fr := f(args, xr);
  }

  /** Step 2 accepted: the reflection sorts before the second-worst value, hence before the worst. */
  method TakeReflection<A>(f: (A, seq<real>) --> Ext, args: A, rows: seq<seq<real>>, fs: seq<Ext>, order: seq<nat>,
                        xr: seq<real>, fr: Ext, lower: seq<real>, upper: seq<real>)
    returns (rows': seq<seq<real>>, fs': seq<Ext>)
    requires Evaluated(rows, fs, f, args, lower, upper) && IsArgsort(order, fs)
    requires |xr| == |rows| - 1 && InBox(xr, lower, upper) && f.requires(args, xr) && fr == f(args, xr)
    requires Lt(fr, fs[order[|order| - 2]])
    ensures Evaluated(rows', fs', f, args, lower, upper)
    ensures ReplacedWorst(rows, fs, rows', fs', order, xr, fr)
  {
    var n := |rows| - 1;
    assert SortLe(fs[order[n - 1]], fs[order[n]]);
    LtIsSortLt(fr, fs[order[n - 1]]);
    SortLtLe(fr, fs[order[n - 1]], fs[order[n]]);
    rows', fs' := Replace(f, args, rows, fs, order, xr, fr, lower, upper);
  }

  /** Steps 3 to 6, once the reflected point xr (value fr) was not taken as it is. */
  method NotReflected<A>(f: (A, seq<real>) --> Ext, args: A, rows: seq<seq<real>>, fs: seq<Ext>, order: seq<nat>,
                      xo: seq<real>, xr: seq<real>, fr: Ext, lower: seq<real>, upper: seq<real>, co: Coeffs)
    returns (rows': seq<seq<real>>, fs': seq<Ext>, move: Move, xt: seq<real>, ft: Ext)
    requires Evaluated(rows, fs, f, args, lower, upper) && IsArgsort(order, fs)
    requires BoxOk(lower, upper, |rows| - 1) && DefinedOn(f, args, |rows| - 1, lower, upper)
    requires |xo| == |xr| == |rows| - 1 && f.requires(args, xr) && fr == f(args, xr)
    ensures Evaluated(rows', fs', f, args, lower, upper)
    ensures move != Reflect && (move == Expand <==> Lt(fr, fs[order[0]]))
    ensures move == Expand ==> Expanding(rows, fs, order, xo, xr, fr, xt, ft, co.gamma, lower, upper, rows', fs')
    ensures move != Expand ==> Contracting(rows, fs, order, xo, xr, fr, xt, ft, co, lower, upper, move, rows', fs')
    ensures f.requires(args, xt) && ft == f(args, xt)
  {
    if Lt(fr, fs[order[0]]) {
      move := Expand;
      rows', fs', xt, ft := Expansion(f, args, rows, fs, order, xo, xr, fr, lower, upper, co.gamma);
    } else {
      rows', fs', move, xt, ft := Contract(f, args, rows, fs, order, xo, xr, fr, lower, upper, co);
    }
  }

  /** Step 3 taken (fr below the best value): keep the better of the expansion point and x_r. */
  method Expansion<A>(f: (A, seq<real>) --> Ext, args: A, rows: seq<seq<real>>, fs: seq<Ext>, order: seq<nat>,
                   xo: seq<real>, xr: seq<real>, fr: Ext, lower: seq<real>, upper: seq<real>, gamma: real)
    returns (rows': seq<seq<real>>, fs': seq<Ext>, xe: seq<real>, fe: Ext)
    requires Evaluated(rows, fs, f, args, lower, upper) && IsArgsort(order, fs)
    requires BoxOk(lower, upper, |rows| - 1) && DefinedOn(f, args, |rows| - 1, lower, upper)
    requires |xo| == |xr| == |rows| - 1 && f.requires(args, xr) && fr == f(args, xr)
    requires Lt(fr, fs[order[0]])
    ensures Evaluated(rows', fs', f, args, lower, upper)
    ensures f.requires(args, xe) && fe == f(args, xe)
    ensures Expanding(rows, fs, order, xo, xr, fr, xe, fe, gamma, lower, upper, rows', fs')
  {
    var n := |rows| - 1;
    var best, worst := order[0], order[n];
    assert SortLe(fs[best], fs[worst]);
    LtIsSortLt(fr, fs[best]);
    SortLtLe(fr, fs[best], fs[worst]);
    xe := Expanded(xo, xr, gamma, lower, upper);
    fe := f(args, xe);
    if Lt(fe, fr) {
      LtIsSortLt(fe, fr);
      SortLtLe(fe, fr, fs[worst]);
      rows', fs' := Replace(f, args, rows, fs, order, xe, fe, lower, upper);
    } else {
      rows', fs' := Replace(f, args, rows, fs, order, xr, fr, lower, upper);
    }
  }

  /** Steps 4 to 6: the outside or inside contraction, or else the shrink. */
  method Contract<A>(f: (A, seq<real>) --> Ext, args: A, rows: seq<seq<real>>, fs: seq<Ext>, order: seq<nat>,
                  xo: seq<real>, xr: seq<real>, fr: Ext, lower: seq<real>, upper: seq<real>, co: Coeffs)
    returns (rows': seq<seq<real>>, fs': seq<Ext>, move: Move, xc: seq<real>, fc: Ext)
    requires Evaluated(rows, fs, f, args, lower, upper) && IsArgsort(order, fs)
    requires BoxOk(lower, upper, |rows| - 1) && DefinedOn(f, args, |rows| - 1, lower, upper)
    requires |xo| == |xr| == |rows| - 1
    ensures Evaluated(rows', fs', f, args, lower, upper)
    ensures f.requires(args, xc) && fc == f(args, xc)
    ensures Contracting(rows, fs, order, xo, xr, fr, xc, fc, co, lower, upper, move, rows', fs')
  {
    var outside := Le(fs[order[|order| - 2]], fr) && Lt(fr, fs[order[|order| - 1]]);
    rows', fs', move, xc, fc := ContractOrShrink(f, args, rows, fs, order, xo, xr, fr, outside, lower, upper, co);
    ContractingByCase(rows, fs, order, xo, xr, fr, xc, fc, co, lower, upper, move, rows', fs', outside);
  }

  /** Contracting, case by case: the branch taken is the outside one exactly when second <= fr < worst. */
  lemma ContractingByCase(rows: seq<seq<real>>, fs: seq<Ext>, order: seq<nat>, xo: seq<real>, xr: seq<real>,
                          fr: Ext, xc: seq<real>, fc: Ext, co: Coeffs, lower: seq<real>, upper: seq<real>,
                          move: Move, rows': seq<seq<real>>, fs': seq<Ext>, outside: bool)
    requires |fs| >= 2 && |order| == |fs| && (forall t :: 0 <= t < |order| ==> order[t] < |fs|)
    requires |xo| == |xr| && Covers(lower, upper, |xo|)
    requires outside == (Le(fs[order[|order| - 2]], fr) && Lt(fr, fs[order[|order| - 1]]))
    requires xc == Contracted(xo, xr, outside, co.rho, lower, upper)
    requires move == (if outside then ContractOut else ContractIn) || move == Shrink
    requires outside ==> (move != Shrink <==> Le(fc, fr))
    requires !outside ==> (move != Shrink <==> Lt(fc, fs[order[|order| - 1]]))
    requires move != Shrink ==> ReplacedWorst(rows, fs, rows', fs', order, xc, fc)
    requires move == Shrink ==> Shrunk(rows, fs, rows', fs', order, co.sigma, lower, upper)
    ensures Contracting(rows, fs, order, xo, xr, fr, xc, fc, co, lower, upper, move, rows', fs')
  {
  }

  /**
   * Step 4 (outside) or 5 (inside) and, when its point is rejected, step 6:
   * the outside point is kept when fc <= fr, the inside one when fc < worst.
   */
  method ContractOrShrink<A>(f: (A, seq<real>) --> Ext, args: A, rows: seq<seq<real>>, fs: seq<Ext>, order: seq<nat>,
                          xo: seq<real>, xr: seq<real>, fr: Ext, outside: bool,
                          lower: seq<real>, upper: seq<real>, co: Coeffs)
    returns (rows': seq<seq<real>>, fs': seq<Ext>, move: Move, xc: seq<real>, fc: Ext)
    requires Evaluated(rows, fs, f, args, lower, upper) && IsArgsort(order, fs)
    requires BoxOk(lower, upper, |rows| - 1) && DefinedOn(f, args, |rows| - 1, lower, upper)
    requires |xo| == |xr| == |rows| - 1
    requires outside ==> Lt(fr, fs[order[|order| - 1]])
    ensures Evaluated(rows', fs', f, args, lower, upper)
    ensures xc == Contracted(xo, xr, outside, co.rho, lower, upper) && f.requires(args, xc) && fc == f(args, xc)
    ensures move == (if outside then ContractOut else ContractIn) || move == Shrink
    ensures outside ==> (move != Shrink <==> Le(fc, fr))
    ensures !outside ==> (move != Shrink <==> Lt(fc, fs[order[|order| - 1]]))
    ensures move != Shrink ==> ReplacedWorst(rows, fs, rows', fs', order, xc, fc)
    ensures move == Shrink ==> Shrunk(rows, fs, rows', fs', order, co.sigma, lower, upper)
  {
    var n := |rows| - 1;
    var worst := fs[order[|order| - 1]];
    xc, fc := ContractionPoint(f, args, n, xo, xr, outside, co.rho, lower, upper);
    if (outside && Le(fc, fr)) || (!outside && Lt(fc, worst)) {
      rows', fs' := TakeContraction(f, args, rows, fs, order, xc, fc, fr, outside, lower, upper);
      move := if outside then ContractOut else ContractIn;
    } else {
      rows', fs' := ShrinkAll(f, args, rows, fs, order, co.sigma, lower, upper);
      move := Shrink;
    }
  }

  /** The contraction point and its value. */
  method ContractionPoint<A>(f: (A, seq<real>) --> Ext, args: A, n: nat, xo: seq<real>, xr: seq<real>, outside: bool, rho: real,
                          lower: seq<real>, upper: seq<real>)
    returns (xc: seq<real>, fc: Ext)
    requires BoxOk(lower, upper, n) && DefinedOn(f, args, n, lower, upper)
    requires |xo| == |xr| == n
    ensures xc == Contracted(xo, xr, outside, rho, lower, upper) && f.requires(args, xc) && fc == f(args, xc)
  {
    xc := Contracted(xo, xr, outside, rho, lower, upper);
    fc := f(args, xc);
  }

  /** Step 4 or 5 accepted: the contraction point takes the worst vertex's place. */
  method TakeContraction<A>(f: (A, seq<real>) --> Ext, args: A, rows: seq<seq<real>>, fs: seq<Ext>, order: seq<nat>,
                         xc: seq<real>, fc: Ext, fr: Ext, outside: bool, lower: seq<real>, upper: seq<real>)
    returns (rows': seq<seq<real>>, fs': seq<Ext>)
    requires Evaluated(rows, fs, f, args, lower, upper) && IsArgsort(order, fs)
    requires |xc| == |rows| - 1 && InBox(xc, lower, upper) && f.requires(args, xc) && fc == f(args, xc)
    requires outside ==> Lt(fr, fs[order[|order| - 1]]) && Le(fc, fr)
    requires !outside ==> Lt(fc, fs[order[|order| - 1]])
    ensures Evaluated(rows', fs', f, args, lower, upper)
    ensures ReplacedWorst(rows, fs, rows', fs', order, xc, fc)
  {
    AcceptedContractionImproves(fc, fr, fs[order[|order| - 1]], outside);
    rows', fs' := Replace(f, args, rows, fs, order, xc, fc, lower, upper);
  }

  /** An accepted contraction sorts strictly before the worst value: f_c <= f_r < worst outside, f_c < worst inside. */
  lemma AcceptedContractionImproves(fc: Ext, fr: Ext, fw: Ext, outside: bool)
    requires outside ==> Lt(fr, fw) && Le(fc, fr)
    requires !outside ==> Lt(fc, fw)
    ensures SortLt(fc, fw)
  {
    if outside {
      LeIsSortLe(fc, fr);
      LtIsSortLt(fr, fw);
      SortLeLt(fc, fr, fw);
    } else {
      LtIsSortLt(fc, fw);
    }
  }

  /** `simplex[worst] = x; f_simplex[worst] = fx`. */
  method Replace<A>(f: (A, seq<real>) --> Ext, args: A, rows: seq<seq<real>>, fs: seq<Ext>, order: seq<nat>,
                 x: seq<real>, fx: Ext, lower: seq<real>, upper: seq<real>)
    returns (rows': seq<seq<real>>, fs': seq<Ext>)
    requires Evaluated(rows, fs, f, args, lower, upper) && IsArgsort(order, fs)
    requires |x| == |rows| - 1 && InBox(x, lower, upper) && f.requires(args, x) && fx == f(args, x)
    requires SortLt(fx, fs[order[|order| - 1]])
    ensures Evaluated(rows', fs', f, args, lower, upper)
    ensures ReplacedWorst(rows, fs, rows', fs', order, x, fx)
  {
    var worst := order[|order| - 1];
    rows' := rows[worst := x];
    fs' := fs[worst := fx];
  }

  /** Step 6: move every vertex but the best towards it, clip it and evaluate it again. */
  method ShrinkAll<A>(f: (A, seq<real>) --> Ext, args: A, rows: seq<seq<real>>, fs: seq<Ext>, order: seq<nat>,
                   sigma: real, lower: seq<real>, upper: seq<real>)
    returns (rows': seq<seq<real>>, fs': seq<Ext>)
    requires Evaluated(rows, fs, f, args, lower, upper) && IsArgsort(order, fs)
    requires BoxOk(lower, upper, |rows| - 1) && DefinedOn(f, args, |rows| - 1, lower, upper)
    ensures Evaluated(rows', fs', f, args, lower, upper)
    ensures Shrunk(rows, fs, rows', fs', order, sigma, lower, upper)
  {
    var n := |rows| - 1;
    var best := order[0];
    var b := rows[best];
    rows', fs' := rows, fs;
    var t := 1;
    while t <= n
      invariant 1 <= t <= n + 1
      invariant Evaluated(rows', fs', f, args, lower, upper) && |rows'| == |rows|
      invariant rows'[best] == b && fs'[best] == fs[best]
      invariant forall s :: 1 <= s < t ==> rows'[order[s]] == Clip(Toward(b, rows[order[s]], sigma), lower, upper)
      invariant forall s :: t <= s <= n ==> rows'[order[s]] == rows[order[s]]
    {
      var i := order[t];
      assert forall s :: 0 <= s <= n && s != t ==> order[s] != i;
      var x := Clip(Toward(b, rows'[i], sigma), lower, upper);
      var fx := f(args, x);
      rows' := rows'[i := x];
      fs' := fs'[i := fx];
      t := t + 1;
    }
    forall k | 0 <= k <= n && k != best
      ensures rows'[k] == Clip(Toward(b, rows[k], sigma), lower, upper)
    {
      assert k in order;
      var s :| 0 <= s < |order| && order[s] == k;
    }
  }

  // ---------------------------------------------------------------- the method

  /** `results(x, fun, nit, simplex)`. */
  datatype Result = Result(x: seq<real>, fun: Ext, nit: nat, simplex: seq<seq<real>>)

  /**
   * nelder_mead_theta with bounds: minimise f from x0 inside [lower, upper]
   * for at most maxIter iterations, stopping early once the standard
   * deviation of the vertex values is below tolStd.  The result is the vertex
   * that was best at the start of the last iteration, its value and the
   * number of iterations begun; `stopped` tells whether the stopping test
   * ended the loop, and then the result is a best vertex of the final simplex.
   * values are the vertex values of the final simplex.
   */
  method Minimize<A>(f: (A, seq<real>) --> Ext, args: A, x0: seq<real>, lower: seq<real>, upper: seq<real>,
                  initStep: real, zeroPert: real, co0: Coeffs, maxIter: nat, tolStd: real, adaptive: bool)
    returns (res: Result, stopped: bool, ghost values: seq<Ext>)
    requires |x0| >= 1 && BoxOk(lower, upper, |x0|) && DefinedOn(f, args, |x0|, lower, upper)
    requires maxIter >= 1
    ensures |res.simplex| == |x0| + 1
    ensures forall j :: 0 <= j < |res.simplex| ==>
      |res.simplex[j]| == |x0| && InBox(res.simplex[j], lower, upper)
    ensures |res.x| == |x0| && InBox(res.x, lower, upper) && res.x in res.simplex
    ensures res.fun == f(args, res.x)
    ensures 1 <= res.nit <= maxIter
    ensures !stopped ==> res.nit == maxIter
    ensures Evaluated(res.simplex, values, f, args, lower, upper)
    ensures stopped ==> StdBelow(values, tolStd)
    ensures stopped ==> forall j :: 0 <= j < |res.simplex| ==> SortLe(res.fun, f(args, res.simplex[j]))
  {
    var n := |x0|;
    var co := Coefficients(co0, n, adaptive);
    var simplex := InitialSimplex(Clip(x0, lower, upper), lower, upper, zeroPert, initStep);
    var fs := EvaluateAll(f, args, simplex, lower, upper);
    var it := 0;
    var nit := maxIter;
    var best := 0;
    stopped := false;
    while it < maxIter
      invariant 0 <= it <= maxIter && 0 <= best <= n && nit == maxIter && !stopped
      invariant Evaluated(simplex, fs, f, args, lower, upper) && |simplex| == n + 1 && |fs| == n + 1
    {
      var order := ArgSort(fs);
      best := order[0];
      if StdBelow(fs, tolStd) {
        ArgsortFirstIsMin(order, fs);
        nit, stopped := it + 1, true;
        break;
      }
      var move, xt, ft;
      simplex, fs, move, xt, ft := Iteration(f, args, simplex, fs, order, lower, upper, co);
      it := it + 1;
    }
    res := Result(simplex[best], fs[best], nit, simplex);
    values := fs;
  }

  /** `f_simplex[j] = fn(simplex[j])` for every vertex. */
  method EvaluateAll<A>(f: (A, seq<real>) --> Ext, args: A, rows: seq<seq<real>>, lower: seq<real>, upper: seq<real>)
    returns (fs: seq<Ext>)
    requires |rows| >= 2 && DefinedOn(f, args, |rows| - 1, lower, upper)
    requires forall j :: 0 <= j < |rows| ==> |rows[j]| == |rows| - 1 && InBox(rows[j], lower, upper)
    ensures Evaluated(rows, fs, f, args, lower, upper)
  {
    fs := [];
    var j := 0;
    while j < |rows|
      invariant 0 <= j <= |rows| && |fs| == j
      invariant forall t :: 0 <= t < j ==> f.requires(args, rows[t]) && fs[t] == f(args, rows[t])
    {
      fs := fs + [f(args, rows[j])];
      j := j + 1;
    }
  }
}
