/**
 * Extended reals: the part of IEEE double behaviour the Theta code relies on.
 * Arithmetic is exact (`real`); NaN and the two infinities are explicit
 * constructors rather than magic values, and comparisons follow IEEE rules
 * (every comparison with NaN is false).
 */
module Floats {

  /** A double as the Theta code sees it: a finite value, an infinity or NaN. */
  datatype Ext = Fin(v: real) | PosInf | NegInf | NaN

  /** TOL in theta.py: closeness tolerance for the NA sentinel and the scale guard. */
  const TOL: real := 0.0000000001
  /** NA in theta.py: the legacy "forecast invalid" sentinel value. */
  const NA: real := -99999.0
  /** HUGEN in theta.py. */
  const HUGEN: real := 10000000000.0

  function Abs(x: real): (r: real)
    ensures r >= 0.0 && (r == x || r == -x)
  {
    if x < 0.0 then -x else x
  }

  /** A square is never negative. */
  function Square(x: real): (r: real)
    ensures r >= 0.0
  {
    x * x
  }

  predicate IsNaN(a: Ext) { a.NaN? }

  /** `np.isinf`: true for both infinities. */
  predicate IsInf(a: Ext) { a.PosInf? || a.NegInf? }

  /** IEEE `a < b`. */
  predicate Lt(a: Ext, b: Ext)
  {
    match (a, b)
    case (Fin(x), Fin(y)) => x < y
    case (Fin(_), PosInf) => true
    case (NegInf, Fin(_)) => true
    case (NegInf, PosInf) => true
    case _ => false
  }

  /** IEEE `a <= b`. */
  predicate Le(a: Ext, b: Ext)
  {
    Lt(a, b) || (a == b && !a.NaN?)
  }

  /** Position of a value's class in NumPy's sort order: -inf, finite, +inf, NaN last. */
  function Rank(a: Ext): nat
  {
    match a
    case NegInf => 0
    case Fin(_) => 1
    case PosInf => 2
    case NaN => 3
  }

  /** The total preorder NumPy's `argsort` sorts by (NaN after everything else). */
  predicate SortLe(a: Ext, b: Ext)
  {
    Rank(a) < Rank(b) || (Rank(a) == Rank(b) && (a.Fin? ==> a.v <= b.v))
  }

  lemma SortLeTotal(a: Ext, b: Ext)
    ensures SortLe(a, b) || SortLe(b, a)
  {
  }

  lemma SortLeTrans(a: Ext, b: Ext, c: Ext)
    requires SortLe(a, b) && SortLe(b, c)
    ensures SortLe(a, c)
  {
  }

  /**
   * On values that are not NaN, NumPy's sort order is exactly IEEE `<=`,
   * so "first after sorting" agrees with "smallest" for NaN-free data.
   */
  lemma SortLeAgreesWithLe(a: Ext, b: Ext)
    requires !a.NaN? && !b.NaN?
    ensures SortLe(a, b) <==> Le(a, b)
  {
  }

  /** Strictly before in NumPy's sort order. */
  predicate SortLt(a: Ext, b: Ext)
  {
    !SortLe(b, a)
  }

  /** An IEEE `<` is also strictly before in the sort order. */
  lemma LtIsSortLt(a: Ext, b: Ext)
    requires Lt(a, b)
    ensures SortLt(a, b)
  {
  }

  /** An IEEE `<=` is also before-or-equal in the sort order. */
  lemma LeIsSortLe(a: Ext, b: Ext)
    requires Le(a, b)
    ensures SortLe(a, b)
  {
  }

  /** Strictly before, then before-or-equal, gives strictly before. */
  lemma SortLtLe(a: Ext, b: Ext, c: Ext)
    requires SortLt(a, b) && SortLe(b, c)
    ensures SortLt(a, c)
  {
  }

  /** Before-or-equal, then strictly before, gives strictly before. */
  lemma SortLeLt(a: Ext, b: Ext, c: Ext)
    requires SortLe(a, b) && SortLt(b, c)
    ensures SortLt(a, c)
  {
  }
}
