/**
 * Accumulated alignment costs: the `double` values of the DTW table, taken as
 * exact reals extended with the +infinity that marks an unreachable cell, and
 * `Math.Round(value, 1)` (round half to even at one decimal place).
 */
module Costs {

  datatype Cost = Fin(v: real) | Inf

  /** `a <= b`, with +infinity above every finite value. */
  predicate Le(a: Cost, b: Cost)
  {
    b.Inf? || (a.Fin? && a.v <= b.v)
  }

  /** `a < b`; +infinity is below nothing, so `Inf < Inf` is false. */
  predicate Lt(a: Cost, b: Cost)
  {
    a.Fin? && (b.Inf? || a.v < b.v)
  }

  predicate NonNegative(a: Cost)
  {
    a.Inf? || a.v >= 0.0
  }

  /** IEEE addition of non-NaN values: +infinity absorbs everything. */
  function Add(a: Cost, b: Cost): (r: Cost)
    ensures r.Fin? <==> a.Fin? && b.Fin?
    ensures r.Fin? ==> r.v == a.v + b.v
  {
    if a.Fin? && b.Fin? then Fin(a.v + b.v) else Inf
  }

  /** `Math.Min`: the smaller of the two values. */
  function Min(a: Cost, b: Cost): (r: Cost)
    ensures Le(r, a) && Le(r, b)
    ensures r == a || r == b
  {
    if Le(a, b) then a else b
  }

  /** The integer nearest to `y`; a tie goes to the even neighbour. */
  function RoundHalfEven(y: real): (n: int)
    ensures y - 0.5 <= n as real <= y + 0.5
  {
    var f := y.Floor;
    var frac := y - f as real;
    if frac < 0.5 then f
    else if frac > 0.5 then f + 1
    else if f % 2 == 0 then f
    else f + 1
  }

  /** `Math.Round(x, 1)` on an exact real. */
  function RoundTenths(x: real): (r: real)
    ensures x - 0.05 <= r <= x + 0.05
  {
    RoundHalfEven(x * 10.0) as real / 10.0
  }

  /** `Math.Round(c, 1)`; +infinity stays +infinity. */
  function Round(c: Cost): (r: Cost)
    ensures r.Fin? <==> c.Fin?
    ensures c.Fin? ==> c.v - 0.05 <= r.v <= c.v + 0.05
  {
    match c
    case Inf => Inf
    case Fin(v) => Fin(RoundTenths(v))
  }

  lemma RoundHalfEvenMonotone(y1: real, y2: real)
    requires y1 <= y2
    ensures RoundHalfEven(y1) <= RoundHalfEven(y2)
  {
    var f1, f2 := y1.Floor, y2.Floor;
    assert f1 <= f2;
    if f1 < f2 {
      assert RoundHalfEven(y1) <= f1 + 1 <= f2 <= RoundHalfEven(y2);
    }
  }

  /** Rounding never reverses the order of two costs. */
  lemma RoundMonotone(a: Cost, b: Cost)
    requires Le(a, b)
    ensures Le(Round(a), Round(b))
  {
    if a.Fin? && b.Fin? {
      RoundHalfEvenMonotone(a.v * 10.0, b.v * 10.0);
    }
  }

  /** Rounding keeps zero and keeps non-negative costs non-negative. */
  lemma RoundZeroAndNonNegative(a: Cost)
    ensures Round(Fin(0.0)) == Fin(0.0)
    ensures NonNegative(a) ==> NonNegative(Round(a))
  {
    assert RoundHalfEven(0.0) == 0;
    if a.Fin? && a.v >= 0.0 {
      RoundMonotone(Fin(0.0), a);
    }
  }
}
