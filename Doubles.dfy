/** Java `double` as far as the toolkit relies on it: a finite value or NaN.
    Arithmetic is exact on the finite values (no rounding, no overflow to
    infinity); NaN absorbs every operation and makes every comparison false. */
module Doubles {

  datatype Double = Fin(v: real) | NaN

  const Zero: Double := Fin(0.0)
  const One: Double := Fin(1.0)

  function Add(a: Double, b: Double): (r: Double)
    ensures r.Fin? <==> a.Fin? && b.Fin?
    ensures r.Fin? ==> r.v == a.v + b.v
  {
    if a.Fin? && b.Fin? then Fin(a.v + b.v) else NaN
  }

  function Mul(a: Double, b: Double): (r: Double)
    ensures r.Fin? <==> a.Fin? && b.Fin?
    ensures r.Fin? ==> r.v == a.v * b.v
  {
    if a.Fin? && b.Fin? then Fin(a.v * b.v) else NaN
  }

  /** Division by a non-zero finite divisor. */
  function Div(a: Double, d: real): (r: Double)
    requires d != 0.0
    ensures r.Fin? <==> a.Fin?
    ensures r.Fin? ==> r.v * d == a.v
  {
    if a.Fin? then Fin(a.v / d) else NaN
  }

  /** Java's `a > b`. */
  predicate Greater(a: Double, b: Double)
  {
    a.Fin? && b.Fin? && a.v > b.v
  }

  /** Java's `a < b`. */
  predicate Less(a: Double, b: Double)
  {
    a.Fin? && b.Fin? && a.v < b.v
  }

  function Zeros(n: nat): (s: seq<Double>)
    ensures |s| == n && forall i :: 0 <= i < n ==> s[i] == Zero
  {
    seq(n, _ => Zero)
  }

  function FromNats(s: seq<nat>): (r: seq<Double>)
    ensures |r| == |s| && forall i :: 0 <= i < |s| ==> r[i] == Fin(s[i] as real)
  {
    seq(|s|, i requires 0 <= i < |s| => Fin(s[i] as real))
  }

  function Pow2(e: nat): (r: nat)
    ensures r >= 1
  {
    if e == 0 then 1 else 2 * Pow2(e - 1)
  }

  /** `Double.MAX_VALUE`, the largest finite double: (2^53 - 1) * 2^971. */
  const MAX_VALUE: Double := Fin(((Pow2(53) - 1) * Pow2(971)) as real)
}
