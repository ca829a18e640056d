/**
  The numeric primitives the ray tracer borrows from the JavaScript `Math`
  object. The model computes over exact `real`s; `Math.sqrt`, `Math.cos` and
  `Math.sin` have no closed form there, so they are passed around as a record
  of functions, and `Lawful` states the only facts the proofs rely on.
 */
module Maths {

  /** The library functions the source calls but whose values are not modelled. */
  datatype MathLib = MathLib(sqrt: real -> real, cos: real -> real, sin: real -> real)

  /** The facts about `Math.sqrt`, `Math.cos` and `Math.sin` the proofs use, and no more. */
  ghost predicate Lawful(m: MathLib)
  {
    && (forall x :: 0.0 <= x ==> 0.0 <= m.sqrt(x) && m.sqrt(x) * m.sqrt(x) == x)
    && m.cos(0.0) == 1.0
    && m.sin(0.0) == 0.0
    && (forall angle :: m.cos(angle) * m.cos(angle) + m.sin(angle) * m.sin(angle) == 1.0)
  }

  /** `Math.max(a, b)` on two reals. */
  function Max(a: real, b: real): (r: real)
    ensures r >= a && r >= b
    ensures r == a || r == b
  {
    if a >= b then a else b
  }

  /** `Math.min(a, b)` on two reals. */
  function Min(a: real, b: real): (r: real)
    ensures r <= a && r <= b
    ensures r == a || r == b
  {
    if a <= b then a else b
  }

  /**
    `Math.pow(base, n)` for a whole exponent, which is the only way the tracer
    calls it; over the reals this is exact repeated multiplication. A base in
    the unit interval keeps every power in the unit interval.
   */
  function Pow(base: real, n: nat): (r: real)
    ensures n == 0 ==> r == 1.0
    ensures 0.0 <= base <= 1.0 ==> 0.0 <= r <= 1.0
    ensures 0.0 <= base <= 1.0 && 0 < n ==> r <= base
  {
    if n == 0 then 1.0
    else
      var rest := Pow(base, n - 1);
      if 0.0 <= base <= 1.0 then UnitIntervalProduct(base, rest); base * rest
      else base * rest
  }

  /** The product of two numbers in [0, 1] lies in [0, 1] and is at most either factor. */
  lemma UnitIntervalProduct(a: real, b: real)
    requires 0.0 <= a <= 1.0 && 0.0 <= b <= 1.0
    ensures 0.0 <= a * b <= a && a * b <= b
  {
    assert a * b <= a * 1.0;
    assert a * b <= 1.0 * b;
  }

  /** A square is never negative, and is positive for every non-zero number. */
  lemma SquareNonNegative(u: real)
    ensures 0.0 <= u * u
    ensures u != 0.0 ==> 0.0 < u * u
  {
    if u < 0.0 {
      assert u * u == (-u) * (-u);
    }
  }

  /** Comparing non-negative numbers is the same as comparing their squares. */
  lemma SquareMonotone(u: real, v: real)
    requires 0.0 <= u && 0.0 <= v
    ensures u < v <==> u * u < v * v
  {
    var uu, uv, vv := u * u, u * v, v * v;
    if u < v {
      assert uu <= uv;
      assert uv < vv by { assert (v - u) * v > 0.0; }
    } else {
      assert vv <= uv;
      assert uv <= uu;
    }
  }
}
