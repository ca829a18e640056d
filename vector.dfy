/**
  Immutable 3-vectors (Vector.js). A vector serves as a point, a direction
  and an RGB colour alike. Every operation builds a new value.
 */
module Vectors {
  import opened Maths

  datatype Vector = Vector(x: real, y: real, z: real)

  const Zero := Vector(0.0, 0.0, 0.0)

  /** `v.subtract(w)`: componentwise difference. */
  function Subtract(v: Vector, w: Vector): (r: Vector)
    ensures r == Zero <==> v == w
  {
    Vector(v.x - w.x, v.y - w.y, v.z - w.z)
  }

  /** `v.add(w)`: componentwise sum; subtracting `w` again gives `v` back. */
  function Add(v: Vector, w: Vector): (r: Vector)
    ensures Subtract(r, w) == v
    ensures Subtract(r, v) == w
  {
    Vector(v.x + w.x, v.y + w.y, v.z + w.z)
  }

  /** `v.scalar(k)`: every component multiplied by `k`. */
  function Scalar(v: Vector, k: real): (r: Vector)
    ensures k == 1.0 ==> r == v
    ensures k == 0.0 ==> r == Zero
    ensures v == Zero ==> r == Zero
  {
    Vector(v.x * k, v.y * k, v.z * k)
  }

  /** `v.dotProduct(w)`. */
  function Dot(v: Vector, w: Vector): (r: real)
  {
    v.x * w.x + v.y * w.y + v.z * w.z
  }

  /** `v.length()`: the square root of `v·v`. */
  function Length(m: MathLib, v: Vector): (r: real)
    ensures Lawful(m) ==> 0.0 <= r && r * r == Dot(v, v)
  {
    SqrtOfDot(m, v);
    m.sqrt(Dot(v, v))
  }

  /**
    `v.unit()`: `v` scaled by the reciprocal of its length. The source divides
    by zero on the zero vector (every component becomes NaN); the model returns
    the zero vector there instead.
   */
  function Unit(m: MathLib, v: Vector): (r: Vector)
    ensures Lawful(m) && v != Zero ==>
      0.0 < Length(m, v) && r == Scalar(v, 1.0 / Length(m, v)) && Dot(r, r) == 1.0
  {
    var len := Length(m, v);
    DotSelfNonNegative(v);
    if len == 0.0 then Zero
    else
      var r := Scalar(v, 1.0 / len);
      UnitHasLengthOne(m, v, len, r);
      r
  }

  /**
    `v.rotateY(angle)`: the rows of the rotation matrix about the vertical axis,
    each dotted with `v`.
   */
  function RotateY(m: MathLib, v: Vector, angle: real): (r: Vector)
    ensures r.y == v.y
    ensures Lawful(m) ==> r.x * r.x + r.z * r.z == v.x * v.x + v.z * v.z
    ensures Lawful(m) && angle == 0.0 ==> r == v
  {
    var rotMatrix := [
      Vector(m.cos(angle), 0.0, m.sin(angle)),
      Vector(0.0, 1.0, 0.0),
      Vector(-m.sin(angle), 0.0, m.cos(angle))
    ];
    var r := Vector(Dot(v, rotMatrix[0]), Dot(v, rotMatrix[1]), Dot(v, rotMatrix[2]));
    RotationKeepsHorizontalLength(m, v.x, v.z, angle);
    r
  }

  lemma SqrtOfDot(m: MathLib, v: Vector)
    ensures Lawful(m) ==> 0.0 <= m.sqrt(Dot(v, v)) && m.sqrt(Dot(v, v)) * m.sqrt(Dot(v, v)) == Dot(v, v)
  {
    DotSelfNonNegative(v);
  }

  lemma DotSymmetric(v: Vector, w: Vector)
    ensures Dot(v, w) == Dot(w, v)
  {
  }

  /** Vector addition is associative and commutative and has `Zero` as its unit. */
  lemma AddLaws(u: Vector, v: Vector, w: Vector)
    ensures Add(Add(u, v), w) == Add(u, Add(v, w))
    ensures Add(u, v) == Add(v, u)
    ensures Add(u, Zero) == u
  {
  }

  /** Scaling twice is scaling once by the product of the factors. */
  lemma ScalarCompose(v: Vector, j: real, k: real)
    ensures Scalar(Scalar(v, j), k) == Scalar(v, j * k)
  {
  }

  /** Adding one more copy of `v` to `v` scaled by `n` scales it by `n + 1`. */
  lemma ScalarStep(v: Vector, n: real)
    ensures Add(v, Scalar(v, n)) == Scalar(v, n + 1.0)
  {
  }

  /** Moving a term to the end of a sum of four vectors. */
  lemma AddRearrange(a: Vector, b: Vector, c: Vector, d: Vector)
    ensures Add(Add(Add(a, b), c), d) == Add(a, Add(Add(b, d), c))
  {
  }

  /** Swapping the middle terms of a sum of two sums. */
  lemma AddInterchange(a: Vector, b: Vector, c: Vector, d: Vector)
    ensures Add(Add(a, b), Add(c, d)) == Add(Add(a, c), Add(b, d))
  {
  }

  /** The sum of a sequence of vectors, first element outermost. */
  function Sum(vs: seq<Vector>): Vector
  {
    if |vs| == 0 then Zero else Add(vs[0], Sum(vs[1..]))
  }

  /** The sum of the vectors of `vs`, each with `r` added to it. */
  function SumWith(vs: seq<Vector>, r: Vector): Vector
  {
    if |vs| == 0 then Zero else Add(Add(vs[0], r), SumWith(vs[1..], r))
  }

  /** Summing a sequence with one more vector in front adds that vector. */
  lemma SumCons(v: Vector, vs: seq<Vector>)
    ensures Sum([v] + vs) == Add(v, Sum(vs))
  {
    assert ([v] + vs)[1..] == vs;
  }

  /** The same for `SumWith`. */
  lemma SumWithCons(v: Vector, vs: seq<Vector>, r: Vector)
    ensures SumWith([v] + vs, r) == Add(Add(v, r), SumWith(vs, r))
  {
    assert ([v] + vs)[1..] == vs;
  }

  /** Adding `r` to each of `k` summands adds `r` scaled by `k` to the sum. */
  lemma {:induction false} SharedSummand(vs: seq<Vector>, r: Vector)
    ensures SumWith(vs, r) == Add(Sum(vs), Scalar(r, |vs| as real))
  {
    if |vs| == 0 {
      assert Scalar(r, 0.0) == Zero;
    } else {
      SharedSummand(vs[1..], r);
      var n := |vs[1..]| as real;
      assert |vs| as real == n + 1.0;
      AddInterchange(vs[0], r, Sum(vs[1..]), Scalar(r, n));
      ScalarStep(r, n);
    }
  }

  /** The dot product is linear in its first argument. */
  lemma DotScaledSum(v: Vector, u: Vector, k: real, w: Vector)
    ensures Dot(Add(Scalar(v, k), u), w) == k * Dot(v, w) + Dot(u, w)
  {
  }

  /** `v·v` is a sum of squares: never negative, and positive unless `v` is zero. */
  lemma DotSelfNonNegative(v: Vector)
    ensures 0.0 <= Dot(v, v)
    ensures v != Zero ==> 0.0 < Dot(v, v)
  {
    SquareNonNegative(v.x);
    SquareNonNegative(v.y);
    SquareNonNegative(v.z);
    if v.x != 0.0 {
      InverseSquare(v.x);
    } else if v.y != 0.0 {
      InverseSquare(v.y);
    } else if v.z != 0.0 {
      InverseSquare(v.z);
    }
  }

  /** A non-zero square times the square of the reciprocal is one. */
  lemma InverseSquare(u: real)
    requires u != 0.0
    ensures (u * u) * ((1.0 / u) * (1.0 / u)) == 1.0 && 0.0 <= (1.0 / u) * (1.0 / u)
  {
    var k := 1.0 / u;
    assert u * k == 1.0;
    SquareNonNegative(k);
  }

  /** Scaling multiplies the dot product by the squares of the factor. */
  lemma DotScalar(v: Vector, k: real)
    ensures Dot(Scalar(v, k), Scalar(v, k)) == k * k * Dot(v, v)
  {
  }

  lemma UnitHasLengthOne(m: MathLib, v: Vector, len: real, r: Vector)
    requires len == Length(m, v) && len != 0.0 && r == Scalar(v, 1.0 / len)
    ensures Lawful(m) ==> Dot(r, r) == 1.0
  {
    if !Lawful(m) { return; }
    var k := 1.0 / len;
    DotScalar(v, k);
    assert k * len == 1.0;
    assert Dot(r, r) == k * k * (len * len);
    assert k * k * (len * len) == (k * len) * (k * len);
  }

  lemma RotationKeepsHorizontalLength(m: MathLib, x: real, z: real, angle: real)
    ensures Lawful(m) ==>
      var c, s := m.cos(angle), m.sin(angle);
      (x * c + z * s) * (x * c + z * s) + (-x * s + z * c) * (-x * s + z * c) == x * x + z * z
  {
    if !Lawful(m) { return; }
    var c, s := m.cos(angle), m.sin(angle);
    assert c * c + s * s == 1.0;
    calc {
      (x * c + z * s) * (x * c + z * s) + (-x * s + z * c) * (-x * s + z * c);
      x * x * (c * c + s * s) + z * z * (s * s + c * c);
      x * x + z * z;
    }
  }
}
