/**
  The quadratic that both sphere intersection tests solve. A ray
  `origin + t·direction` meets a sphere with the given centre and radius
  exactly where `a·t² + b·t + c = 0`, with `p = origin - centre`,
  `a = direction·direction`, `b = 2·(p·direction)` and `c = p·p - radius²`.
 */
module Quadratics {
  import opened Maths
  import opened Vectors

  datatype Quadratic = Quadratic(a: real, b: real, c: real)

  function Eval(q: Quadratic, t: real): real
  {
    q.a * t * t + q.b * t + q.c
  }

  function Discriminant(q: Quadratic): real
  {
    q.b * q.b - 4.0 * q.a * q.c
  }

  /** The coefficients the sources compute from the ray and the sphere. */
  function RayQuadratic(centre: Vector, radius: real, origin: Vector, direction: Vector): Quadratic
  {
    var p := Subtract(origin, centre);
    Quadratic(Dot(direction, direction), 2.0 * Dot(p, direction), Dot(p, p) - radius * radius)
  }

  /** `(-b - √d) / 2a`, the root the sources try first. */
  function NearRoot(m: MathLib, q: Quadratic): real
    requires q.a != 0.0 && 0.0 <= Discriminant(q)
  {
    (-q.b - m.sqrt(Discriminant(q))) / (2.0 * q.a)
  }

  /** `(-b + √d) / 2a`, the root tried second. */
  function FarRoot(m: MathLib, q: Quadratic): real
    requires q.a != 0.0 && 0.0 <= Discriminant(q)
  {
    (-q.b + m.sqrt(Discriminant(q))) / (2.0 * q.a)
  }

  /** Evaluating the ray's quadratic at `t` measures how far the point at `t` is from the surface. */
  lemma EvalIsSurfaceOffset(centre: Vector, radius: real, origin: Vector, direction: Vector, t: real)
    ensures var pt := Add(origin, Scalar(direction, t));
      Eval(RayQuadratic(centre, radius, origin, direction), t)
      == Dot(Subtract(pt, centre), Subtract(pt, centre)) - radius * radius
  {
    var p := Subtract(origin, centre);
    var pt := Add(origin, Scalar(direction, t));
    var e := Subtract(pt, centre);
    assert e == Vector(p.x + t * direction.x, p.y + t * direction.y, p.z + t * direction.z);
    var ex := ExpandSquare(p.x, direction.x, t);
    var ey := ExpandSquare(p.y, direction.y, t);
    var ez := ExpandSquare(p.z, direction.z, t);
    assert Dot(e, e) == ex + ey + ez;
    assert Dot(p, p) == p.x * p.x + p.y * p.y + p.z * p.z;
    assert Dot(p, direction) == p.x * direction.x + p.y * direction.y + p.z * direction.z;
    assert Dot(direction, direction) == direction.x * direction.x + direction.y * direction.y + direction.z * direction.z;
  }

  /** `(p + t·d)²` expanded; returns the square so that callers can name it. */
  lemma ExpandSquare(p: real, d: real, t: real) returns (sq: real)
    ensures sq == (p + t * d) * (p + t * d)
    ensures sq == p * p + 2.0 * (p * d) * t + (d * d) * t * t
  {
    sq := (p + t * d) * (p + t * d);
  }

  /** Both roots solve the quadratic. */
  lemma RootsSolve(m: MathLib, q: Quadratic)
    requires Lawful(m) && q.a != 0.0 && 0.0 <= Discriminant(q)
    ensures Eval(q, NearRoot(m, q)) == 0.0
    ensures Eval(q, FarRoot(m, q)) == 0.0
  {
    var s := m.sqrt(Discriminant(q));
    assert s * s == Discriminant(q);
    RootAlgebra(q, s);
  }

  /** `(-b ± s) / 2a` solves the quadratic whenever `s² = b² - 4ac`. */
  lemma RootAlgebra(q: Quadratic, s: real)
    requires q.a != 0.0 && s * s == Discriminant(q)
    ensures Eval(q, (-q.b - s) / (2.0 * q.a)) == 0.0
    ensures Eval(q, (-q.b + s) / (2.0 * q.a)) == 0.0
  {
    SignedRootAlgebra(q.a, q.b, q.c, -s);
    SignedRootAlgebra(q.a, q.b, q.c, s);
    assert -q.b - s == -q.b + -s;
  }

  lemma SignedRootAlgebra(a: real, b: real, c: real, s: real)
    requires a != 0.0
    requires s * s == b * b - 4.0 * a * c
    ensures var t := (-b + s) / (2.0 * a); a * t * t + b * t + c == 0.0
  {
    var t := (-b + s) / (2.0 * a);
    var u := 2.0 * a * t;
    assert u == -b + s;
    calc {
      4.0 * a * (a * t * t + b * t + c);
      u * u + 2.0 * b * u + 4.0 * a * c;
      (s - b) * (s - b) + 2.0 * b * (s - b) + 4.0 * a * c;
      s * s - b * b + 4.0 * a * c;
      0.0;
    }
  }

  /** With `a > 0` the near root never exceeds the far root. */
  lemma NearBeforeFar(m: MathLib, q: Quadratic)
    requires Lawful(m) && 0.0 < q.a && 0.0 <= Discriminant(q)
    ensures NearRoot(m, q) <= FarRoot(m, q)
  {
    var s := m.sqrt(Discriminant(q));
    assert 0.0 <= s;
    var k := 1.0 / (2.0 * q.a);
    assert 0.0 < k;
    assert NearRoot(m, q) == (-q.b - s) * k;
    assert FarRoot(m, q) == (-q.b + s) * k;
    assert (-q.b + s) * k - (-q.b - s) * k == 2.0 * s * k;
    assert 0.0 <= s * k;
  }

  /** The near and far roots are the only solutions of the quadratic. */
  lemma OnlyRoots(m: MathLib, q: Quadratic, u: real)
    requires Lawful(m) && q.a != 0.0 && 0.0 <= Discriminant(q)
    requires Eval(q, u) == 0.0
    ensures u == NearRoot(m, q) || u == FarRoot(m, q)
  {
    var s := m.sqrt(Discriminant(q));
    assert s * s == Discriminant(q);
    var n, f := (-q.b - s) / (2.0 * q.a), (-q.b + s) / (2.0 * q.a);
    RootRelations(q, s, n, f);
    Factored(q, n, f, u);
  }

  /** The sum and the product of the two roots, read off the coefficients. */
  lemma RootRelations(q: Quadratic, s: real, n: real, f: real)
    requires q.a != 0.0 && s * s == Discriminant(q)
    requires n == (-q.b - s) / (2.0 * q.a) && f == (-q.b + s) / (2.0 * q.a)
    ensures q.a * (n + f) == -q.b
    ensures q.a * (n * f) == q.c
  {
    assert 2.0 * q.a * n == -q.b - s;
    assert 2.0 * q.a * f == -q.b + s;
    assert (2.0 * q.a * n) * (2.0 * q.a * f) == (-q.b - s) * (-q.b + s);
    assert 4.0 * q.a * q.a * (n * f) == 4.0 * q.a * q.c;
  }

  /** A quadratic with known root sum and product vanishes only at those roots. */
  lemma Factored(q: Quadratic, n: real, f: real, u: real)
    requires q.a != 0.0 && q.a * (n + f) == -q.b && q.a * (n * f) == q.c
    requires Eval(q, u) == 0.0
    ensures u == n || u == f
  {
    assert q.a * ((u - n) * (u - f)) == q.a * (u * u) - q.a * (n + f) * u + q.a * (n * f);
    assert q.a * ((u - n) * (u - f)) == Eval(q, u);
    assert (u - n) * (u - f) == 0.0;
  }

  /** A negative discriminant leaves the quadratic without any real root. */
  lemma NoRootWhenNegative(q: Quadratic, u: real)
    requires q.a != 0.0 && Discriminant(q) < 0.0
    ensures Eval(q, u) != 0.0
  {
    var w := 2.0 * q.a * u + q.b;
    assert 4.0 * q.a * Eval(q, u) == w * w - Discriminant(q);
    SquareNonNegative(w);
  }

  /**
    A ray starting strictly inside the sphere (`c < 0`) has its near root
    behind the origin and its far root in front of it.
   */
  lemma InsideRoots(m: MathLib, q: Quadratic)
    requires Lawful(m) && 0.0 < q.a && q.c < 0.0
    ensures 0.0 <= Discriminant(q)
    ensures NearRoot(m, q) < 0.0 < FarRoot(m, q)
  {
    var d := Discriminant(q);
    assert 0.0 < q.a * (-q.c);
    SquareNonNegative(q.b);
    assert q.b * q.b < d;
    var s := m.sqrt(d);
    assert 0.0 <= s && s * s == d;
    var ab := if q.b < 0.0 then -q.b else q.b;
    assert ab * ab == q.b * q.b;
    SquareMonotone(ab, s);
    assert ab < s;
    var k := 1.0 / (2.0 * q.a);
    assert 0.0 < k;
    assert NearRoot(m, q) == (-q.b - s) * k;
    assert FarRoot(m, q) == (-q.b + s) * k;
  }
}
