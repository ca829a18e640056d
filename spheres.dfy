/**
  The sphere primitive of Objects.js, the variant the tracer uses: it carries
  a `shiny` flag, and its intersection test falls back to the far root of the
  ray's quadratic when the near root is not in front of the origin.
 */
module Spheres {
  import opened Maths
  import opened Wrappers
  import opened Vectors
  import opened Quadratics

  /** A near root at or below this distance counts as the ray's own origin. */
  const NEAR_EPSILON: real := 0.00001
  /** The far root must clear this larger distance. */
  const FAR_EPSILON: real := 0.01

  datatype Sphere = Sphere(centre: Vector, radius: real, colour: Vector, shiny: bool)

  /** `new Sphere(x, y, z, radius, r, g, b, shiny)`. */
  function NewSphere(x: real, y: real, z: real, radius: real, r: real, g: real, b: real, shiny: bool): (s: Sphere)
    ensures s.centre == Vector(x, y, z) && s.radius == radius
    ensures s.colour == Vector(r, g, b) && s.shiny == shiny
  {
    Sphere(Vector(x, y, z), radius, Vector(r, g, b), shiny)
  }

  function Coefficients(s: Sphere, origin: Vector, direction: Vector): Quadratic
  {
    RayQuadratic(s.centre, s.radius, origin, direction)
  }

  /**
    `sphere.intersection(origin, direction)`: the ray distance to the surface,
    or `None` where the source returns NaN. A zero direction makes `a` zero;
    the source then divides 0 by 0, gets NaN, and every comparison with it is
    false, so it also returns NaN.
   */
  function Intersection(m: MathLib, s: Sphere, origin: Vector, direction: Vector): (r: Option<real>)
    ensures Discriminant(Coefficients(s, origin, direction)) < 0.0 ==> r == None
    ensures r.Some? ==> NEAR_EPSILON < r.value
    ensures r.Some? ==> Coefficients(s, origin, direction).a != 0.0
  {
    var q := Coefficients(s, origin, direction);
    if Discriminant(q) < 0.0 || q.a == 0.0 then None
    else if NearRoot(m, q) > NEAR_EPSILON then Some(NearRoot(m, q))
    else if FarRoot(m, q) > FAR_EPSILON then Some(FarRoot(m, q))
    else None
  }

  /**
    The order in which the roots are tried: the near root whenever it is past
    `NEAR_EPSILON`, and only otherwise the far root, which must be past
    `FAR_EPSILON`.
   */
  lemma RootPolicy(m: MathLib, s: Sphere, origin: Vector, direction: Vector)
    requires var q := Coefficients(s, origin, direction); q.a != 0.0 && 0.0 <= Discriminant(q)
    ensures var q := Coefficients(s, origin, direction);
      NearRoot(m, q) > NEAR_EPSILON ==> Intersection(m, s, origin, direction) == Some(NearRoot(m, q))
    ensures var q := Coefficients(s, origin, direction);
      NearRoot(m, q) <= NEAR_EPSILON ==>
        Intersection(m, s, origin, direction) == if FarRoot(m, q) > FAR_EPSILON then Some(FarRoot(m, q)) else None
  {
  }

  /** A reported distance puts the hit point on the sphere's surface. */
  lemma HitLiesOnSphere(m: MathLib, s: Sphere, origin: Vector, direction: Vector)
    requires Lawful(m) && Intersection(m, s, origin, direction).Some?
    ensures var t := Intersection(m, s, origin, direction).value;
      var pt := Add(origin, Scalar(direction, t));
      Eval(Coefficients(s, origin, direction), t) == 0.0
      && Dot(Subtract(pt, s.centre), Subtract(pt, s.centre)) == s.radius * s.radius
  {
    var q := Coefficients(s, origin, direction);
    var t := Intersection(m, s, origin, direction).value;
    RootsSolve(m, q);
    EvalIsSurfaceOffset(s.centre, s.radius, origin, direction, t);
  }

  /**
    For a non-degenerate ray (`a > 0`) the reported distance is the nearest
    surface point beyond `NEAR_EPSILON`: no root of the quadratic lies strictly
    between `NEAR_EPSILON` and it.
   */
  lemma HitIsNearestRootInFront(m: MathLib, s: Sphere, origin: Vector, direction: Vector, u: real)
    requires Lawful(m) && 0.0 < Coefficients(s, origin, direction).a
    requires Intersection(m, s, origin, direction).Some?
    requires Eval(Coefficients(s, origin, direction), u) == 0.0 && NEAR_EPSILON < u
    ensures Intersection(m, s, origin, direction).value <= u
  {
    var q := Coefficients(s, origin, direction);
    OnlyRoots(m, q, u);
    NearBeforeFar(m, q);
  }

  /**
    When no distance is reported, the ray has no surface point beyond
    `FAR_EPSILON`.
   */
  lemma MissHasNoRootBeyondFarEpsilon(m: MathLib, s: Sphere, origin: Vector, direction: Vector, u: real)
    requires Lawful(m) && 0.0 < Coefficients(s, origin, direction).a
    requires Intersection(m, s, origin, direction) == None
    ensures Eval(Coefficients(s, origin, direction), u) == 0.0 ==> u <= FAR_EPSILON
  {
    var q := Coefficients(s, origin, direction);
    if Discriminant(q) < 0.0 {
      NoRootWhenNegative(q, u);
    } else if Eval(q, u) == 0.0 {
      OnlyRoots(m, q, u);
    }
  }

  /**
    A ray starting strictly inside the sphere (`c < 0`) leaves it through the
    far root: that root is reported whenever it exceeds `FAR_EPSILON`.
   */
  lemma InsideRayExitsThroughFarRoot(m: MathLib, s: Sphere, origin: Vector, direction: Vector)
    requires Lawful(m)
    requires var q := Coefficients(s, origin, direction); 0.0 < q.a && q.c < 0.0
    ensures var q := Coefficients(s, origin, direction);
      0.0 <= Discriminant(q) && 0.0 < FarRoot(m, q)
      && Intersection(m, s, origin, direction)
         == if FarRoot(m, q) > FAR_EPSILON then Some(FarRoot(m, q)) else None
  {
    InsideRoots(m, Coefficients(s, origin, direction));
  }
}
