/**
  The older sphere primitive of objects.js: its constructor takes the colour
  as a ready-made vector and there is no `shiny` flag, and its intersection
  test reports the near root only (the far-root branch is commented out).
 */
module LegacySpheres {
  import opened Maths
  import opened Wrappers
  import opened Vectors
  import opened Quadratics
  import Spheres

  datatype Sphere = Sphere(centre: Vector, radius: real, colour: Vector)

  /** `new Sphere(x, y, z, radius, colour)`. */
  function NewSphere(x: real, y: real, z: real, radius: real, colour: Vector): (s: Sphere)
    ensures s.centre == Vector(x, y, z) && s.radius == radius && s.colour == colour
  {
    Sphere(Vector(x, y, z), radius, colour)
  }

  function Coefficients(s: Sphere, origin: Vector, direction: Vector): Quadratic
  {
    RayQuadratic(s.centre, s.radius, origin, direction)
  }

  /**
    `sphere.intersection(origin, direction)` of objects.js: the near root when
    it lies beyond `NEAR_EPSILON`, otherwise `None` (NaN in the source). As in
    Objects.js, a zero direction divides 0 by 0 and yields NaN.
   */
  function Intersection(m: MathLib, s: Sphere, origin: Vector, direction: Vector): (r: Option<real>)
    ensures Discriminant(Coefficients(s, origin, direction)) < 0.0 ==> r == None
    ensures r.Some? ==>
      var q := Coefficients(s, origin, direction);
      q.a != 0.0 && 0.0 <= Discriminant(q)
      && r.value == NearRoot(m, q) && Spheres.NEAR_EPSILON < r.value
    ensures var q := Coefficients(s, origin, direction);
      q.a != 0.0 && 0.0 <= Discriminant(q) && NearRoot(m, q) > Spheres.NEAR_EPSILON ==> r == Some(NearRoot(m, q))
  {
    var q := Coefficients(s, origin, direction);
    if Discriminant(q) < 0.0 || q.a == 0.0 then None
    else if NearRoot(m, q) > Spheres.NEAR_EPSILON then Some(NearRoot(m, q))
    else None
  }

  /** A reported distance solves the ray's quadratic, so the hit point is on the surface. */
  lemma HitLiesOnSphere(m: MathLib, s: Sphere, origin: Vector, direction: Vector)
    requires Lawful(m) && Intersection(m, s, origin, direction).Some?
    ensures var t := Intersection(m, s, origin, direction).value;
      var pt := Add(origin, Scalar(direction, t));
      Eval(Coefficients(s, origin, direction), t) == 0.0
      && Dot(Subtract(pt, s.centre), Subtract(pt, s.centre)) == s.radius * s.radius
  {
    var t := Intersection(m, s, origin, direction).value;
    RootsSolve(m, Coefficients(s, origin, direction));
    EvalIsSurfaceOffset(s.centre, s.radius, origin, direction, t);
  }

  /**
    Without the far-root branch, a ray whose origin is strictly inside the
    sphere (`c < 0`) never reports a hit: its near root is behind the origin.
   */
  lemma InsideRayNeverHits(m: MathLib, s: Sphere, origin: Vector, direction: Vector)
    requires Lawful(m)
    requires var q := Coefficients(s, origin, direction); 0.0 < q.a && q.c < 0.0
    ensures Intersection(m, s, origin, direction) == None
  {
    InsideRoots(m, Coefficients(s, origin, direction));
  }

  /**
    The two variants agree except where Objects.js falls back to the far root:
    every hit of this test is a hit of Objects.js at the same distance, and a
    hit of Objects.js that this test misses is the far root.
   */
  lemma AgreesWithFarRootVariant(m: MathLib, s: Sphere, shiny: bool, origin: Vector, direction: Vector)
    ensures var s' := Spheres.Sphere(s.centre, s.radius, s.colour, shiny);
      var legacy := Intersection(m, s, origin, direction);
      var current := Spheres.Intersection(m, s', origin, direction);
      && (legacy.Some? ==> current == legacy)
      && (legacy.None? && current.Some? ==>
            var q := Coefficients(s, origin, direction);
            q.a != 0.0 && 0.0 <= Discriminant(q) && current.value == FarRoot(m, q))
  {
    var s' := Spheres.Sphere(s.centre, s.radius, s.colour, shiny);
    assert Spheres.Coefficients(s', origin, direction) == Coefficients(s, origin, direction);
  }
}
