/**
  The recursive tracer of index.js: nearest-hit search over the scene's
  spheres, ambient, Lambert and specular shading per light with a shadow
  test, and reflection recursion bounded by `MAX_REFLECTION_ITERATIONS`.

  `TraceColour` and the functions below it state what `trace` computes; the
  method `Trace` is the loop-by-loop procedure of the source, proved to
  compute exactly that.
 */
module Tracer {
  import opened Maths
  import opened Wrappers
  import opened Vectors
  import opened Spheres

  const BACKGROUND_COLOUR: Vector := Vector(158.0, 211.0, 222.0)
  const MAX_REFLECTION_ITERATIONS: nat := 3
  const REFLECTION_INTENSITY: real := 0.55
  const DIFFUSE: real := 1.0
  const SPECULAR: real := 0.6
  /** The share of an object's colour it shows with no light at all. */
  const AMBIENT: real := 0.1
  /** Shiny objects take half of the Lambert term. */
  const SHINY_DIFFUSE: real := 0.5
  /** The exponent of the specular highlight. */
  const SHININESS: nat := 50
  const WHITE: Vector := Vector(255.0, 255.0, 255.0)

  /** The scene `trace` reads: ordered spheres and ordered point lights. */
  datatype Scene = Scene(camera: Vector, objects: seq<Sphere>, lights: seq<Vector>)

  /** `clamp(num)`: `Math.min(Math.max(num, 0), 1)`. */
  function Clamp(num: real): (r: real)
    ensures 0.0 <= r <= 1.0
    ensures 0.0 <= num <= 1.0 ==> r == num
    ensures num < 0.0 ==> r == 0.0
    ensures 1.0 < num ==> r == 1.0
  {
    Min(Max(num, 0.0), 1.0)
  }

  lemma ClampIdempotent(num: real)
    ensures Clamp(Clamp(num)) == Clamp(num)
  {
  }

  /** What `objects[i].intersection(origin, direction)` reports. */
  function HitDistance(m: MathLib, objects: seq<Sphere>, i: nat, origin: Vector, direction: Vector): Option<real>
    requires i < |objects|
  {
    Intersection(m, objects[i], origin, direction)
  }

  /** The nearest-hit loop's `closest` (as an index) and `distance`. */
  datatype Closest = Closest(index: nat, distance: real)

  /**
    The values of `closest` and `distance` once the nearest-hit loop has
    visited the first `n` objects. An object replaces the current choice only
    when its distance is strictly smaller.
   */
  function ClosestAmong(m: MathLib, objects: seq<Sphere>, origin: Vector, direction: Vector, n: nat): (r: Option<Closest>)
    requires n <= |objects|
    ensures r.Some? ==> r.value.index < n
  {
    if n == 0 then None
    else
      var best := ClosestAmong(m, objects, origin, direction, n - 1);
      var d := HitDistance(m, objects, n - 1, origin, direction);
      if d.Some? && (best.None? || d.value < best.value.distance) then Some(Closest(n - 1, d.value))
      else best
  }

  /**
    What the nearest-hit loop finds among the first `n` objects: nothing
    exactly when none of them is hit; otherwise an object that is hit at the
    recorded distance, no object is hit nearer, and every object before it is
    hit strictly farther (the first of equally near objects wins).
   */
  lemma {:induction false} ClosestIsNearest(m: MathLib, objects: seq<Sphere>, origin: Vector, direction: Vector, n: nat)
    requires n <= |objects|
    ensures var r := ClosestAmong(m, objects, origin, direction, n);
      r.None? <==> forall i :: 0 <= i < n ==> HitDistance(m, objects, i, origin, direction).None?
    ensures var r := ClosestAmong(m, objects, origin, direction, n);
      r.Some? ==> HitDistance(m, objects, r.value.index, origin, direction) == Some(r.value.distance)
    ensures var r := ClosestAmong(m, objects, origin, direction, n);
      r.Some? ==> forall i :: 0 <= i < n && HitDistance(m, objects, i, origin, direction).Some? ==>
        r.value.distance <= HitDistance(m, objects, i, origin, direction).value
    ensures var r := ClosestAmong(m, objects, origin, direction, n);
      r.Some? ==> forall i :: 0 <= i < r.value.index && HitDistance(m, objects, i, origin, direction).Some? ==>
        r.value.distance < HitDistance(m, objects, i, origin, direction).value
  {
    if n > 0 {
      ClosestIsNearest(m, objects, origin, direction, n - 1);
    }
  }

  /**
    `seenByLight` once the shadow loop has visited the first `n` objects: it
    drops to 0 at every object that reports a hit along the shadow ray.
   */
  function SeenByLight(m: MathLib, objects: seq<Sphere>, pt: Vector, lightDir: Vector, n: nat): (r: real)
    requires n <= |objects|
    ensures r == 0.0 || r == 1.0
  {
    if n == 0 then 1.0
    else if HitDistance(m, objects, n - 1, pt, lightDir).Some? then 0.0
    else SeenByLight(m, objects, pt, lightDir, n - 1)
  }

  /**
    A light is blocked (0) exactly when some object, the hit object itself
    included, reports a hit along the shadow ray; otherwise it is seen (1).
   */
  lemma {:induction false} ShadowedIffSomeHit(m: MathLib, objects: seq<Sphere>, pt: Vector, lightDir: Vector, n: nat)
    requires n <= |objects|
    ensures SeenByLight(m, objects, pt, lightDir, n) == 0.0 <==>
      exists i :: 0 <= i < n && HitDistance(m, objects, i, pt, lightDir).Some?
  {
    if n > 0 {
      ShadowedIffSomeHit(m, objects, pt, lightDir, n - 1);
    }
  }

  /** `Math.max(0, lightDir·norm)`. */
  function Lambert(lightDir: Vector, norm: Vector): (r: real)
    ensures 0.0 <= r
    ensures 0.0 <= Dot(lightDir, norm) ==> r == Dot(lightDir, norm)
  {
    Max(0.0, Dot(lightDir, norm))
  }

  /** The diffuse term added for one light, with the extra halving for shiny objects. */
  function DiffuseTerm(obj: Sphere, lambert: real, seen: real): Vector
  {
    var diffuse := Scalar(Scalar(Scalar(obj.colour, lambert), DIFFUSE), seen);
    if !obj.shiny then diffuse else Scalar(diffuse, SHINY_DIFFUSE)
  }

  /** The Blinn-Phong factor: the clamped cosine between normal and light direction, to the power `SHININESS`. */
  function Phong(m: MathLib, norm: Vector, lightDir: Vector): (r: real)
    ensures 0.0 <= r <= 1.0
  {
    Pow(Clamp(Dot(norm, Unit(m, lightDir))), SHININESS)
  }

  /** The specular highlight added for one light: white, scaled by `phong`, `SPECULAR` and the shadow flag. */
  function SpecularTerm(phong: real, seen: real): Vector
  {
    Scalar(Scalar(Scalar(WHITE, phong), SPECULAR), seen)
  }

  /** `norm.scalar(-2 * direction.dotProduct(norm)).add(direction)`. */
  function ReflectDirection(direction: Vector, norm: Vector): Vector
  {
    Add(Scalar(norm, -2.0 * Dot(direction, norm)), direction)
  }

  /** The contact point and surface normal of a hit. */
  datatype Hit = Hit(obj: Sphere, pt: Vector, norm: Vector)

  function HitAt(m: MathLib, origin: Vector, direction: Vector, obj: Sphere, distance: real): Hit
  {
    var pt := Add(origin, Scalar(direction, distance));
    Hit(obj, pt, Unit(m, Subtract(pt, obj.centre)))
  }

  /** Whether a hit spawns a reflected ray: only below the depth cap, and only on shiny objects. */
  predicate Reflects(h: Hit, depth: nat)
  {
    depth < MAX_REFLECTION_ITERATIONS && h.obj.shiny
  }

  /** How many more levels of reflection a call at `depth` may start. */
  function Budget(depth: nat): nat
  {
    if depth < MAX_REFLECTION_ITERATIONS then MAX_REFLECTION_ITERATIONS - depth else 0
  }

  /** `trace(origin, direction, depth)`. */
  function TraceColour(m: MathLib, scene: Scene, origin: Vector, direction: Vector, depth: nat): Vector
    decreases Budget(depth), 3, 0
  {
    match ClosestAmong(m, scene.objects, origin, direction, |scene.objects|)
    case None => BACKGROUND_COLOUR
    case Some(c) =>
      var h := HitAt(m, origin, direction, scene.objects[c.index], c.distance);
      ShadeLights(m, scene, direction, depth, h, Scalar(h.obj.colour, AMBIENT), 0)
  }

  /** The `scene.lights.forEach` loop, from light `j` on, starting from `colour`. */
  function ShadeLights(m: MathLib, scene: Scene, direction: Vector, depth: nat, h: Hit, colour: Vector, j: nat): Vector
    requires j <= |scene.lights|
    decreases Budget(depth), 2, |scene.lights| - j
  {
    if j == |scene.lights| then colour
    else ShadeLights(m, scene, direction, depth, h, ShadeLight(m, scene, direction, depth, h, colour, scene.lights[j]), j + 1)
  }

  /** The unit vector from the contact point towards `light`. */
  function LightDirection(m: MathLib, h: Hit, light: Vector): Vector
  {
    Unit(m, Subtract(light, h.pt))
  }

  /** The shadow flag for `light` at the contact point. */
  function Seen(m: MathLib, scene: Scene, h: Hit, light: Vector): real
  {
    SeenByLight(m, scene.objects, h.pt, LightDirection(m, h, light), |scene.objects|)
  }

  /** The diffuse term `light` adds at the hit. */
  function LightDiffuse(m: MathLib, scene: Scene, h: Hit, light: Vector): Vector
  {
    DiffuseTerm(h.obj, Lambert(LightDirection(m, h, light), h.norm), Seen(m, scene, h, light))
  }

  /** The specular term `light` adds at the hit. */
  function LightSpecular(m: MathLib, scene: Scene, h: Hit, light: Vector): Vector
  {
    SpecularTerm(Phong(m, h.norm, LightDirection(m, h, light)), Seen(m, scene, h, light))
  }

  /** One pass of the light loop's body: diffuse, then reflection, then specular. */
  function ShadeLight(m: MathLib, scene: Scene, direction: Vector, depth: nat, h: Hit, colour: Vector, light: Vector): Vector
    decreases Budget(depth), 1, 0
  {
    var lit := Add(colour, LightDiffuse(m, scene, h, light));
    var reflected := if Reflects(h, depth) then Add(lit, Reflection(m, scene, direction, depth, h)) else lit;
    Add(reflected, LightSpecular(m, scene, h, light))
  }

  /** The reflected ray's colour, weighted by `REFLECTION_INTENSITY`; traced one level deeper. */
  function Reflection(m: MathLib, scene: Scene, direction: Vector, depth: nat, h: Hit): Vector
    requires Reflects(h, depth)
    decreases Budget(depth), 0, 0
  {
    Scalar(TraceColour(m, scene, h.pt, ReflectDirection(direction, h.norm), depth + 1), REFLECTION_INTENSITY)
  }

  /** The shadow loop of `trace`: 0 if any object is hit along the ray towards the light, else 1. */
  method ShadowTest(m: MathLib, objects: seq<Sphere>, pt: Vector, lightDir: Vector) returns (seenByLight: real)
    ensures seenByLight == SeenByLight(m, objects, pt, lightDir, |objects|)
  {
    seenByLight := 1.0;
    var k := 0;
    while k < |objects|
      invariant k <= |objects|
      invariant seenByLight == SeenByLight(m, objects, pt, lightDir, k)
    {
      if Intersection(m, objects[k], pt, lightDir).Some? {
        seenByLight := 0.0;
      }
      k := k + 1;
    }
  }

  /**
    `trace` as the source runs it: the nearest-hit loop, which keeps the first
    object whose distance is strictly below every distance seen so far, then
    the lights in order, each handled by the callback `ShadeWithLight`.
   */
  method Trace(m: MathLib, scene: Scene, origin: Vector, direction: Vector, depth: nat) returns (colour: Vector)
    ensures colour == TraceColour(m, scene, origin, direction, depth)
    decreases Budget(depth), 1
  {
    var closest: Option<Closest> := None;
    var i := 0;
    while i < |scene.objects|
      invariant i <= |scene.objects|
      invariant closest == ClosestAmong(m, scene.objects, origin, direction, i)
    {
      var d := Intersection(m, scene.objects[i], origin, direction);
      if d.Some? && (closest.None? || d.value < closest.value.distance) {
        closest := Some(Closest(i, d.value));
      }
      i := i + 1;
    }
    if closest.None? {
      return BACKGROUND_COLOUR;
    }

    var obj := scene.objects[closest.value.index];
    var pt := Add(origin, Scalar(direction, closest.value.distance));
    var norm := Unit(m, Subtract(pt, obj.centre));
    colour := Scalar(obj.colour, AMBIENT);
    var h := Hit(obj, pt, norm);
    TraceOnHit(m, scene, origin, direction, depth);

    var j := 0;
    while j < |scene.lights|
      invariant j <= |scene.lights|
      invariant ShadeLights(m, scene, direction, depth, h, colour, j) == TraceColour(m, scene, origin, direction, depth)
    {
      colour := ShadeWithLight(m, scene, direction, depth, h, colour, scene.lights[j]);
      j := j + 1;
    }
  }

  /** On a hit, `trace` is the light loop started from the ambient share of the nearest object's colour. */
  lemma TraceOnHit(m: MathLib, scene: Scene, origin: Vector, direction: Vector, depth: nat)
    requires ClosestAmong(m, scene.objects, origin, direction, |scene.objects|).Some?
    ensures var c := ClosestAmong(m, scene.objects, origin, direction, |scene.objects|).value;
      var obj := scene.objects[c.index];
      var pt := Add(origin, Scalar(direction, c.distance));
      TraceColour(m, scene, origin, direction, depth)
      == ShadeLights(m, scene, direction, depth, Hit(obj, pt, Unit(m, Subtract(pt, obj.centre))), Scalar(obj.colour, AMBIENT), 0)
  {
  }

  /**
    The body of the light loop (the `forEach` callback): the shadow test, then
    the diffuse term, the reflected ray when the object is shiny and the depth
    allows, and the specular highlight, each added to `colour` in that order.
   */
  method ShadeWithLight(m: MathLib, scene: Scene, direction: Vector, depth: nat, h: Hit, colour: Vector, light: Vector)
    returns (newColour: Vector)
    ensures newColour == ShadeLight(m, scene, direction, depth, h, colour, light)
    decreases Budget(depth), 0
  {
    var lightDir := Unit(m, Subtract(light, h.pt));
    var seenByLight := ShadowTest(m, scene.objects, h.pt, lightDir);
    var lambert := Lambert(lightDir, h.norm);
    newColour := Add(colour, DiffuseTerm(h.obj, lambert, seenByLight));
    if depth < MAX_REFLECTION_ITERATIONS && h.obj.shiny {
      assert Budget(depth + 1) < Budget(depth);
      var reflectDir := ReflectDirection(direction, h.norm);
      var reflection := Trace(m, scene, h.pt, reflectDir, depth + 1);
      newColour := Add(newColour, Scalar(reflection, REFLECTION_INTENSITY));
      assert Scalar(reflection, REFLECTION_INTENSITY) == Reflection(m, scene, direction, depth, h);
    }
    var phong := Phong(m, h.norm, lightDir);
    newColour := Add(newColour, SpecularTerm(phong, seenByLight));
  }

  /* ---- What one light contributes ---- */

  /** The light's diffuse and specular terms: what it adds when no reflection is traced. */
  function LocalTerm(m: MathLib, scene: Scene, h: Hit, light: Vector): Vector
  {
    Add(LightDiffuse(m, scene, h, light), LightSpecular(m, scene, h, light))
  }

  /** Everything one pass of the light loop adds to the colour. */
  function Contribution(m: MathLib, scene: Scene, direction: Vector, depth: nat, h: Hit, light: Vector): Vector
  {
    if Reflects(h, depth) then Add(LocalTerm(m, scene, h, light), Reflection(m, scene, direction, depth, h))
    else LocalTerm(m, scene, h, light)
  }

  /** The contributions of the lights from index `j` on. */
  function Contributions(m: MathLib, scene: Scene, direction: Vector, depth: nat, h: Hit, j: nat): Vector
    requires j <= |scene.lights|
    decreases |scene.lights| - j
  {
    if j == |scene.lights| then Zero
    else Add(Contribution(m, scene, direction, depth, h, scene.lights[j]), Contributions(m, scene, direction, depth, h, j + 1))
  }

  /** The diffuse and specular terms of the lights from index `j` on. */
  function LocalTerms(m: MathLib, scene: Scene, h: Hit, j: nat): Vector
    requires j <= |scene.lights|
    decreases |scene.lights| - j
  {
    if j == |scene.lights| then Zero
    else Add(LocalTerm(m, scene, h, scene.lights[j]), LocalTerms(m, scene, h, j + 1))
  }

  /**
    The colour `trace` would give if reflections were switched off: the
    background on a miss, otherwise the ambient share of the object's colour
    plus every light's diffuse and specular terms.
   */
  function LocalColour(m: MathLib, scene: Scene, origin: Vector, direction: Vector): Vector
  {
    match ClosestAmong(m, scene.objects, origin, direction, |scene.objects|)
    case None => BACKGROUND_COLOUR
    case Some(c) =>
      var h := HitAt(m, origin, direction, scene.objects[c.index], c.distance);
      Add(Scalar(h.obj.colour, AMBIENT), LocalTerms(m, scene, h, 0))
  }

  /** One pass of the light loop adds exactly that light's contribution. */
  lemma ShadeLightAdds(m: MathLib, scene: Scene, direction: Vector, depth: nat, h: Hit, colour: Vector, light: Vector)
    ensures ShadeLight(m, scene, direction, depth, h, colour, light)
            == Add(colour, Contribution(m, scene, direction, depth, h, light))
  {
    var diffuse := LightDiffuse(m, scene, h, light);
    var specular := LightSpecular(m, scene, h, light);
    if Reflects(h, depth) {
      AddRearrange(colour, diffuse, Reflection(m, scene, direction, depth, h), specular);
    } else {
      AddLaws(colour, diffuse, specular);
    }
  }

  /** The light loop adds up the lights' contributions, whatever colour it starts from. */
  lemma {:induction false} ShadeLightsAddsContributions(m: MathLib, scene: Scene, direction: Vector, depth: nat, h: Hit, colour: Vector, j: nat)
    requires j <= |scene.lights|
    ensures ShadeLights(m, scene, direction, depth, h, colour, j)
            == Add(colour, Contributions(m, scene, direction, depth, h, j))
    decreases |scene.lights| - j
  {
    if j < |scene.lights| {
      var light := scene.lights[j];
      ShadeLightAdds(m, scene, direction, depth, h, colour, light);
      ShadeLightsAddsContributions(m, scene, direction, depth, h, ShadeLight(m, scene, direction, depth, h, colour, light), j + 1);
    }
  }

  /** The local terms of the lights from index `j` on, one per light. */
  function LocalTermList(m: MathLib, scene: Scene, h: Hit, j: nat): (ls: seq<Vector>)
    requires j <= |scene.lights|
    ensures |ls| == |scene.lights| - j
    decreases |scene.lights| - j
  {
    if j == |scene.lights| then []
    else [LocalTerm(m, scene, h, scene.lights[j])] + LocalTermList(m, scene, h, j + 1)
  }

  /**
    The reflected colour does not depend on the light, yet it is added inside
    the light loop: with `n` lights a shiny hit below the depth cap receives
    the reflection `n` times.
   */
  lemma ReflectionAddedPerLight(m: MathLib, scene: Scene, direction: Vector, depth: nat, h: Hit)
    requires Reflects(h, depth)
    ensures Contributions(m, scene, direction, depth, h, 0)
            == Add(LocalTerms(m, scene, h, 0), Scalar(Reflection(m, scene, direction, depth, h), |scene.lights| as real))
  {
    var r := Reflection(m, scene, direction, depth, h);
    ReflectionIsShared(m, scene, direction, depth, h, 0);
    LocalTermsAreSummed(m, scene, h, 0);
    SharedSummand(LocalTermList(m, scene, h, 0), r);
  }

  /** With a reflected ray, every light's contribution is its local terms plus the same reflection. */
  lemma {:induction false} ReflectionIsShared(m: MathLib, scene: Scene, direction: Vector, depth: nat, h: Hit, j: nat)
    requires j <= |scene.lights|
    requires Reflects(h, depth)
    ensures Contributions(m, scene, direction, depth, h, j)
            == SumWith(LocalTermList(m, scene, h, j), Reflection(m, scene, direction, depth, h))
    decreases |scene.lights| - j
  {
    if j < |scene.lights| {
      var light := scene.lights[j];
      var local := LocalTerm(m, scene, h, light);
      var rest := LocalTermList(m, scene, h, j + 1);
      var r := Reflection(m, scene, direction, depth, h);
      assert LocalTermList(m, scene, h, j) == [local] + rest;
      assert Contribution(m, scene, direction, depth, h, light) == Add(local, r);
      assert Contributions(m, scene, direction, depth, h, j)
             == Add(Add(local, r), Contributions(m, scene, direction, depth, h, j + 1));
      ReflectionIsShared(m, scene, direction, depth, h, j + 1);
      SumWithCons(local, rest, r);
    }
  }

  /** `LocalTerms` is the sum of `LocalTermList`. */
  lemma {:induction false} LocalTermsAreSummed(m: MathLib, scene: Scene, h: Hit, j: nat)
    requires j <= |scene.lights|
    ensures LocalTerms(m, scene, h, j) == Sum(LocalTermList(m, scene, h, j))
    decreases |scene.lights| - j
  {
    if j < |scene.lights| {
      var local := LocalTerm(m, scene, h, scene.lights[j]);
      var rest := LocalTermList(m, scene, h, j + 1);
      assert LocalTermList(m, scene, h, j) == [local] + rest;
      assert LocalTerms(m, scene, h, j) == Add(local, LocalTerms(m, scene, h, j + 1));
      LocalTermsAreSummed(m, scene, h, j + 1);
      SumCons(local, rest);
    }
  }

  /** When nothing is hit, `trace` returns the background colour, at any depth. */
  lemma MissIsBackground(m: MathLib, scene: Scene, origin: Vector, direction: Vector, depth: nat)
    requires forall i :: 0 <= i < |scene.objects| ==> HitDistance(m, scene.objects, i, origin, direction).None?
    ensures TraceColour(m, scene, origin, direction, depth) == BACKGROUND_COLOUR
  {
    ClosestIsNearest(m, scene.objects, origin, direction, |scene.objects|);
  }

  /**
    On a hit, `trace` starts from a tenth of the nearest object's colour and
    adds one contribution per light; with no lights it is that tenth alone.
   */
  lemma HitColour(m: MathLib, scene: Scene, origin: Vector, direction: Vector, depth: nat)
    requires ClosestAmong(m, scene.objects, origin, direction, |scene.objects|).Some?
    ensures var c := ClosestAmong(m, scene.objects, origin, direction, |scene.objects|).value;
      var h := HitAt(m, origin, direction, scene.objects[c.index], c.distance);
      TraceColour(m, scene, origin, direction, depth)
      == Add(Scalar(h.obj.colour, AMBIENT), Contributions(m, scene, direction, depth, h, 0))
    ensures var c := ClosestAmong(m, scene.objects, origin, direction, |scene.objects|).value;
      |scene.lights| == 0 ==>
        TraceColour(m, scene, origin, direction, depth) == Scalar(scene.objects[c.index].colour, AMBIENT)
  {
    var c := ClosestAmong(m, scene.objects, origin, direction, |scene.objects|).value;
    var h := HitAt(m, origin, direction, scene.objects[c.index], c.distance);
    ShadeLightsAddsContributions(m, scene, direction, depth, h, Scalar(h.obj.colour, AMBIENT), 0);
  }

  /** Without a reflected ray every light adds only its diffuse and specular terms. */
  lemma {:induction false} NoReflectionMeansLocalTerms(m: MathLib, scene: Scene, direction: Vector, depth: nat, h: Hit, j: nat)
    requires j <= |scene.lights|
    requires !Reflects(h, depth)
    ensures Contributions(m, scene, direction, depth, h, j) == LocalTerms(m, scene, h, j)
    decreases |scene.lights| - j
  {
    if j < |scene.lights| {
      var light := scene.lights[j];
      assert Contribution(m, scene, direction, depth, h, light) == LocalTerm(m, scene, h, light);
      NoReflectionMeansLocalTerms(m, scene, direction, depth, h, j + 1);
    }
  }

  /**
    A call at depth `MAX_REFLECTION_ITERATIONS` or deeper, or one whose
    nearest object is not shiny, traces no reflected ray: its colour is the
    reflection-free `LocalColour`.
   */
  lemma NoReflectionIsLocal(m: MathLib, scene: Scene, origin: Vector, direction: Vector, depth: nat)
    requires var r := ClosestAmong(m, scene.objects, origin, direction, |scene.objects|);
      MAX_REFLECTION_ITERATIONS <= depth || r.None? || !scene.objects[r.value.index].shiny
    ensures TraceColour(m, scene, origin, direction, depth) == LocalColour(m, scene, origin, direction)
  {
    var r := ClosestAmong(m, scene.objects, origin, direction, |scene.objects|);
    if r.Some? {
      var h := HitAt(m, origin, direction, scene.objects[r.value.index], r.value.distance);
      HitColour(m, scene, origin, direction, depth);
      NoReflectionMeansLocalTerms(m, scene, direction, depth, h, 0);
    }
  }

  /** Depth only matters up to the cap: every call at or past it gives the same colour. */
  lemma DepthCapped(m: MathLib, scene: Scene, origin: Vector, direction: Vector, depth: nat)
    requires MAX_REFLECTION_ITERATIONS <= depth
    ensures TraceColour(m, scene, origin, direction, depth)
            == TraceColour(m, scene, origin, direction, MAX_REFLECTION_ITERATIONS)
  {
    NoReflectionIsLocal(m, scene, origin, direction, depth);
    NoReflectionIsLocal(m, scene, origin, direction, MAX_REFLECTION_ITERATIONS);
  }

  /**
    A light that something blocks adds no diffuse and no specular term; only
    the reflected ray, when there is one, still contributes.
   */
  lemma ShadowedLightAddsOnlyReflection(m: MathLib, scene: Scene, direction: Vector, depth: nat, h: Hit, light: Vector)
    requires Seen(m, scene, h, light) == 0.0
    ensures Contribution(m, scene, direction, depth, h, light)
            == if Reflects(h, depth) then Reflection(m, scene, direction, depth, h) else Zero
  {
    assert LightDiffuse(m, scene, h, light) == Zero;
    assert LightSpecular(m, scene, h, light) == Zero;
  }

  /**
    The diffuse term is the object's colour scaled by Lambert, `DIFFUSE` and the
    shadow flag, and halved again for a shiny object.
   */
  lemma DiffuseWeight(obj: Sphere, lambert: real, seen: real)
    ensures DiffuseTerm(obj, lambert, seen)
            == Scalar(obj.colour, lambert * DIFFUSE * seen * (if obj.shiny then SHINY_DIFFUSE else 1.0))
  {
  }

  /** A specular highlight adds the same amount, between 0 and `255 * SPECULAR`, to each channel. */
  lemma SpecularBounded(phong: real, seen: real)
    requires 0.0 <= phong <= 1.0
    requires seen == 0.0 || seen == 1.0
    ensures var s := SpecularTerm(phong, seen);
      0.0 <= s.x <= 255.0 * SPECULAR && s.x == s.y == s.z
  {
  }

  /**
    The reflected direction flips the component along a unit normal and keeps
    the rest, so it has the length of the incoming direction.
   */
  lemma ReflectionMirrors(direction: Vector, norm: Vector)
    requires Dot(norm, norm) == 1.0
    ensures Dot(ReflectDirection(direction, norm), norm) == -Dot(direction, norm)
    ensures var r := ReflectDirection(direction, norm); Dot(r, r) == Dot(direction, direction)
  {
    var d := Dot(direction, norm);
    var k := -2.0 * d;
    var r := ReflectDirection(direction, norm);
    DotScaledSum(norm, direction, k, norm);
    DotScaledSum(norm, direction, k, r);
    DotScaledSum(norm, direction, k, direction);
    DotSymmetric(r, norm);
    DotSymmetric(r, direction);
    DotSymmetric(norm, direction);
    assert Dot(r, norm) == -d;
    assert Dot(direction, r) == k * d + Dot(direction, direction);
    assert Dot(r, r) == k * (-d) + (k * d + Dot(direction, direction));
  }

  /**
    The normal at a hit point of a sphere with non-zero radius is a unit
    vector, so the reflected ray there keeps the incoming ray's length.
   */
  lemma HitNormalIsUnit(m: MathLib, s: Sphere, origin: Vector, direction: Vector)
    requires Lawful(m) && s.radius != 0.0
    requires Intersection(m, s, origin, direction).Some?
    ensures var h := HitAt(m, origin, direction, s, Intersection(m, s, origin, direction).value);
      Dot(h.norm, h.norm) == 1.0
      && Dot(ReflectDirection(direction, h.norm), ReflectDirection(direction, h.norm)) == Dot(direction, direction)
  {
    var t := Intersection(m, s, origin, direction).value;
    var h := HitAt(m, origin, direction, s, t);
    var offset := Subtract(h.pt, s.centre);
    HitLiesOnSphere(m, s, origin, direction);
    InverseSquare(s.radius);
    assert Dot(offset, offset) * ((1.0 / s.radius) * (1.0 / s.radius)) == 1.0;
    assert offset != Zero;
    ReflectionMirrors(direction, h.norm);
  }

  /* ---- Recursion depth ---- */

  /**
    The deepest `depth` at which `trace` is entered while computing
    `TraceColour(…, depth)`. It repeats by hand the condition under which
    `ShadeLight` calls `Reflection` (`Reflects`, and at least one light);
    nothing proves it against `TraceColour`'s own calls. That those calls stop
    is what `Reflection`'s `requires Reflects(h, depth)` and the measure
    `Budget(depth)` already guarantee.
   */
  function DeepestCall(m: MathLib, scene: Scene, origin: Vector, direction: Vector, depth: nat): nat
    decreases Budget(depth)
  {
    match ClosestAmong(m, scene.objects, origin, direction, |scene.objects|)
    case None => depth
    case Some(c) =>
      var h := HitAt(m, origin, direction, scene.objects[c.index], c.distance);
      if Reflects(h, depth) && 0 < |scene.lights| then
        DeepestCall(m, scene, h.pt, ReflectDirection(direction, h.norm), depth + 1)
      else depth
  }

  /**
    Each reflected ray is traced one level deeper and none is started at
    `MAX_REFLECTION_ITERATIONS`, so a render (which starts at depth 0) never
    goes past depth `MAX_REFLECTION_ITERATIONS`.
   */
  lemma {:induction false} RecursionBounded(m: MathLib, scene: Scene, origin: Vector, direction: Vector, depth: nat)
    ensures depth <= DeepestCall(m, scene, origin, direction, depth)
    ensures depth <= MAX_REFLECTION_ITERATIONS ==> DeepestCall(m, scene, origin, direction, depth) <= MAX_REFLECTION_ITERATIONS
    ensures MAX_REFLECTION_ITERATIONS < depth ==> DeepestCall(m, scene, origin, direction, depth) == depth
    decreases Budget(depth)
  {
    match ClosestAmong(m, scene.objects, origin, direction, |scene.objects|)
    case None =>
    case Some(c) =>
      var h := HitAt(m, origin, direction, scene.objects[c.index], c.distance);
      if Reflects(h, depth) && 0 < |scene.lights| {
        RecursionBounded(m, scene, h.pt, ReflectDirection(direction, h.norm), depth + 1);
      }
  }

  /**
    A call whose `DeepestCall` is its own depth starts no reflected ray, so
    its colour is the reflection-free `LocalColour`.
   */
  lemma ShallowCallIsLocal(m: MathLib, scene: Scene, origin: Vector, direction: Vector, depth: nat)
    requires DeepestCall(m, scene, origin, direction, depth) == depth
    ensures TraceColour(m, scene, origin, direction, depth) == LocalColour(m, scene, origin, direction)
  {
    if |scene.lights| == 0 {
      NoLightsIsLocal(m, scene, origin, direction, depth);
    } else {
      ShallowCallReflectsNothing(m, scene, origin, direction, depth);
      NoReflectionIsLocal(m, scene, origin, direction, depth);
    }
  }

  /** With some light, a call whose `DeepestCall` is its own depth hits nothing that reflects. */
  lemma ShallowCallReflectsNothing(m: MathLib, scene: Scene, origin: Vector, direction: Vector, depth: nat)
    requires DeepestCall(m, scene, origin, direction, depth) == depth
    requires 0 < |scene.lights|
    ensures var r := ClosestAmong(m, scene.objects, origin, direction, |scene.objects|);
      MAX_REFLECTION_ITERATIONS <= depth || r.None? || !scene.objects[r.value.index].shiny
  {
    var r := ClosestAmong(m, scene.objects, origin, direction, |scene.objects|);
    if r.Some? && scene.objects[r.value.index].shiny && depth < MAX_REFLECTION_ITERATIONS {
      var h := HitAt(m, origin, direction, scene.objects[r.value.index], r.value.distance);
      RecursionBounded(m, scene, h.pt, ReflectDirection(direction, h.norm), depth + 1);
      assert false;
    }
  }

  /** With no lights there is nothing to reflect for: `trace` gives the reflection-free colour. */
  lemma NoLightsIsLocal(m: MathLib, scene: Scene, origin: Vector, direction: Vector, depth: nat)
    requires |scene.lights| == 0
    ensures TraceColour(m, scene, origin, direction, depth) == LocalColour(m, scene, origin, direction)
  {
    var r := ClosestAmong(m, scene.objects, origin, direction, |scene.objects|);
    if r.Some? {
      var h := HitAt(m, origin, direction, scene.objects[r.value.index], r.value.distance);
      HitColour(m, scene, origin, direction, depth);
      assert Contributions(m, scene, direction, depth, h, 0) == Zero == LocalTerms(m, scene, h, 0);
    }
  }
}
