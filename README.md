# A verified model of a small JavaScript ray tracer

The ray tracer renders a scene of spheres and point lights onto a 512 × 512
canvas. For every pixel, `render` casts a primary ray from the camera and
calls `trace`. `trace` finds the nearest sphere the ray hits. It starts from a
tenth of that sphere's colour, and then for each light adds:

- a Lambert diffuse term;
- a reflected ray, traced recursively up to three levels deep, on shiny spheres;
- a Blinn-Phong specular highlight.

A shadow test switches off both the diffuse term and the highlight of a light
that some sphere blocks; the reflected ray is added either way.

`drawPixel` stores the resulting colour into the RGBA bytes of the canvas's
ImageData.

The model is split into eight modules, one per concern of the source:

| module | file | models |
|---|---|---|
| `Wrappers` | `wrappers.dfy` | `Option`, which stands for the NaN a sphere test returns on a miss |
| `Maths` | `maths.dfy` | `Math.max`, `Math.min`, `Math.pow`; `Math.sqrt`/`cos`/`sin` as a record of functions (`MathLib`) constrained by `Lawful` |
| `Vectors` | `vector.dfy` | the immutable `Vector` class of Vector.js |
| `Quadratics` | `quadratics.dfy` | the ray–sphere quadratic both sphere files solve, and its roots |
| `Spheres` | `spheres.dfy` | the `Sphere` of Objects.js (the one the tracer imports): shiny flag, near-then-far root |
| `LegacySpheres` | `legacy_spheres.dfy` | the older `Sphere` of objects.js: near root only |
| `Tracer` | `tracer.dfy` | `trace`, `clamp` and the shading constants of index.js |
| `Canvas` | `canvas.dfy` | `drawPixel`, `render`'s pixel loop and the ImageData byte buffer of index.js |

Two layers model `trace`:

- The recursive function `Tracer.TraceColour` says what `trace` computes.
- The methods `Tracer.Trace`, `Tracer.ShadeWithLight` and `Tracer.ShadowTest`
  are its loops and `forEach` callback, written step by step. `Trace` is proved
  to compute `TraceColour`, `ShadeWithLight` to compute `ShadeLight` (one pass
  of the light loop) and `ShadowTest` to compute `SeenByLight` (the shadow flag).

The lemmas about `TraceColour` describe the colour itself: what a miss yields,
what each light contributes, the shadow rule and the depth cap. `Canvas.Render`
is the pixel loop over a `Canvas.ImageData` object whose byte array it updates
in place. Its proved result is that every byte holds the channel of the
pixel's traced colour.

The proofs are written for verifying all files together with
`dafny verify --resource-limit 2000000 --verification-time-limit 0 --warn-contradictory-assumptions *.dfy`.
Some `Tracer` proofs that sum over the lights (`ShadeWithLight`,
`ReflectionIsShared`, `LocalTermsAreSummed`) are tuned to these options;
without `--warn-contradictory-assumptions` the solver takes another search
path and they exceed that resource limit.

## Model

| member | source | states |
|---|---|---|
| Vectors.Subtract | Vector.js:32-38 | the difference is the zero vector exactly when the two vectors are equal |
| Vectors.Add | Vector.js:19-25 | subtracting either summand from the sum gives the other back (add/subtract round trip) |
| Vectors.AddLaws | Vector.js:19-25 | addition is associative and commutative, and the zero vector is its unit |
| Vectors.Scalar | Vector.js:45-51 | scaling by 1 is the identity, scaling by 0 or scaling the zero vector gives the zero vector |
| Vectors.ScalarCompose | Vector.js:45-51 | scaling by `j` then by `k` is scaling by `j*k` |
| Vectors.Dot | Vector.js:58-60 | the three-term dot product; its properties are stated by `Vectors.DotSymmetric`, `Vectors.DotSelfNonNegative` and `Vectors.DotScaledSum` |
| Vectors.DotScaledSum | Vector.js:58-60 | the dot product is linear in its first argument: `(k·v + u)·w = k(v·w) + u·w` |
| Vectors.DotSymmetric | Vector.js:58-60 | the dot product is symmetric |
| Vectors.DotSelfNonNegative | Vector.js:58-60 | `v·v` is never negative, and positive for every non-zero vector |
| Vectors.Length | Vector.js:65-67 | the length is non-negative and its square is `v·v` |
| Vectors.Unit | Vector.js:72-74 | for a non-zero vector: the length is positive, the result is the vector scaled by the reciprocal of its length, and it has length 1 |
| Vectors.RotateY | Vector.js:81-93 | the rotation keeps `y` and the horizontal length `x²+z²`, and the angle 0 is the identity |
| Vectors.SharedSummand | index.js:117-150 | a sequence identity, the step `Tracer.ReflectionAddedPerLight` uses for the light loop: adding the same vector `r` to each of `k` summands adds `k·r` to their sum |
| Quadratics.RayQuadratic | Objects.js:23-27 | the coefficients `a = d·d`, `b = 2(p·d)`, `c = p·p - r²` with `p = origin - centre`; `Quadratics.EvalIsSurfaceOffset` states what they mean |
| Quadratics.NearRoot | Objects.js:35 | `(-b - √d) / 2a`; `Quadratics.RootsSolve`, `NearBeforeFar` and `OnlyRoots` state that it is the smaller of the only two solutions |
| Quadratics.FarRoot | Objects.js:38 | `(-b + √d) / 2a`; the same lemmas state that it is the larger solution |
| Quadratics.EvalIsSurfaceOffset | Objects.js:23-27 | the quadratic at `t` equals the squared distance of `origin + t·direction` from the centre, minus the squared radius |
| Quadratics.Discriminant | Objects.js:27 | `b² - 4ac`, as both sphere files compute it (objects.js:25 too); `Quadratics.NoRootWhenNegative` states that a negative one means no solution and `Quadratics.RootsSolve` that otherwise both roots solve the quadratic |
| Quadratics.RootsSolve | Objects.js:33-38 | with a non-negative discriminant both computed roots solve the quadratic |
| Quadratics.NearBeforeFar | Objects.js:35-38 | for `a > 0` the near root is at most the far root |
| Quadratics.OnlyRoots | Objects.js:33-38 | for `a > 0` every solution is the near or the far root |
| Quadratics.NoRootWhenNegative | Objects.js:29-31 | a negative discriminant means no solution exists |
| Quadratics.InsideRoots | Objects.js:26-38 | for a ray starting inside the sphere (`c < 0`) the near root is behind the origin and the far root in front |
| Spheres.NewSphere | Objects.js:9-14 | the constructor stores centre, radius, colour and shiny flag |
| Spheres.Intersection | Objects.js:22-42 | a negative discriminant gives no hit; any reported distance exceeds 0.00001 and comes from a non-degenerate quadratic |
| Spheres.RootPolicy | Objects.js:33-41 | the near root is reported when it exceeds 0.00001; otherwise the far root when it exceeds 0.01; otherwise no hit |
| Spheres.HitLiesOnSphere | Objects.js:22-42 | a reported distance solves the quadratic and puts the hit point on the surface |
| Spheres.HitIsNearestRootInFront | Objects.js:33-39 | no surface point lies between 0.00001 and the reported distance |
| Spheres.MissHasNoRootBeyondFarEpsilon | Objects.js:29-41 | when nothing is reported, no surface point lies beyond 0.01 |
| Spheres.InsideRayExitsThroughFarRoot | Objects.js:35-39 | a ray from inside the sphere is reported at the far root whenever that exceeds 0.01 |
| LegacySpheres.NewSphere | objects.js:9-13 | the constructor stores centre, radius and colour |
| LegacySpheres.Intersection | objects.js:20-40 | a negative discriminant gives no hit; a distance is reported exactly when the quadratic is non-degenerate and its near root exceeds 0.00001, and it is then the near root |
| LegacySpheres.HitLiesOnSphere | objects.js:20-40 | a reported distance puts the hit point on the surface |
| LegacySpheres.InsideRayNeverHits | objects.js:33-39 | with the far root commented out, a ray starting inside the sphere never hits it |
| LegacySpheres.AgreesWithFarRootVariant | objects.js:33-39 | every legacy hit is a hit of the current sphere at the same distance; a current hit the legacy test misses is the far root |
| Maths.Max | index.js:131 | `Math.max` is an upper bound of both arguments and is one of them |
| Maths.Min | index.js:161 | `Math.min` is a lower bound of both arguments and is one of them |
| Maths.Pow | index.js:148 | `x⁰ = 1`; a base in [0,1] gives a power in [0,1] that is at most the base |
| Tracer.Clamp | index.js:160-162 | the result lies in [0,1], is the identity on [0,1], and sends values below 0 to 0 and values above 1 to 1 |
| Tracer.ClampIdempotent | index.js:160-162 | clamping twice is clamping once |
| Tracer.ClosestAmong | index.js:97-104 | a chosen index is among the objects visited |
| Tracer.ClosestIsNearest | index.js:97-104 | nothing is chosen exactly when no object is hit; the chosen object is hit at the recorded distance, no hit is nearer, and every earlier object is hit strictly farther (the first of equal distances wins) |
| Tracer.SeenByLight | index.js:120-128 | the shadow flag is 0 or 1 |
| Tracer.ShadowedIffSomeHit | index.js:124-128 | the flag is 0 exactly when some object reports a hit along the shadow ray |
| Tracer.LightDirection | index.js:119 | the unit vector from the contact point towards the light; `Vectors.Unit` states that it has length 1 when the light is not at the contact point |
| Tracer.Seen | index.js:120-128 | the shadow flag of one light, the shadow loop run from the contact point towards it; `Tracer.ShadowedIffSomeHit` states when it is 0 and `Tracer.ShadowedLightAddsOnlyReflection` what a blocked light adds |
| Tracer.ShadowTest | index.js:120-128 | the shadow loop computes `SeenByLight` over all objects |
| Tracer.Lambert | index.js:131 | the Lambert factor is never negative and equals `lightDir·norm` when that is non-negative |
| Tracer.Phong | index.js:148 | the specular factor lies in [0,1] |
| Tracer.TraceColour | index.js:92-153 | what `trace` returns: the background on a miss, otherwise the light loop from a tenth of the nearest object's colour; `Tracer.Trace` is proved to compute it and `MissIsBackground`, `HitColour`, `NoReflectionIsLocal`, `DepthCapped` and `ReflectionAddedPerLight` state its properties |
| Tracer.TraceOnHit | index.js:113-117 | a proof step for `Tracer.Trace`: on a hit, `trace` is the light loop started from the ambient share of the nearest object's colour at the computed contact point and normal |
| Tracer.HitAt | index.js:113-114 | the contact point `origin + distance·direction` and the unit normal from the centre; `Tracer.HitNormalIsUnit` states that the normal has length 1 |
| Tracer.ShadeLights | index.js:117-150 | the `forEach` over the lights from light `j` on; `Tracer.ShadeLightsAddsContributions` states what it adds |
| Tracer.ShadeLight | index.js:119-149 | one pass of the light loop's body; `Tracer.ShadeLightAdds` states what it adds |
| Tracer.LightDiffuse | index.js:131-137 | one light's diffuse term, from the Lambert factor of its direction and its shadow flag; `Tracer.DiffuseWeight` states its weight and `Tracer.ShadowedLightAddsOnlyReflection` that a blocked light's is zero |
| Tracer.LightSpecular | index.js:148-149 | one light's specular term, from the specular factor and its shadow flag; `Tracer.SpecularBounded` states its range and `Tracer.ShadowedLightAddsOnlyReflection` that a blocked light's is zero |
| Tracer.DiffuseTerm | index.js:132-137 | the diffuse term of one light; `Tracer.DiffuseWeight` states its weight |
| Tracer.SpecularTerm | index.js:149 | the specular term of one light; `Tracer.SpecularBounded` states its range |
| Tracer.Reflects | index.js:140 | the reflection guard: below depth 3 and on a shiny object; `Tracer.NoReflectionIsLocal` states that without it the colour is reflection-free and `Tracer.DepthCapped` that depth past the cap changes nothing |
| Tracer.Reflection | index.js:140-145 | the reflected ray's colour, traced one level deeper and weighted by `REFLECTION_INTENSITY` (0.55); `Tracer.ReflectionAddedPerLight` states that the light loop adds it once per light |
| Tracer.ReflectDirection | index.js:143 | `d - 2(d·n)n`; `Tracer.ReflectionMirrors` states that it mirrors `d` in the surface |
| Tracer.Trace | index.js:92-153 | the nearest-hit loop and the light loop compute exactly `TraceColour` |
| Tracer.ShadeWithLight | index.js:117-150 | one light's callback adds, in order, diffuse, reflection and specular terms, exactly as `ShadeLight` |
| Tracer.ShadeLightAdds | index.js:131-149 | one pass of the light loop adds that light's contribution to the running colour |
| Tracer.ShadeLightsAddsContributions | index.js:117-150 | the light loop adds the sum of the lights' contributions to its starting colour |
| Tracer.MissIsBackground | index.js:107-109 | when no object is hit the colour is the background colour, at any depth |
| Tracer.HitColour | index.js:113-152 | on a hit the colour is a tenth of the object's colour plus every light's contribution; with no lights it is that tenth alone |
| Tracer.NoReflectionMeansLocalTerms | index.js:140 | without a reflected ray every light adds only its diffuse and specular terms |
| Tracer.NoReflectionIsLocal | index.js:140-145 | at depth 3 or more, on a miss, or on a non-shiny object, no reflection is traced and the colour is the reflection-free `LocalColour` |
| Tracer.DepthCapped | index.js:140 | every depth at or past the cap gives the same colour |
| Tracer.ReflectionIsShared | index.js:117-150 | with a reflected ray, each light's contribution is its local terms plus the same reflection |
| Tracer.LocalTermsAreSummed | index.js:117-150 | the summed local terms are the sum of the per-light local-term list |
| Tracer.ReflectionAddedPerLight | index.js:117-150 | with `n` lights, a shiny hit below the depth cap receives the weighted reflection `n` times |
| Tracer.ShadowedLightAddsOnlyReflection | index.js:131-149 | a blocked light adds no diffuse or specular term, only the reflection when there is one |
| Tracer.DiffuseWeight | index.js:132-137 | the diffuse term is the colour scaled by `lambert·DIFFUSE·seen`, halved on shiny objects |
| Tracer.SpecularBounded | index.js:148-149 | for a factor in [0,1] and a shadow flag of 0 or 1, the highlight adds the same amount to all three channels, between 0 and 255·0.6 |
| Tracer.ReflectionMirrors | index.js:141-143 | for a unit normal, the reflected direction's normal component is negated and its length is kept |
| Tracer.HitNormalIsUnit | index.js:113-114 | the normal at a hit point of a sphere with non-zero radius has length 1, and the reflected ray there keeps its length |
| Tracer.RecursionBounded | index.js:140-144 | about `DeepestCall`, which repeats the reflection condition of `ShadeLight` by hand: recursion goes one level deeper per reflection and never past depth 3 from a call at depth 0 to 3. That `TraceColour`'s own recursion stops follows from `Reflection`'s `requires Reflects(h, depth)` and the measure `Budget(depth)` |
| Tracer.ShallowCallIsLocal | index.js:140-145 | a call whose `DeepestCall` is its own depth starts no reflected ray, and its colour is the reflection-free `LocalColour`; this ties `DeepestCall` to `TraceColour` |
| Tracer.ShallowCallReflectsNothing | index.js:140-144 | with at least one light, a call whose `DeepestCall` is its own depth has a miss, a non-shiny nearest object or a depth of 3 or more |
| Tracer.NoLightsIsLocal | index.js:113-152 | with no lights, `trace` gives the reflection-free colour at any depth, since the reflection is traced only inside the light loop |
| Canvas.ClampedByte | index.js:79-81 | a stored number becomes a byte in [0,255]: clamped at both ends, within 0.5 of the value, and integers kept |
| Canvas.ClampedByteMonotone | index.js:79-81 | storing a larger number never gives a smaller byte |
| Canvas.Channel | index.js:79-82 | each stored channel is a byte and the alpha channel is 255 |
| Canvas.PixelIndex | index.js:78 | `x·4 + y·CANVAS_WIDTH·4`; `Canvas.PixelInBounds`, `PixelsDisjoint` and `PixelDecode` state its properties |
| Canvas.PixelInBounds | index.js:78 | every pixel of the canvas has its four bytes inside the buffer |
| Canvas.PixelsDisjoint | index.js:78 | two different pixels never share a byte |
| Canvas.PixelDecode | index.js:78 | the buffer offset determines the pixel and the channel |
| Canvas.ImageData.constructor | index.js:41 | a new buffer holds `4·width·height` zero bytes |
| Canvas.StoreClamped | index.js:79-82 | a write stores the clamped byte at an in-range index and changes nothing else |
| Canvas.DrawPixel | index.js:76-83 | the four bytes at `4(x + 512y)` become `ClampedByte(r)`, `ClampedByte(g)`, `ClampedByte(b)` and 255, each only where that index lies inside the buffer; every other byte is unchanged, and the buffer stays a valid byte buffer |
| Canvas.PrimaryDirection | index.js:55 | the primary ray through pixel (x, y) before the camera turn |
| Canvas.PixelColour | index.js:55-61 | the traced colour of pixel (x, y), from the turned camera along the turned, normalised primary direction; `Canvas.Render` is proved to store its channels |
| Canvas.RenderedByte | index.js:52-66 | every byte of the rendered image is in [0,255] |
| Canvas.RenderedPixel | index.js:61-62 | the four bytes of pixel (x, y) are the channels of its traced colour |
| Canvas.Render | index.js:52-66 | after the pixel loop every byte of the buffer holds the channel of its pixel's traced colour |

## Left out

- `rotatePivot` is called by `render` (index.js:58-59) but is defined in none of the files modelled here (Vector.js has no such method). If no other file adds it, the source fails on its first pixel. `Canvas.Render` therefore takes the rotation as a function parameter and gives it no meaning of its own.
- The DOM and canvas side is not modelled: `document`, `getContext`, `putImageData` and the rotation slider. `CAMERA_ROTATION` and `CAMERA_PIVOT` become parameters of `Canvas.Render`.
- The scene literals are not modelled (index.js:20-34). Every property is proved for every scene.
- Floating point is not modelled. Arithmetic is over exact reals, so rounding, overflow and infinities do not arise.
- NaN is not modelled as a value. A sphere test that returns NaN is `None`. The `isNaN` checks become tests for `None`.
- `Math.sqrt`, `Math.cos` and `Math.sin` are a record of functions (`Maths.MathLib`). The proofs use only the laws in `Maths.Lawful`: the square root of a non-negative number is a non-negative number whose square is that number, `cos 0 = 1`, `sin 0 = 0`, and `cos² + sin² = 1`.
- Vectors.Unit: the source divides by a zero length for the zero vector and gets NaN components. The model returns the zero vector instead, and its contract says nothing about that case.
- Each light adds the reflected colour once, because the reflection is traced inside the light loop (index.js:117-150). The model follows the code, and `Tracer.ReflectionAddedPerLight` states the consequence. A description of the renderer as adding one reflection per hit would not match the code.
- objects.js imports `./vector.js`, which differs in case from Vector.js. vector.js is not part of this model. `LegacySpheres` uses the `Vectors` module.
- `drawPixel` uses `CANVAS_WIDTH` as the row stride, not the ImageData's own width. The model keeps that stride. `Canvas.Render` requires an image of canvas size, which is how index.js:41 creates it.
