/**
  The pixel side of index.js: the render loop that casts one primary ray per
  pixel of the 512 × 512 canvas, and `drawPixel`, which stores a colour into
  the RGBA byte buffer of the canvas's ImageData.
 */
module Canvas {
  import opened Maths
  import opened Vectors
  import opened Tracer

  const CANVAS_WIDTH: nat := 512
  const CANVAS_HEIGHT: nat := 512
  /** The alpha byte of every drawn pixel. */
  const OPAQUE: int := 255

  /**
    The byte a Uint8ClampedArray keeps when a number is stored into it: the
    number clamped to [0, 255] and rounded to the nearest integer, a tie going
    to the even neighbour.
   */
  function ClampedByte(v: real): (b: int)
    ensures 0 <= b <= 255
    ensures v <= 0.0 ==> b == 0
    ensures 255.0 <= v ==> b == 255
    ensures 0.0 <= v <= 255.0 ==> v - 0.5 <= b as real <= v + 0.5
    ensures 0.0 <= v <= 255.0 && v == v.Floor as real ==> b == v.Floor
  {
    if v <= 0.0 then 0
    else if 255.0 <= v then 255
    else
      var whole := v.Floor;
      var fraction := v - whole as real;
      if fraction < 0.5 then whole
      else if 0.5 < fraction then whole + 1
      else if whole % 2 == 0 then whole
      else whole + 1
  }

  /** Storing a larger number never gives a smaller byte. */
  lemma ClampedByteMonotone(v: real, w: real)
    requires v <= w
    ensures ClampedByte(v) <= ClampedByte(w)
  {
    if 0.0 < v && w < 255.0 {
      var i, j := v.Floor, w.Floor;
      assert i <= j;
      if i == j {
        assert v - i as real <= w - j as real;
      }
    }
  }

  /** The byte `drawPixel` stores at offset `c` (0 to 3) of a pixel: red, green, blue, then alpha. */
  function Channel(c: int, r: real, g: real, b: real): (v: int)
    ensures 0 <= v <= 255
    ensures c == 3 ==> v == OPAQUE
  {
    if c == 0 then ClampedByte(r)
    else if c == 1 then ClampedByte(g)
    else if c == 2 then ClampedByte(b)
    else OPAQUE
  }

  /** `x * 4 + y * CANVAS_WIDTH * 4`: where pixel (x, y) starts in the byte buffer. */
  function PixelIndex(x: int, y: int): int
  {
    x * 4 + y * CANVAS_WIDTH * 4
  }

  /** Every pixel of the canvas has its four bytes inside the buffer. */
  lemma PixelInBounds(x: int, y: int)
    requires 0 <= x < CANVAS_WIDTH && 0 <= y < CANVAS_HEIGHT
    ensures 0 <= PixelIndex(x, y) && PixelIndex(x, y) + 3 < 4 * CANVAS_WIDTH * CANVAS_HEIGHT
  {
  }

  /** Two different pixels of a row-major canvas never share a byte. */
  lemma PixelsDisjoint(x: int, y: int, x': int, y': int)
    requires 0 <= x < CANVAS_WIDTH && 0 <= x' < CANVAS_WIDTH
    requires (x, y) != (x', y')
    ensures PixelIndex(x, y) + 4 <= PixelIndex(x', y') || PixelIndex(x', y') + 4 <= PixelIndex(x, y)
  {
    if y < y' {
      assert PixelIndex(x, y) < PixelIndex(0, y + 1) <= PixelIndex(x', y');
    } else if y' < y {
      assert PixelIndex(x', y') < PixelIndex(0, y' + 1) <= PixelIndex(x, y);
    }
  }

  /** Byte `PixelIndex(x, y) + c` of the buffer is channel `c` of pixel (x, y). */
  lemma PixelDecode(x: int, y: int, c: int)
    requires 0 <= x < CANVAS_WIDTH && 0 <= y && 0 <= c < 4
    ensures (PixelIndex(x, y) + c) / 4 == x + y * CANVAS_WIDTH
    ensures (PixelIndex(x, y) + c) % 4 == c
    ensures (x + y * CANVAS_WIDTH) / CANVAS_WIDTH == y
    ensures (x + y * CANVAS_WIDTH) % CANVAS_WIDTH == x
  {
  }

  /**
    The canvas's ImageData: `width × height` pixels stored row by row, four
    bytes each (red, green, blue, alpha).
   */
  class ImageData {
    const width: nat
    const height: nat
    const data: array<int>

    ghost predicate Valid()
      reads this, data
    {
      data.Length == 4 * width * height
      && forall k :: 0 <= k < data.Length ==> 0 <= data[k] <= 255
    }

    /** A transparent black image, as a new canvas returns. */
    constructor (width: nat, height: nat)
      ensures Valid() && this.width == width && this.height == height
      ensures fresh(data) && forall k :: 0 <= k < data.Length ==> data[k] == 0
    {
      this.width := width;
      this.height := height;
      data := new int[4 * width * height](_ => 0);
    }
  }

  /**
    `data[i] = v` on a Uint8ClampedArray: the clamped, rounded byte is stored
    when `i` is an index of the array, and a write anywhere else is ignored.
   */
  method StoreClamped(data: array<int>, i: int, v: real)
    modifies data
    ensures forall k :: 0 <= k < data.Length ==> data[k] == if k == i then ClampedByte(v) else old(data[k])
  {
    if 0 <= i < data.Length {
      data[i] := ClampedByte(v);
    }
  }

  /**
    `drawPixel(x, y, r, g, b)`: writes the colour and full opacity into the
    four bytes of pixel (x, y) and leaves every other byte alone.
   */
  method DrawPixel(image: ImageData, x: int, y: int, r: real, g: real, b: real)
    requires image.Valid()
    modifies image.data
    ensures image.Valid()
    ensures forall k :: 0 <= k < image.data.Length ==>
      image.data[k] == if PixelIndex(x, y) <= k < PixelIndex(x, y) + 4 then Channel(k - PixelIndex(x, y), r, g, b)
                       else old(image.data[k])
  {
    var index := x * 4 + y * CANVAS_WIDTH * 4;
    StoreClamped(image.data, index + 0, r);
    StoreClamped(image.data, index + 1, g);
    StoreClamped(image.data, index + 2, b);
    StoreClamped(image.data, index + 3, OPAQUE as real);
  }

  /** The direction of the primary ray through pixel (x, y), before the camera turn. */
  function PrimaryDirection(x: int, y: int): Vector
  {
    Vector(x as real - CANVAS_WIDTH as real / 2.0, CANVAS_HEIGHT as real / 2.0 - y as real, -(CANVAS_HEIGHT as real))
  }

  /**
    The colour of pixel (x, y): the camera and the primary direction are
    turned by `rotatePivot`, the direction is made a unit vector, and the ray
    is traced from depth 0.
   */
  function PixelColour(m: MathLib, scene: Scene, rotatePivot: (Vector, real, Vector) -> Vector,
                       rotation: real, pivot: Vector, x: int, y: int): Vector
  {
    var pos := rotatePivot(scene.camera, rotation, pivot);
    var dir := Unit(m, rotatePivot(PrimaryDirection(x, y), rotation, pivot));
    TraceColour(m, scene, pos, dir, 0)
  }

  /** The byte a full render leaves at offset `k` of a canvas-sized buffer. */
  function RenderedByte(m: MathLib, scene: Scene, rotatePivot: (Vector, real, Vector) -> Vector,
                        rotation: real, pivot: Vector, k: int): (v: int)
    ensures 0 <= v <= 255
  {
    var pixel := k / 4;
    var clr := PixelColour(m, scene, rotatePivot, rotation, pivot, pixel % CANVAS_WIDTH, pixel / CANVAS_WIDTH);
    Channel(k % 4, clr.x, clr.y, clr.z)
  }

  /** The four bytes of pixel (x, y) in a rendered buffer are its traced colour's channels. */
  lemma RenderedPixel(m: MathLib, scene: Scene, rotatePivot: (Vector, real, Vector) -> Vector,
                      rotation: real, pivot: Vector, x: int, y: int, c: int)
    requires 0 <= x < CANVAS_WIDTH && 0 <= y && 0 <= c < 4
    ensures var clr := PixelColour(m, scene, rotatePivot, rotation, pivot, x, y);
      RenderedByte(m, scene, rotatePivot, rotation, pivot, PixelIndex(x, y) + c) == Channel(c, clr.x, clr.y, clr.z)
  {
    PixelDecode(x, y, c);
  }

  /**
    `render()`: every pixel, row by row, gets the traced colour of its primary
    ray; afterwards the whole buffer holds the rendered image.
   */
  method Render(m: MathLib, scene: Scene, rotatePivot: (Vector, real, Vector) -> Vector,
                rotation: real, pivot: Vector, image: ImageData)
    requires image.Valid() && image.width == CANVAS_WIDTH && image.height == CANVAS_HEIGHT
    modifies image.data
    ensures image.Valid()
    ensures forall k :: 0 <= k < image.data.Length ==>
      image.data[k] == RenderedByte(m, scene, rotatePivot, rotation, pivot, k)
  {
    var y := 0;
    while y < CANVAS_HEIGHT
      invariant 0 <= y <= CANVAS_HEIGHT
      invariant image.Valid()
      invariant forall k :: 0 <= k < PixelIndex(0, y) ==>
        image.data[k] == RenderedByte(m, scene, rotatePivot, rotation, pivot, k)
    {
      var x := 0;
      while x < CANVAS_WIDTH
        invariant 0 <= x <= CANVAS_WIDTH
        invariant image.Valid()
        invariant forall k :: 0 <= k < PixelIndex(x, y) ==>
          image.data[k] == RenderedByte(m, scene, rotatePivot, rotation, pivot, k)
      {
        var dir := Vector(x as real - CANVAS_WIDTH as real / 2.0, CANVAS_HEIGHT as real / 2.0 - y as real, -(CANVAS_HEIGHT as real));
        var pos := rotatePivot(scene.camera, rotation, pivot);
        dir := Unit(m, rotatePivot(dir, rotation, pivot));
        var clr := Trace(m, scene, pos, dir, 0);
        assert clr == PixelColour(m, scene, rotatePivot, rotation, pivot, x, y);
        DrawPixel(image, x, y, clr.x, clr.y, clr.z);
        forall k | PixelIndex(x, y) <= k < PixelIndex(x + 1, y)
          ensures image.data[k] == RenderedByte(m, scene, rotatePivot, rotation, pivot, k)
        {
          PixelInBounds(x, y);
          RenderedPixel(m, scene, rotatePivot, rotation, pivot, x, y, k - PixelIndex(x, y));
        }
        x := x + 1;
      }
      y := y + 1;
    }
  }
}
