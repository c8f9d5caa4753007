/** The slice of `java.awt` the watermark renderer talks to: colours, fonts,
    alpha composites, affine transforms (only the rotations the renderer pushes),
    and a `Graphics2D` modelled as a recorder of draw commands. Pixels are
    never computed: a raster is described by the commands painted onto it. */
module Awt {
  import opened JavaLang

  /** A Java `float`, kept as its IEEE 754 single-precision bit pattern. The
      core only passes these values through. */
  datatype Float32 = Float32(bits: bv32)

  const FLOAT_ONE: Float32 := Float32(0x3F80_0000)

  /** `AlphaComposite.getInstance` accepts `alpha` only when
      `0.0f <= alpha <= 1.0f`. On the bit pattern: the non-negative floats up
      to 1.0f are exactly the patterns 0 .. 0x3F800000 (they order like their
      bits), and -0.0f (0x80000000) also compares `>= 0.0f`; every other
      pattern is negative, above one, infinite or NaN. */
  function IsUnitAlpha(f: Float32): (ok: bool)
    ensures f == FLOAT_ONE || f.bits == 0 || f.bits == 0x8000_0000 ==> ok
    ensures f.bits == 0x3F80_0001 || f.bits == 0xBF80_0000 || f.bits == 0x7F80_0000 || f.bits == 0x7FC0_0000 ==> !ok
  {
    f.bits <= 0x3F80_0000 || f.bits == 0x8000_0000
  }

  /** A `java.awt.Color`, as its packed ARGB value. */
  datatype Color = Color(argb: bv32)

  const BLACK: Color := Color(0xFF00_0000)
  const WHITE: Color := Color(0xFFFF_FFFF)

  /** `java.awt.Font(name, style, size)`; `style` is the PLAIN/BOLD/ITALIC mask. */
  datatype Font = Font(name: string, style: bv32, size: Int32)

  /** The font a fresh `Graphics2D` starts with (`Dialog`, plain, 12 point). */
  const DEFAULT_FONT: Font := Font("Dialog", 0, 12)

  /** `rotate(theta, x, y)`: a rotation by `degrees` (converted to radians by
      the caller's `Math.toRadians`) about the pivot `(x, y)`. */
  datatype Rotation = Rotation(degrees: Int32, pivotX: Int32, pivotY: Int32)

  /** An `AffineTransform`: the rotations concatenated onto the identity, in order. */
  datatype Transform = Transform(rotations: seq<Rotation>)

  const IDENTITY: Transform := Transform([])

  /** `AlphaComposite` with rule SRC_OVER and a constant alpha. */
  datatype Composite = SrcOver(alpha: Float32)

  /** `AlphaComposite.getInstance(SRC_OVER, alpha)`: `None` stands for the
      `IllegalArgumentException` it throws for an alpha outside [0, 1]. */
  function AlphaComposite(alpha: Float32): (c: Option<Composite>)
    ensures c.Some? <==> IsUnitAlpha(alpha)
    ensures c.Some? ==> c.value.alpha == alpha
  {
    if IsUnitAlpha(alpha) then Some(SrcOver(alpha)) else None
  }

  /** A decoded raster image. Its pixels are opaque and identified by `id`. */
  datatype Image = Image(id: nat, width: Int32, height: Int32)

  /** One call that paints, with the graphics state it was made under. */
  datatype DrawCommand =
    | DrawImage(image: Image, x: Int32, y: Int32, width: Int32, height: Int32,
                transform: Transform, composite: Composite)
    | DrawString(text: string, x: Int32, y: Int32, font: Font, color: Color,
                 transform: Transform, composite: Composite)

  /** The part of a `Graphics2D`'s state that draw calls use. */
  datatype GraphicsState = GraphicsState(transform: Transform, composite: Composite, color: Color, font: Font)

  /** A `Graphics2D` opened on a fresh buffer, recording every draw call. */
  class Graphics {
    var transform: Transform
    var composite: Composite
    var color: Color
    var font: Font
    var commands: seq<DrawCommand>

    function State(): GraphicsState
      reads this
    {
      GraphicsState(transform, composite, color, font)
    }

    /** `BufferedImage.createGraphics()`: identity transform, opaque SRC_OVER,
        white, the default font, nothing drawn yet. */
    constructor ()
      ensures State() == GraphicsState(IDENTITY, SrcOver(FLOAT_ONE), WHITE, DEFAULT_FONT)
      ensures commands == []
    {
      transform := IDENTITY;
      composite := SrcOver(FLOAT_ONE);
      color := WHITE;
      font := DEFAULT_FONT;
      commands := [];
    }

    method SetFont(f: Font)
      modifies this
      ensures State() == old(State()).(font := f)
      ensures commands == old(commands)
    {
      font := f;
    }

    method SetColor(c: Color)
      modifies this
      ensures State() == old(State()).(color := c)
      ensures commands == old(commands)
    {
      color := c;
    }

    method SetComposite(c: Composite)
      modifies this
      ensures State() == old(State()).(composite := c)
      ensures commands == old(commands)
    {
      composite := c;
    }

    /** `setTransform(t)`, as used to restore a transform saved by `getTransform()`. */
    method SetTransform(t: Transform)
      modifies this
      ensures State() == old(State()).(transform := t)
      ensures commands == old(commands)
    {
      transform := t;
    }

    /** `rotate(Math.toRadians(degrees), x, y)`: concatenates a rotation about `(x, y)`. */
    method Rotate(degrees: Int32, x: Int32, y: Int32)
      modifies this
      ensures State() == old(State()).(transform := Transform(old(transform).rotations + [Rotation(degrees, x, y)]))
      ensures commands == old(commands)
    {
      transform := Transform(transform.rotations + [Rotation(degrees, x, y)]);
    }

    /** `drawImage(img, x, y, width, height, null)`. */
    method DrawImageScaled(img: Image, x: Int32, y: Int32, width: Int32, height: Int32)
      modifies this
      ensures State() == old(State())
      ensures commands == old(commands) + [DrawImage(img, x, y, width, height, transform, composite)]
    {
      commands := commands + [DrawImage(img, x, y, width, height, transform, composite)];
    }

    /** `drawImage(img, x, y, null)`: the image at its own size. */
    method DrawImageAt(img: Image, x: Int32, y: Int32)
      modifies this
      ensures State() == old(State())
      ensures commands == old(commands) + [DrawImage(img, x, y, img.width, img.height, transform, composite)]
    {
      DrawImageScaled(img, x, y, img.width, img.height);
    }

    /** `drawString(text, x, y)`: `y` is the baseline. */
    method DrawText(text: string, x: Int32, y: Int32)
      modifies this
      ensures State() == old(State())
      ensures commands == old(commands) + [DrawString(text, x, y, font, color, transform, composite)]
    {
      commands := commands + [DrawString(text, x, y, font, color, transform, composite)];
    }
  }
}
