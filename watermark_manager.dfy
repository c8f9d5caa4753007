/** `WatermarkManager`: renders the current settings onto a copy of an image.
    Placement is Java `int` arithmetic on percentages of the free travel
    `(W - w)`; the text baseline adds the font ascent; a rotation about the
    watermark's centre is pushed only for a non-zero angle and the saved
    transform is restored afterwards; the shadow is drawn before the text; an
    image watermark that cannot be found or decoded draws nothing. */
module Watermarking {
  import opened JavaLang
  import opened Awt
  import opened Settings

  /** What `FontMetrics` reports for the configured font and text:
      `stringWidth(text)`, `getHeight()` and `getAscent()`. */
  datatype FontMetrics = FontMetrics(stringWidth: Int32, height: Int32, ascent: Int32)

  /** The outcome of looking up the watermark image file. */
  datatype AssetRead =
    | NoFile        // the settings hold no `File`
    | Missing       // `File.exists()` is false
    | ReadError     // `ImageIO.read` threw an `IOException`
    | Undecodable   // `ImageIO.read` returned null
      /** Decoded, with its size already scaled by `imageScale` and truncated to `int`. */
    | Decoded(image: Image, scaledWidth: Int32, scaledHeight: Int32)

  /** A `TYPE_INT_ARGB` buffer (when `hasAlpha`) of the given size holding
      what `commands` paint onto a transparent canvas. */
  datatype Raster = Raster(width: Int32, height: Int32, hasAlpha: bool, commands: seq<DrawCommand>)

  /** What `applyWatermark` does: returns null, returns a raster, or lets the
      `IllegalArgumentException` of an out-of-range opacity escape. */
  datatype Rendering = NullImage | Rendered(raster: Raster) | IllegalAlpha

  /** `(total - size) * percent / 100` in Java `int` arithmetic: where a box of
      `size` starts when placed at `percent` of the free travel in `total`. */
  function Anchor(total: Int32, size: Int32, percent: Int32): (x: Int32)
    ensures INT_MIN <= total - size <= INT_MAX && INT_MIN <= (total - size) * percent <= INT_MAX ==>
              x == TruncDiv((total - size) * percent, 100)
  {
    Div(Mul(Sub(total, size), percent), 100)
  }

  /** `new Font(fontName, getFontStyle(), fontSize)`. */
  function TextFont(s: SettingsValue): Font
  {
    Font(s.fontName, FontStyle(s.bold, s.italic), s.fontSize)
  }

  /** The text's x and its baseline y: the anchor of the text box, plus the
      ascent so that the top of the glyphs, not the baseline, sits at the anchor. */
  function TextOrigin(s: SettingsValue, m: FontMetrics, width: Int32, height: Int32): (o: (Int32, Int32))
    ensures o.0 == Anchor(width, m.stringWidth, s.positionX)
    ensures INT_MIN <= Anchor(height, m.height, s.positionY) + m.ascent <= INT_MAX ==>
              o.1 - m.ascent == Anchor(height, m.height, s.positionY)
  {
    (Anchor(width, m.stringWidth, s.positionX), Add(Anchor(height, m.height, s.positionY), m.ascent))
  }

  /** The transform after `if (degrees != 0) rotate(..., px, py)`. */
  function RotatedAbout(t: Transform, degrees: Int32, px: Int32, py: Int32): (r: Transform)
    ensures r == t <==> degrees == 0
    ensures t.rotations <= r.rotations && |r.rotations| <= |t.rotations| + 1
    ensures r != t ==> r.rotations[|r.rotations| - 1] == Rotation(degrees, px, py)
  {
    if degrees != 0 then Transform(t.rotations + [Rotation(degrees, px, py)]) else t
  }

  /** The draw calls of a text watermark over a graphics whose transform is `base`. */
  function TextCommands(s: SettingsValue, m: FontMetrics, width: Int32, height: Int32, base: Transform): (r: seq<DrawCommand>)
    ensures |r| == if s.enableShadow then 2 else 1
    ensures forall i :: 0 <= i < |r| ==>
              && r[i].DrawString? && r[i].text == s.text && r[i].font == TextFont(s)
              && r[i].composite == SrcOver(s.textOpacity)
  {
    var (x, y) := TextOrigin(s, m, width, height);
    var t := RotatedAbout(base, s.rotation, Add(x, Div(m.stringWidth, 2)), Sub(y, Div(m.height, 2)));
    var c := SrcOver(s.textOpacity);
    var main := [DrawString(s.text, x, y, TextFont(s), s.textColor, t, c)];
    if s.enableShadow then [DrawString(s.text, Add(x, 2), Add(y, 2), TextFont(s), s.shadowColor, t, c)] + main
    else main
  }

  /** The settings' `File` looked up in `assets`. */
  function ResolveAsset(s: SettingsValue, assets: FileRef -> AssetRead): (a: AssetRead)
    ensures s.watermarkImage.None? ==> a.NoFile?
    ensures s.watermarkImage.Some? ==> a == assets(s.watermarkImage.value)
  {
    if s.watermarkImage.None? then NoFile else assets(s.watermarkImage.value)
  }

  /** The draw calls of an image watermark over a graphics whose transform is `base`. */
  function ImageCommands(s: SettingsValue, a: AssetRead, width: Int32, height: Int32, base: Transform): (r: seq<DrawCommand>)
    ensures |r| == if a.Decoded? then 1 else 0
    ensures forall i :: 0 <= i < |r| ==>
              && r[i].DrawImage? && r[i].image == a.image
              && r[i].width == a.scaledWidth && r[i].height == a.scaledHeight
              && r[i].composite == SrcOver(s.imageOpacity)
  {
    if a.Decoded? then
      var x := Anchor(width, a.scaledWidth, s.positionX);
      var y := Anchor(height, a.scaledHeight, s.positionY);
      var t := RotatedAbout(base, s.rotation, Add(x, Div(a.scaledWidth, 2)), Add(y, Div(a.scaledHeight, 2)));
      [DrawImage(a.image, x, y, a.scaledWidth, a.scaledHeight, t, SrcOver(s.imageOpacity))]
    else []
  }

  /** Drawing the source image at (0, 0) at its own size, with the fresh graphics' state. */
  function BaseCommand(img: Image): DrawCommand
  {
    DrawImage(img, 0, 0, img.width, img.height, IDENTITY, SrcOver(FLOAT_ONE))
  }

  /** The whole of `applyWatermark` as a value. */
  function Render(image: Option<Image>, s: SettingsValue, m: FontMetrics, assets: FileRef -> AssetRead): (r: Rendering)
    ensures r.NullImage? <==> image.None?
    ensures r.Rendered? ==> && r.raster.width == image.value.width
                            && r.raster.height == image.value.height
                            && r.raster.hasAlpha
                            && |r.raster.commands| >= 1
                            && r.raster.commands[0] == BaseCommand(image.value)
    ensures r.IllegalAlpha? <==>
              image.Some? && (if s.watermarkType == TEXT then !IsUnitAlpha(s.textOpacity)
                              else ResolveAsset(s, assets).Decoded? && !IsUnitAlpha(s.imageOpacity))
  {
    if image.None? then NullImage
    else
      var img := image.value;
      if s.watermarkType == TEXT then
        if IsUnitAlpha(s.textOpacity) then
          Rendered(Raster(img.width, img.height, true,
                          [BaseCommand(img)] + TextCommands(s, m, img.width, img.height, IDENTITY)))
        else IllegalAlpha
      else
        var a := ResolveAsset(s, assets);
        if a.Decoded? && !IsUnitAlpha(s.imageOpacity) then IllegalAlpha
        else Rendered(Raster(img.width, img.height, true,
                             [BaseCommand(img)] + ImageCommands(s, a, img.width, img.height, IDENTITY)))
  }

  // ---------------------------------------------------------------------------
  // Placement

  /** A product of two non-negative numbers is non-negative. */
  lemma {:induction false} MulNonNegative(a: int, b: int)
    requires 0 <= a && 0 <= b
    ensures 0 <= a * b
    decreases b
  {
    if b > 0 {
      MulNonNegative(a, b - 1);
      assert a * b == a * (b - 1) + a;
    }
  }

  /** Products of a number with a percentage stay between 0 and the number times 100. */
  lemma MulPercent(d: int, p: int)
    requires 0 <= p <= 100
    ensures 0 <= d ==> 0 <= d * p <= d * 100
    ensures d < 0 ==> d * 100 <= d * p <= 0
  {
    assert d * 100 - d * p == d * (100 - p);
    if 0 <= d {
      MulNonNegative(d, p);
      MulNonNegative(d, 100 - p);
    } else {
      MulNonNegative(-d, p);
      MulNonNegative(-d, 100 - p);
      assert -d * p == -(d * p);
      assert -d * (100 - p) == -(d * (100 - p));
    }
  }

  /** Percent 0 puts the box at the start; percent 100 at `total - size`, so its
      far edge meets the far edge of the image. */
  lemma AnchorAtEdges(total: Int32, size: Int32)
    requires INT_MIN <= (total - size) * 100 <= INT_MAX
    ensures Anchor(total, size, 0) == 0
    ensures Anchor(total, size, 100) == total - size
  {
    var d := total - size;
    assert INT_MIN <= d <= INT_MAX;
    TruncDivUnique(0, 100, 0);
    TruncDivUnique(d * 100, 100, d);
  }

  /** For every percentage in [0, 100] the anchor lies in the travel between 0
      and `total - size`; in particular a box no larger than the image is
      placed wholly inside it. */
  lemma AnchorWithinTravel(total: Int32, size: Int32, percent: Int32)
    requires 0 <= percent <= 100
    requires INT_MIN <= (total - size) * 100 <= INT_MAX
    ensures var x := Anchor(total, size, percent);
            && (total - size >= 0 ==> 0 <= x <= total - size)
            && (total - size < 0 ==> total - size <= x <= 0)
    ensures 0 <= size <= total ==> 0 <= Anchor(total, size, percent) && Anchor(total, size, percent) + size <= total
  {
    var d := total - size;
    MulPercent(d, percent);
    assert Mul(Sub(total, size), percent) == d * percent;
  }

  /** Percent 50 centres the box: the margins left on the two sides differ by
      at most one pixel. Division truncates toward zero, so the odd pixel goes
      to the far side when the box fits in the image and to the near side
      when it overhangs it. */
  lemma AnchorCentred(total: Int32, size: Int32)
    requires INT_MIN <= (total - size) * 100 <= INT_MAX
    ensures var x := Anchor(total, size, 50);
            var d := (total - size - x) - x;
            && (size <= total ==> 0 <= d <= 1)
            && (size > total ==> -1 <= d <= 0)
  {
    var d := total - size;
    var h := TruncDiv(d, 2);
    assert Mul(Sub(total, size), 50) == d * 50;
    TruncDivUnique(d * 50, 100, h);
  }

  // ---------------------------------------------------------------------------
  // Draw order, rotation and degradation

  /** The main string is drawn last, at the text origin, in the text colour;
      when the shadow is on it is drawn first, two pixels right and down, in
      the shadow colour, under the same transform and composite. */
  lemma ShadowDrawnBeforeText(s: SettingsValue, m: FontMetrics, width: Int32, height: Int32, base: Transform)
    ensures var cmds := TextCommands(s, m, width, height, base);
            var (x, y) := TextOrigin(s, m, width, height);
            && |cmds| == (if s.enableShadow then 2 else 1)
            && cmds[|cmds| - 1].DrawString?
            && cmds[|cmds| - 1].x == x && cmds[|cmds| - 1].y == y
            && cmds[|cmds| - 1].color == s.textColor
            && cmds[|cmds| - 1].text == s.text
            && (s.enableShadow ==>
                  && cmds[0].DrawString? && cmds[0].text == s.text
                  && cmds[0].x == Add(x, 2) && cmds[0].y == Add(y, 2)
                  && cmds[0].color == s.shadowColor
                  && cmds[0].transform == cmds[1].transform
                  && cmds[0].composite == cmds[1].composite)
  {
  }

  /** The angle never moves the watermark: every draw call lands at the same
      coordinates whatever the rotation, and at rotation 0 the graphics'
      transform is used unchanged. */
  lemma RotationKeepsPlacement(s: SettingsValue, m: FontMetrics, a: AssetRead, width: Int32, height: Int32,
                               base: Transform, degrees: Int32)
    ensures var rotated := TextCommands(s.(rotation := degrees), m, width, height, base);
            var plain := TextCommands(s.(rotation := 0), m, width, height, base);
            && |rotated| == |plain|
            && (forall i :: 0 <= i < |plain| ==>
                  rotated[i].x == plain[i].x && rotated[i].y == plain[i].y && plain[i].transform == base)
    ensures var rotated := ImageCommands(s.(rotation := degrees), a, width, height, base);
            var plain := ImageCommands(s.(rotation := 0), a, width, height, base);
            && |rotated| == |plain|
            && (forall i :: 0 <= i < |plain| ==>
                  rotated[i].x == plain[i].x && rotated[i].y == plain[i].y && plain[i].transform == base)
  {
  }

  /** Text is rotated about the centre of its box: half the string width
      right of the origin and half the line height above the baseline. */
  lemma TextRotationPivot(s: SettingsValue, m: FontMetrics, width: Int32, height: Int32, base: Transform)
    ensures var cmds := TextCommands(s, m, width, height, base);
            var (x, y) := TextOrigin(s, m, width, height);
            cmds[|cmds| - 1].transform
              == RotatedAbout(base, s.rotation, Add(x, Div(m.stringWidth, 2)), Sub(y, Div(m.height, 2)))
  {
  }

  /** An image watermark is rotated about its own centre: half its scaled
      width and height beyond its top-left corner. */
  lemma ImageRotationPivot(s: SettingsValue, img: Image, w: Int32, h: Int32, width: Int32, height: Int32, base: Transform)
    ensures var cmds := ImageCommands(s, Decoded(img, w, h), width, height, base);
            var x := Anchor(width, w, s.positionX);
            var y := Anchor(height, h, s.positionY);
            cmds[0].transform == RotatedAbout(base, s.rotation, Add(x, Div(w, 2)), Add(y, Div(h, 2)))
  {
  }

  /** In image mode, a missing `File`, a file that does not exist, a read
      error or an undecodable file all give the plain copy of the source. */
  lemma MissingAssetDrawsNothing(img: Image, s: SettingsValue, m: FontMetrics, assets: FileRef -> AssetRead)
    requires s.watermarkType == IMAGE
    requires !ResolveAsset(s, assets).Decoded?
    ensures Render(Some(img), s, m, assets) == Rendered(Raster(img.width, img.height, true, [BaseCommand(img)]))
  {
  }

  /** An image watermark is drawn once, at its scaled size, with the image
      opacity; its y carries no ascent term. */
  lemma ImagePlacement(s: SettingsValue, img: Image, w: Int32, h: Int32, width: Int32, height: Int32, base: Transform)
    ensures var cmds := ImageCommands(s, Decoded(img, w, h), width, height, base);
            && |cmds| == 1 && cmds[0].DrawImage? && cmds[0].image == img
            && cmds[0].x == Anchor(width, w, s.positionX) && cmds[0].y == Anchor(height, h, s.positionY)
            && cmds[0].width == w && cmds[0].height == h
            && cmds[0].composite == SrcOver(s.imageOpacity)
  {
  }

  class WatermarkManager {
    var settings: WatermarkSettings

    /** `new WatermarkManager()`: holds a fresh default settings object. */
    constructor ()
      ensures fresh(settings) && settings.Value() == DEFAULT_SETTINGS
    {
      settings := new WatermarkSettings();
    }

    /** `applyWatermark(image)`: null for null; otherwise a new ARGB buffer of
        the same size with the image drawn first and the watermark on top. */
    method ApplyWatermark(image: Option<Image>, metrics: FontMetrics, assets: FileRef -> AssetRead)
      returns (r: Rendering)
      ensures r == Render(image, settings.Value(), metrics, assets)
    {
      if image.None? {
        return NullImage;
      }
      var img := image.value;
      var g := new Graphics();
      g.DrawImageAt(img, 0, 0);
      var ok;
      if settings.watermarkType == TEXT {
        ok := ApplyTextWatermark(g, img.width, img.height, metrics);
      } else {
        ok := ApplyImageWatermark(g, img.width, img.height, assets);
      }
      if !ok {
        return IllegalAlpha;
      }
      r := Rendered(Raster(img.width, img.height, true, g.commands));
    }

    /** `applyTextWatermark(g2d, width, height)`. Returns false where the
        `IllegalArgumentException` of `AlphaComposite.getInstance` escapes. */
    method ApplyTextWatermark(g: Graphics, width: Int32, height: Int32, metrics: FontMetrics) returns (ok: bool)
      modifies g
      ensures ok == IsUnitAlpha(settings.textOpacity)
      ensures ok ==> g.commands == old(g.commands) + TextCommands(settings.Value(), metrics, width, height, old(g.transform))
      ensures ok ==> g.transform == old(g.transform)
    {
      g.SetFont(Font(settings.fontName, settings.GetFontStyle(), settings.fontSize));
      var textWidth := metrics.stringWidth;
      var textHeight := metrics.height;
      var x := Div(Mul(Sub(width, textWidth), settings.positionX), 100);
      var y := Add(Div(Mul(Sub(height, textHeight), settings.positionY), 100), metrics.ascent);
      var originalTransform := g.transform;
      if settings.rotation != 0 {
        g.Rotate(settings.rotation, Add(x, Div(textWidth, 2)), Sub(y, Div(textHeight, 2)));
      }
      var alphaComposite := AlphaComposite(settings.textOpacity);
      if alphaComposite.None? {
        return false;
      }
      g.SetComposite(alphaComposite.value);
      if settings.enableShadow {
        g.SetColor(settings.shadowColor);
        g.DrawText(settings.text, Add(x, 2), Add(y, 2));
      }
      g.SetColor(settings.textColor);
      g.DrawText(settings.text, x, y);
      g.SetTransform(originalTransform);
      ok := true;
    }

    /** `applyImageWatermark(g2d, width, height)`: returns early, drawing
        nothing, when there is no file, it does not exist, reading it fails or
        it does not decode. Returns false where the `IllegalArgumentException`
        of `AlphaComposite.getInstance` escapes. */
    method ApplyImageWatermark(g: Graphics, width: Int32, height: Int32, assets: FileRef -> AssetRead) returns (ok: bool)
      modifies g
      ensures ok == !(ResolveAsset(settings.Value(), assets).Decoded? && !IsUnitAlpha(settings.imageOpacity))
      ensures ok ==> g.commands == old(g.commands) + ImageCommands(settings.Value(), ResolveAsset(settings.Value(), assets), width, height, old(g.transform))
      ensures ok ==> g.transform == old(g.transform)
    {
      if settings.watermarkImage.None? {
        return true;
      }
      var read := assets(settings.watermarkImage.value);
      if read.Missing? || read.ReadError? || read.Undecodable? || read.NoFile? {
        return true;
      }
      var wmWidth := read.scaledWidth;
      var wmHeight := read.scaledHeight;
      var x := Div(Mul(Sub(width, wmWidth), settings.positionX), 100);
      var y := Div(Mul(Sub(height, wmHeight), settings.positionY), 100);
      var originalTransform := g.transform;
      if settings.rotation != 0 {
        g.Rotate(settings.rotation, Add(x, Div(wmWidth, 2)), Add(y, Div(wmHeight, 2)));
      }
      var alphaComposite := AlphaComposite(settings.imageOpacity);
      if alphaComposite.None? {
        return false;
      }
      g.SetComposite(alphaComposite.value);
      g.DrawImageScaled(read.image, x, y, wmWidth, wmHeight);
      g.SetTransform(originalTransform);
      ok := true;
    }

    /** `setWatermarkType(type)`: changes the type of the current settings object only. */
    method SetWatermarkType(t: WatermarkType)
      modifies settings
      ensures settings == old(settings)
      ensures settings.Value() == old(settings.Value()).(watermarkType := t)
    {
      settings.SetType(t);
    }

    /** `applySettings(settings)`: replaces the reference; the object is shared, not copied. */
    method ApplySettings(s: WatermarkSettings)
      modifies this
      ensures settings == s
    {
      settings := s;
    }
  }
}
