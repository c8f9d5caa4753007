/** `WatermarkSettings`: the mutable record describing one watermark, with its
    documented defaults, single-field setters, the path setter that also builds
    a `File`, and the font-style bitmask derived from `bold` and `italic`. */
module Settings {
  import opened JavaLang
  import opened Awt

  datatype WatermarkType = TEXT | IMAGE

  /** A `java.io.File`: an abstract path name (it need not exist). */
  datatype FileRef = FileRef(path: string)

  /** Every field of a `WatermarkSettings` object, as a value. This is what
      serialization writes and reads back. */
  datatype SettingsValue = SettingsValue(
    watermarkType: WatermarkType,
    text: string,
    fontName: string,
    fontSize: Int32,
    bold: bool,
    italic: bool,
    textColor: Color,
    textOpacity: Float32,
    enableShadow: bool,
    shadowColor: Color,
    watermarkImage: Option<FileRef>,
    imageScale: Float32,
    imageOpacity: Float32,
    watermarkImagePath: Option<string>,
    positionX: Int32,
    positionY: Int32,
    rotation: Int32)

  /** The field initialisers: text "Watermark" in Arial 24, black at 0.7f
      opacity, no shadow (white if enabled), no image (scale 0.5f, opacity
      0.7f), centred at 50/50, unrotated. */
  const DEFAULT_SETTINGS: SettingsValue := SettingsValue(
    TEXT, "Watermark", "Arial", 24, false, false, BLACK, Float32(0x3F33_3333),
    false, WHITE, None, Float32(0x3F00_0000), Float32(0x3F33_3333), None, 50, 50, 0)

  /** The style constants of `java.awt.Font`. */
  const PLAIN: bv32 := 0
  const BOLD: bv32 := 1
  const ITALIC: bv32 := 2

  /** `getFontStyle`: PLAIN, with BOLD or-ed in when bold and ITALIC when
      italic. The mask carries exactly the two flags, so `Font` can read them back. */
  function FontStyle(bold: bool, italic: bool): (style: bv32)
    ensures (style & BOLD != 0) == bold
    ensures (style & ITALIC != 0) == italic
    ensures style & !(BOLD | ITALIC) == 0
  {
    var withBold := if bold then PLAIN | BOLD else PLAIN;
    if italic then withBold | ITALIC else withBold
  }

  /** The four combinations give the four distinct `Font` styles 0, 1, 2, 3. */
  lemma FontStyleValues(bold: bool, italic: bool)
    ensures FontStyle(bold, italic) as int == (if bold then 1 else 0) + (if italic then 2 else 0)
    ensures FontStyle(bold, italic) == FontStyle(bold, false) | FontStyle(false, italic)
  {
  }

  class WatermarkSettings {
    var watermarkType: WatermarkType
    var text: string
    var fontName: string
    var fontSize: Int32
    var bold: bool
    var italic: bool
    var textColor: Color
    var textOpacity: Float32
    var enableShadow: bool
    var shadowColor: Color
    var watermarkImage: Option<FileRef>
    var imageScale: Float32
    var imageOpacity: Float32
    var watermarkImagePath: Option<string>
    var positionX: Int32
    var positionY: Int32
    var rotation: Int32

    /** The object's fields as one value. */
    function Value(): SettingsValue
      reads this
    {
      SettingsValue(watermarkType, text, fontName, fontSize, bold, italic, textColor, textOpacity,
                    enableShadow, shadowColor, watermarkImage, imageScale, imageOpacity,
                    watermarkImagePath, positionX, positionY, rotation)
    }

    /** `new WatermarkSettings()`: the field initialisers. */
    constructor ()
      ensures Value() == DEFAULT_SETTINGS
    {
      watermarkType := TEXT;
      text := "Watermark";
      fontName := "Arial";
      fontSize := 24;
      bold := false;
      italic := false;
      textColor := BLACK;
      textOpacity := Float32(0x3F33_3333);
      enableShadow := false;
      shadowColor := WHITE;
      watermarkImage := None;
      imageScale := Float32(0x3F00_0000);
      imageOpacity := Float32(0x3F33_3333);
      watermarkImagePath := None;
      positionX := 50;
      positionY := 50;
      rotation := 0;
    }

    /** An object rebuilt from a stored value, as deserialization does. */
    constructor FromValue(v: SettingsValue)
      ensures Value() == v
    {
      watermarkType, text, fontName, fontSize := v.watermarkType, v.text, v.fontName, v.fontSize;
      bold, italic, textColor, textOpacity := v.bold, v.italic, v.textColor, v.textOpacity;
      enableShadow, shadowColor, watermarkImage := v.enableShadow, v.shadowColor, v.watermarkImage;
      imageScale, imageOpacity, watermarkImagePath := v.imageScale, v.imageOpacity, v.watermarkImagePath;
      positionX, positionY, rotation := v.positionX, v.positionY, v.rotation;
    }

    method SetType(t: WatermarkType)
      modifies this
      ensures Value() == old(Value()).(watermarkType := t)
    {
      watermarkType := t;
    }

    method SetText(s: string)
      modifies this
      ensures Value() == old(Value()).(text := s)
    {
      text := s;
    }

    method SetFontName(name: string)
      modifies this
      ensures Value() == old(Value()).(fontName := name)
    {
      fontName := name;
    }

    method SetFontSize(size: Int32)
      modifies this
      ensures Value() == old(Value()).(fontSize := size)
    {
      fontSize := size;
    }

    method SetBold(b: bool)
      modifies this
      ensures Value() == old(Value()).(bold := b)
    {
      bold := b;
    }

    method SetItalic(b: bool)
      modifies this
      ensures Value() == old(Value()).(italic := b)
    {
      italic := b;
    }

    method SetTextColor(c: Color)
      modifies this
      ensures Value() == old(Value()).(textColor := c)
    {
      textColor := c;
    }

    method SetTextOpacity(f: Float32)
      modifies this
      ensures Value() == old(Value()).(textOpacity := f)
    {
      textOpacity := f;
    }

    method SetEnableShadow(b: bool)
      modifies this
      ensures Value() == old(Value()).(enableShadow := b)
    {
      enableShadow := b;
    }

    method SetShadowColor(c: Color)
      modifies this
      ensures Value() == old(Value()).(shadowColor := c)
    {
      shadowColor := c;
    }

    /** `setWatermarkImage(file)`: sets the `File` alone; the path string is untouched. */
    method SetWatermarkImage(file: Option<FileRef>)
      modifies this
      ensures Value() == old(Value()).(watermarkImage := file)
    {
      watermarkImage := file;
    }

    /** `setWatermarkImagePath(path)`: always stores the path; builds a new
        `File` for it only when it is not null, so clearing the path leaves the
        previous `File` in place. */
    method SetWatermarkImagePath(path: Option<string>)
      modifies this
      ensures watermarkImagePath == path
      ensures path.Some? ==> watermarkImage == Some(FileRef(path.value))
      ensures path.None? ==> watermarkImage == old(watermarkImage)
      ensures Value() == old(Value()).(watermarkImagePath := watermarkImagePath, watermarkImage := watermarkImage)
    {
      watermarkImagePath := path;
      if path.Some? {
        watermarkImage := Some(FileRef(path.value));
      }
    }

    method SetImageScale(f: Float32)
      modifies this
      ensures Value() == old(Value()).(imageScale := f)
    {
      imageScale := f;
    }

    method SetImageOpacity(f: Float32)
      modifies this
      ensures Value() == old(Value()).(imageOpacity := f)
    {
      imageOpacity := f;
    }

    method SetPositionX(x: Int32)
      modifies this
      ensures Value() == old(Value()).(positionX := x)
    {
      positionX := x;
    }

    method SetPositionY(y: Int32)
      modifies this
      ensures Value() == old(Value()).(positionY := y)
    {
      positionY := y;
    }

    method SetRotation(degrees: Int32)
      modifies this
      ensures Value() == old(Value()).(rotation := degrees)
    {
      rotation := degrees;
    }

    /** `getFontStyle()` on this object's flags. */
    function GetFontStyle(): (style: bv32)
      reads this
      ensures (style & BOLD != 0) == bold && (style & ITALIC != 0) == italic
    {
      FontStyle(bold, italic)
    }
  }
}
