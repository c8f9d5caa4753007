/** `ImageProcessor`: the export settings (format, JPEG quality, naming rule,
    custom text), the output file name derived from a source name, and the
    choice of encoder and buffer type made by `saveImage`. Encoding itself is
    not modelled. */
module Export {
  import opened JavaLang
  import opened Awt

  /** The four configuration fields of an `ImageProcessor`. */
  datatype ExportConfig = ExportConfig(outputFormat: string, jpegQuality: Float32, namingRule: string, customText: string)

  /** The field initialisers: "jpeg" at quality 0.9f, rule "original", text "watermarked". */
  const DEFAULT_EXPORT: ExportConfig := ExportConfig("jpeg", Float32(0x3F66_6666), "original", "watermarked")

  /** A file name split into its stem and its extension (the extension keeps its dot). */
  datatype NameParts = NameParts(stem: string, extension: string)

  /** The split `getOutputFileName` makes: at the last '.', but only when that
      dot is past the first character; otherwise the whole name is the stem. */
  function SplitName(name: string): (p: NameParts)
    ensures p.stem + p.extension == name
    ensures p.extension == [] <==> forall i :: 0 < i < |name| ==> name[i] != '.'
    ensures p.extension != [] ==>
              && p.extension[0] == '.' && p.stem != []
              && forall i :: 0 < i < |p.extension| ==> p.extension[i] != '.'
  {
    var dotIndex := LastIndexOf(name, '.');
    if dotIndex > 0 then
      assert name[..dotIndex] + name[dotIndex..] == name;
      NameParts(name[..dotIndex], name[dotIndex..])
    else NameParts(name, [])
  }

  /** The extension after the format is applied: ".jpg" for "jpeg" and ".png"
      for "png" (ignoring case); any other format, "jpg" included, keeps the
      source extension. */
  function TargetExtension(format: string, extension: string): (e: string)
    ensures e == ".jpg" || e == ".png" || e == extension
    ensures EqualsIgnoreCase(format, "jpeg") ==> e == ".jpg"
    ensures !EqualsIgnoreCase(format, "jpeg") && EqualsIgnoreCase(format, "png") ==> e == ".png"
  {
    if EqualsIgnoreCase(format, "jpeg") then ".jpg"
    else if EqualsIgnoreCase(format, "png") then ".png"
    else extension
  }

  /** `getOutputFileName(originalName)`. Rule names are matched exactly. */
  function OutputFileName(c: ExportConfig, originalName: string): (r: string)
    ensures (&& c.namingRule == "original"
             && !EqualsIgnoreCase(c.outputFormat, "jpeg")
             && !EqualsIgnoreCase(c.outputFormat, "png")) ==> r == originalName
  {
    var p := SplitName(originalName);
    var extension := TargetExtension(c.outputFormat, p.extension);
    if c.namingRule == "original" then p.stem + extension
    else if c.namingRule == "prefix" then c.customText + p.stem + extension
    else if c.namingRule == "suffix" then p.stem + c.customText + extension
    else p.stem + "_" + c.customText + extension
  }

  /** How `saveImage` writes: the JPEG writer with an explicit quality, or the PNG writer. */
  datatype Encoder = JpegExplicit(quality: Float32) | PngWriter

  /** `saveImage`'s dispatch: "jpeg" or "jpg" pick JPEG, "png" picks PNG and
      anything else falls back to JPEG (all ignoring case). */
  function SelectEncoder(c: ExportConfig): (e: Encoder)
    ensures e.PngWriter? <==> EqualsIgnoreCase(c.outputFormat, "png")
    ensures e.JpegExplicit? ==> e.quality == c.jpegQuality
  {
    FormatNamesLowerCase();
    if EqualsIgnoreCase(c.outputFormat, "jpeg") || EqualsIgnoreCase(c.outputFormat, "jpg") then
      JpegExplicit(c.jpegQuality)
    else if EqualsIgnoreCase(c.outputFormat, "png") then
      PngWriter
    else JpegExplicit(c.jpegQuality)
  }

  /** The lower-case format names the core compares against. */
  lemma FormatNamesLowerCase()
    ensures ToLowerCase("jpeg") == "jpeg" && ToLowerCase("jpg") == "jpg"
    ensures ToLowerCase("png") == "png" && ToLowerCase("bmp") == "bmp"
  {
    LowerCaseFixed("jpeg");
    LowerCaseFixed("jpg");
    LowerCaseFixed("png");
    LowerCaseFixed("bmp");
  }

  /** The pixel layout of a new `BufferedImage`. */
  datatype BufferType = TYPE_INT_ARGB | TYPE_INT_RGB

  /** What `saveImage` is handed: a `BufferedImage`, another kind of `Image`, or null. */
  datatype ImageKind = Buffered | OtherImage

  /** What `saveImage` goes on to do: the conversion into a new buffer (only
      for an image that is not already a `BufferedImage`) and the encoder;
      `NullPointer` for a null image, which `saveImage` does not catch. */
  datatype SaveOutcome = NullPointer | Encode(conversion: Option<BufferType>, encoder: Encoder)

  function SaveImage(c: ExportConfig, image: Option<ImageKind>): (o: SaveOutcome)
    ensures o.NullPointer? <==> image.None?
    ensures o.Encode? ==> (o.conversion.Some? <==> image == Some(OtherImage))
    ensures o.Encode? && o.conversion.Some? ==>
              (o.conversion.value == TYPE_INT_ARGB <==> EqualsIgnoreCase(c.outputFormat, "png"))
    ensures o.Encode? ==> o.encoder == SelectEncoder(c)
  {
    match image
    case None => NullPointer
    case Some(Buffered) => Encode(None, SelectEncoder(c))
    case Some(OtherImage) =>
      Encode(Some(if EqualsIgnoreCase(c.outputFormat, "png") then TYPE_INT_ARGB else TYPE_INT_RGB), SelectEncoder(c))
  }

  // ---------------------------------------------------------------------------
  // Properties of the file name

  /** The format decides the extension: ".jpg" exactly when it is "jpeg" and
      ".png" exactly when it is "png", ignoring case; otherwise the split
      extension is kept. The naming rule decides where the custom text goes:
      before the stem, after it, nowhere, or after an underscore for an
      unknown rule. */
  lemma {:induction false} OutputFileNameShape(c: ExportConfig, name: string)
    ensures var p := SplitName(name);
            var ext := TargetExtension(c.outputFormat, p.extension);
            && !(EqualsIgnoreCase(c.outputFormat, "jpeg") && EqualsIgnoreCase(c.outputFormat, "png"))
            && (EqualsIgnoreCase(c.outputFormat, "jpeg") ==> ext == ".jpg")
            && (EqualsIgnoreCase(c.outputFormat, "png") ==> ext == ".png")
            && (!EqualsIgnoreCase(c.outputFormat, "jpeg") && !EqualsIgnoreCase(c.outputFormat, "png") ==> ext == p.extension)
            && OutputFileName(c, name) ==
                 (if c.namingRule == "original" then p.stem
                  else if c.namingRule == "prefix" then c.customText + p.stem
                  else if c.namingRule == "suffix" then p.stem + c.customText
                  else p.stem + "_" + c.customText) + ext
  {
    var p := SplitName(name);
    var f := c.outputFormat;
    FormatNamesLowerCase();
    if EqualsIgnoreCase(f, "jpeg") {
      assert !EqualsIgnoreCase(f, "png");
    } else if EqualsIgnoreCase(f, "png") {
      assert ToLowerCase(f) == "png";
    } else {
      NotJpegOrPngKeepsExtension(f, p.extension);
    }
    if c.namingRule == "prefix" {
      assert c.customText + p.stem + TargetExtension(f, p.extension) == (c.customText + p.stem) + TargetExtension(f, p.extension);
    }
  }

  /** Any format other than "jpeg" or "png", "jpg" included, keeps the split
      extension. */
  lemma NotJpegOrPngKeepsExtension(f: string, extension: string)
    requires !EqualsIgnoreCase(f, "jpeg") && !EqualsIgnoreCase(f, "png")
    ensures TargetExtension(f, extension) == extension
  {
  }

  /** A name whose only dot is its first character (".hidden") or that has
      none is all stem: the new extension is appended to the whole name. */
  lemma NameWithoutExtension(c: ExportConfig, name: string)
    requires forall i :: 0 < i < |name| ==> name[i] != '.'
    requires c.namingRule == "original" && EqualsIgnoreCase(c.outputFormat, "jpeg")
    ensures OutputFileName(c, name) == name + ".jpg"
  {
  }

  /** Two source names with the same stem give the same output name whenever
      the format replaces the extension ("photo.png" and "photo.jpg" both
      export to "photo.jpg"), so the second export overwrites the first. */
  lemma SameStemSameOutput(c: ExportConfig, a: string, b: string)
    requires EqualsIgnoreCase(c.outputFormat, "jpeg") || EqualsIgnoreCase(c.outputFormat, "png")
    requires SplitName(a).stem == SplitName(b).stem
    ensures OutputFileName(c, a) == OutputFileName(c, b)
  {
    assert TargetExtension(c.outputFormat, SplitName(a).extension) == TargetExtension(c.outputFormat, SplitName(b).extension);
  }

  /** With the defaults the app runs with ("jpeg", "original"), a ".jpg"
      source keeps its name, so exporting into the source directory replaces
      the source file. */
  lemma DefaultsKeepJpgNames(stem: string)
    requires stem != []
    ensures OutputFileName(DEFAULT_EXPORT, stem + ".jpg") == stem + ".jpg"
  {
    var name := stem + ".jpg";
    assert name[|stem|] == '.';
    assert name[|stem| + 1] == 'j' && name[|stem| + 2] == 'p' && name[|stem| + 3] == 'g';
    assert LastIndexOf(name, '.') == |stem|;
    assert name[..|stem|] == stem;
    FormatNamesLowerCase();
  }

  /** The two worked examples: the format lowercases and replaces the
      extension, and the split happens at the last dot. */
  lemma NamingExamples()
    ensures OutputFileName(ExportConfig("jpeg", DEFAULT_EXPORT.jpegQuality, "prefix", "wm_"), "photo.PNG") == "wm_photo.jpg"
    ensures OutputFileName(ExportConfig("png", DEFAULT_EXPORT.jpegQuality, "suffix", "_done"), "a.b.jpg") == "a.b_done.png"
    ensures OutputFileName(DEFAULT_EXPORT, ".hidden") == ".hidden.jpg"
  {
    var p := SplitName("photo.PNG");
    assert "photo.PNG"[5] == '.';
    assert p.stem == "photo";
    var q := SplitName("a.b.jpg");
    assert "a.b.jpg"[3] == '.';
    assert q.stem == "a.b";
  }

  /** The extension and the encoder agree for "jpeg" and "png"; for "jpg" the
      encoder writes JPEG while the name keeps the source extension. */
  lemma ExtensionMatchesEncoder(c: ExportConfig, name: string)
    ensures EqualsIgnoreCase(c.outputFormat, "jpeg") ==>
              SelectEncoder(c) == JpegExplicit(c.jpegQuality) && EndsWith(OutputFileName(c, name), ".jpg")
    ensures EqualsIgnoreCase(c.outputFormat, "png") ==>
              SelectEncoder(c) == PngWriter && EndsWith(OutputFileName(c, name), ".png")
    ensures EqualsIgnoreCase(c.outputFormat, "jpg") ==>
              SelectEncoder(c).JpegExplicit? && OutputFileName(c, name) == OutputFileName(c.(outputFormat := "bmp"), name)
  {
    OutputFileNameShape(c, name);
    if EqualsIgnoreCase(c.outputFormat, "jpg") {
      OutputFileNameShape(c.(outputFormat := "bmp"), name);
      FormatNamesLowerCase();
    }
  }

  class ImageProcessor {
    var outputFormat: string
    var jpegQuality: Float32
    var namingRule: string
    var customText: string

    function Config(): ExportConfig
      reads this
    {
      ExportConfig(outputFormat, jpegQuality, namingRule, customText)
    }

    /** `new ImageProcessor()`: the field initialisers. */
    constructor ()
      ensures Config() == DEFAULT_EXPORT
    {
      outputFormat := "jpeg";
      jpegQuality := Float32(0x3F66_6666);
      namingRule := "original";
      customText := "watermarked";
    }

    method SetOutputFormat(format: string)
      modifies this
      ensures Config() == old(Config()).(outputFormat := format)
    {
      outputFormat := format;
    }

    method SetJpegQuality(quality: Float32)
      modifies this
      ensures Config() == old(Config()).(jpegQuality := quality)
    {
      jpegQuality := quality;
    }

    method SetNamingRule(rule: string)
      modifies this
      ensures Config() == old(Config()).(namingRule := rule)
    {
      namingRule := rule;
    }

    method SetCustomText(text: string)
      modifies this
      ensures Config() == old(Config()).(customText := text)
    {
      customText := text;
    }
  }
}
