# PhotoWatermark core in Dafny

This is a verified model of the logic at the heart of the PhotoWatermark
desktop application. It covers five parts:

- **`WatermarkSettings`** is the mutable record describing a watermark. It has
  documented defaults, single-field setters, a path setter that also builds a
  `File`, and the `Font` style mask.
- **`WatermarkManager`** places a text or image watermark on a copy of a photo.
  - Java `int` arithmetic is used: percentages of the free travel, truncating
    division, and the font ascent on the text baseline.
  - A rotation about the watermark's centre is applied only for a non-zero
    angle.
  - The shadow is drawn before the text, and the saved transform is restored.
  - A missing watermark image draws nothing.
  - `Graphics2D` is modelled as a recorder of draw commands.
- **`ImageProcessor`** derives the output file name (stem/extension split,
  format extension, naming rule) and picks the encoder and buffer type in
  `saveImage`.
- **`ConfigManager`** is the named-template store.
  - It holds a map of settings objects written through in full to a templates
    file after every change.
  - A missing or unreadable file gives an empty map at start-up.
  - A separate file holds the last-used settings.
- **`PhotoWatermarkApp`** contributes the logic inside its listeners:
  - the 3x3 preset positions;
  - the folder-import extension filter;
  - the duplicate-free list of imported files and its current preview;
  - the check that the export directory holds a source;
  - the export loop.

Files and modules:

| file | module | contents |
|---|---|---|
| java_lang.dfy | `JavaLang` | `Option` for nullable references, 32-bit `int` wrap-around, division truncating toward zero, the `String` methods used |
| awt.dfy | `Awt` | floats as bit patterns, `Color`, `Font`, `AlphaComposite`, rotations, and `Graphics`, a recorder class standing for `Graphics2D` |
| watermark_settings.dfy | `Settings` | `SettingsValue` (all fields as one value), class `WatermarkSettings` |
| watermark_manager.dfy | `Watermarking` | placement and draw-plan functions, their lemmas, class `WatermarkManager` |
| image_processor.dfy | `Export` | output names, encoder choice, class `ImageProcessor` |
| config_manager.dfy | `Templates` | class `ConfigManager` over abstract stored files |
| photo_watermark_app.dfy | `App` | presets, import filter, import list, export loop, class `PhotoWatermarkApp` |

Three modelling choices apply throughout.

- Java `float` values are never computed with. Opacity, scale and JPEG quality
  are kept as IEEE 754 bit patterns and passed through. The one test made on
  them is `AlphaComposite`'s range check, 0 <= alpha <= 1, and it is stated on
  the bits.
- Java `int` results wrap modulo 2^32, and `/` truncates toward zero. Both are
  written out (`JavaLang.Wrap`, `JavaLang.TruncDiv`).
- Files, decoders, dialogs and font metrics are parameters. Examples are a
  `decode` function standing for `loadImage`, the directory chosen in a
  chooser, and the answer to the overwrite warning.

## Model

| member | source | states |
|---|---|---|
| JavaLang.Wrap | src/main/java/WatermarkManager.java:79-80 | the `int` Java keeps is congruent to the exact result modulo 2^32, and equal to it when it fits |
| JavaLang.Add | src/main/java/WatermarkManager.java:80 | Java `+` on `int` equals the exact sum whenever the sum fits in 32 bits |
| JavaLang.Sub | src/main/java/WatermarkManager.java:79 | Java `-` on `int` equals the exact difference whenever it fits |
| JavaLang.Mul | src/main/java/WatermarkManager.java:79 | Java `*` on `int` equals the exact product whenever it fits |
| JavaLang.TruncDiv | src/main/java/WatermarkManager.java:79 | the quotient leaves a remainder smaller than the divisor with the sign of the dividend (truncation toward zero, not Dafny's Euclidean division) |
| JavaLang.TruncDivUnique | src/main/java/WatermarkManager.java:79 | any quotient meeting those remainder conditions is the truncated quotient |
| JavaLang.Div | src/main/java/WatermarkManager.java:87 | Java `a / d` for a positive divisor is the truncated quotient and stays in `int` range |
| JavaLang.ToLowerCase | src/main/java/PhotoWatermarkApp.java:462 | same length; every ASCII upper-case letter lower-cased, every other character kept |
| JavaLang.LowerCaseFixed | src/main/java/ImageProcessor.java:158-160 | a string without upper-case letters is its own lower case |
| JavaLang.LastIndexOf | src/main/java/ImageProcessor.java:151 | the result is -1 or an index holding the character, and no later index holds it |
| Awt.IsUnitAlpha | src/main/java/WatermarkManager.java:91-92 | the range test of `AlphaComposite.getInstance` on a float's bits: 1.0f, 0.0f and -0.0f pass; the next float above 1.0f, -1.0f, positive infinity and NaN fail |
| Awt.AlphaComposite | src/main/java/WatermarkManager.java:91-92 | a composite exists exactly for alphas in [0, 1] and keeps the alpha; otherwise the call throws |
| Awt.Graphics.constructor | src/main/java/WatermarkManager.java:43 | a fresh graphics has the identity transform, opaque SRC_OVER and nothing drawn |
| Awt.Graphics.SetFont | src/main/java/WatermarkManager.java:71 | only the font changes; nothing is drawn |
| Awt.Graphics.SetColor | src/main/java/WatermarkManager.java:102 | only the colour changes; nothing is drawn |
| Awt.Graphics.SetComposite | src/main/java/WatermarkManager.java:93 | only the composite changes; nothing is drawn |
| Awt.Graphics.SetTransform | src/main/java/WatermarkManager.java:106 | only the transform changes; nothing is drawn |
| Awt.Graphics.Rotate | src/main/java/WatermarkManager.java:87 | the rotation about the given pivot is appended to the transform; nothing is drawn |
| Awt.Graphics.DrawImageScaled | src/main/java/WatermarkManager.java:149 | one image command is appended carrying the current transform and composite; the state is unchanged |
| Awt.Graphics.DrawImageAt | src/main/java/WatermarkManager.java:44 | one image command at the image's own size is appended |
| Awt.Graphics.DrawText | src/main/java/WatermarkManager.java:103 | one string command is appended carrying the current font, colour, transform and composite |
| Settings.FontStyle | src/main/java/WatermarkSettings.java:185-190 | the BOLD bit is set iff bold, the ITALIC bit iff italic, and no other bit |
| Settings.FontStyleValues | src/main/java/WatermarkSettings.java:185-190 | the four flag combinations give styles 0, 1, 2, 3, and the mask is the OR of the two single-flag masks |
| Settings.WatermarkSettings.constructor | src/main/java/WatermarkSettings.java:15-37 | a new object holds the documented defaults |
| Settings.WatermarkSettings.FromValue | src/main/java/ConfigManager.java:92 | an object read back from a file holds exactly the stored values |
| Settings.WatermarkSettings.SetType | src/main/java/WatermarkSettings.java:49-51 | the type is stored unvalidated and no other field changes |
| Settings.WatermarkSettings.SetText | src/main/java/WatermarkSettings.java:57-59 | the text is stored and no other field changes |
| Settings.WatermarkSettings.SetFontName | src/main/java/WatermarkSettings.java:65-67 | the font name is stored and no other field changes |
| Settings.WatermarkSettings.SetFontSize | src/main/java/WatermarkSettings.java:73-75 | the font size is stored unvalidated and no other field changes |
| Settings.WatermarkSettings.SetBold | src/main/java/WatermarkSettings.java:81-83 | the bold flag is stored and no other field changes |
| Settings.WatermarkSettings.SetItalic | src/main/java/WatermarkSettings.java:89-91 | the italic flag is stored and no other field changes |
| Settings.WatermarkSettings.SetTextColor | src/main/java/WatermarkSettings.java:97-99 | the text colour is stored and no other field changes |
| Settings.WatermarkSettings.SetTextOpacity | src/main/java/WatermarkSettings.java:105-107 | the opacity is stored unclamped and no other field changes |
| Settings.WatermarkSettings.SetEnableShadow | src/main/java/WatermarkSettings.java:113-115 | the shadow flag is stored and no other field changes |
| Settings.WatermarkSettings.SetShadowColor | src/main/java/WatermarkSettings.java:121-123 | the shadow colour is stored and no other field changes |
| Settings.WatermarkSettings.SetWatermarkImage | src/main/java/WatermarkSettings.java:129-131 | the `File` is stored, the path string is untouched, and nothing else changes |
| Settings.WatermarkSettings.SetWatermarkImagePath | src/main/java/WatermarkSettings.java:137-142 | the path is always stored; a non-null path also sets the `File` to that path; null leaves the old `File`; nothing else changes |
| Settings.WatermarkSettings.SetImageScale | src/main/java/WatermarkSettings.java:148-150 | the scale is stored and no other field changes |
| Settings.WatermarkSettings.SetImageOpacity | src/main/java/WatermarkSettings.java:156-158 | the opacity is stored unclamped and no other field changes |
| Settings.WatermarkSettings.SetPositionX | src/main/java/WatermarkSettings.java:164-166 | the percentage is stored unvalidated and no other field changes |
| Settings.WatermarkSettings.SetPositionY | src/main/java/WatermarkSettings.java:172-174 | the percentage is stored unvalidated and no other field changes |
| Settings.WatermarkSettings.SetRotation | src/main/java/WatermarkSettings.java:180-182 | the angle is stored unvalidated and no other field changes |
| Settings.WatermarkSettings.GetFontStyle | src/main/java/WatermarkSettings.java:185-190 | the object's mask carries exactly its bold and italic flags |
| Watermarking.Render | src/main/java/WatermarkManager.java:30-60 | null in gives null out; otherwise the result has the input's size, has alpha, and starts with the source drawn at (0, 0); an out-of-range opacity of the active mode throws, and only then |
| Watermarking.Anchor | src/main/java/WatermarkManager.java:79-80 | without overflow the anchor is the exact `(total - size) * percent` divided by 100 and truncated toward zero |
| Watermarking.TextOrigin | src/main/java/WatermarkManager.java:76-80 | the text box is placed by `Anchor` horizontally, and the baseline lies `ascent` below the box's vertical anchor |
| Watermarking.RotatedAbout | src/main/java/WatermarkManager.java:86-88 | the transform is unchanged iff the angle is 0; otherwise exactly one rotation about the given pivot is appended |
| Watermarking.TextCommands | src/main/java/WatermarkManager.java:71-103 | two string draws with the shadow and one without, each of the text in the configured font with the text opacity |
| Watermarking.ResolveAsset | src/main/java/WatermarkManager.java:116-125 | no `File` in the settings gives `NoFile`; otherwise the file's lookup result |
| Watermarking.ImageCommands | src/main/java/WatermarkManager.java:116-149 | one image draw at the scaled size with the image opacity when the asset decoded, none otherwise |
| Watermarking.TextRotationPivot | src/main/java/WatermarkManager.java:86-88 | text is rotated about (x + stringWidth/2, y - height/2), the centre of its box measured from the baseline |
| Watermarking.ImageRotationPivot | src/main/java/WatermarkManager.java:139-141 | an image watermark is rotated about (x + w/2, y + h/2), its own centre |
| Watermarking.AnchorAtEdges | src/main/java/WatermarkManager.java:79-80 | position 0 anchors at 0 and position 100 at the far edge `total - size`, barring overflow |
| Watermarking.AnchorWithinTravel | src/main/java/WatermarkManager.java:79-80 | for a percentage in [0, 100] the anchor lies between 0 and the free travel (negative when the watermark is larger), so a watermark that fits stays inside the image |
| Watermarking.AnchorCentred | src/main/java/WatermarkManager.java:79-80 | at 50 the margins on the two sides differ by at most one pixel; the odd pixel goes to the far side when the box fits and, by truncation toward zero, to the near side when the box is larger than the image |
| Watermarking.ShadowDrawnBeforeText | src/main/java/WatermarkManager.java:96-103 | the shadow string is drawn iff the shadow is enabled, at (x+2, y+2) in the shadow colour, strictly before the text at (x, y) in the text colour |
| Watermarking.RotationKeepsPlacement | src/main/java/WatermarkManager.java:86-88 | a rotation changes only the transform of the commands; at 0 degrees the transform stays the base one |
| Watermarking.MissingAssetDrawsNothing | src/main/java/WatermarkManager.java:116-125 | with no file, a missing file, a read error or an undecodable file, image mode yields only the copied source |
| Watermarking.ImagePlacement | src/main/java/WatermarkManager.java:132-149 | the image watermark is one command at the anchors, with no ascent term, at the scaled size, with the image opacity |
| Watermarking.WatermarkManager.constructor | src/main/java/WatermarkManager.java:15 | the manager starts with a new default settings object |
| Watermarking.WatermarkManager.ApplyWatermark | src/main/java/WatermarkManager.java:30-60 | the method's run on a recording graphics equals the `Render` specification |
| Watermarking.WatermarkManager.ApplyTextWatermark | src/main/java/WatermarkManager.java:68-107 | it fails exactly on an out-of-range text opacity; otherwise it appends the text commands and restores the saved transform |
| Watermarking.WatermarkManager.ApplyImageWatermark | src/main/java/WatermarkManager.java:115-157 | it fails exactly when a decoded watermark meets an out-of-range image opacity; otherwise it appends the image commands (none for a missing asset) and restores the transform |
| Watermarking.WatermarkManager.SetWatermarkType | src/main/java/WatermarkManager.java:163-165 | the same settings object stays, with only its type changed |
| Watermarking.WatermarkManager.ApplySettings | src/main/java/WatermarkManager.java:179-181 | the manager now holds the given object itself |
| Export.SplitName | src/main/java/ImageProcessor.java:147-155 | stem + extension is the name; the extension is empty iff no dot follows index 0; otherwise it starts at the last dot, keeps it, holds no other dot, and the stem is not empty |
| Export.TargetExtension | src/main/java/ImageProcessor.java:157-162 | the extension is ".jpg", ".png" or the source's own: ".jpg" for "jpeg", ".png" for "png" (ignoring case) |
| Export.OutputFileName | src/main/java/ImageProcessor.java:146-174 | under rule "original" with a format other than "jpeg" or "png", the output name is the source name; `Export.OutputFileNameShape` and `Export.SplitName` give the full shape |
| Export.SelectEncoder | src/main/java/ImageProcessor.java:103-110 | PNG is chosen iff the format equals "png" ignoring case; every JPEG choice carries the configured quality |
| Export.SaveImage | src/main/java/ImageProcessor.java:85-110 | a null image throws; only a non-`BufferedImage` is converted, into an alpha buffer iff the format is "png"; the encoder is the one `SelectEncoder` picks |
| Export.OutputFileNameShape | src/main/java/ImageProcessor.java:146-174 | "jpeg" and "png" exclude each other and give ".jpg" and ".png"; rule "original", "prefix", "suffix" or any other rule places the custom text as the code does |
| Export.NotJpegOrPngKeepsExtension | src/main/java/ImageProcessor.java:158-162 | any other format, "jpg" included, keeps the split extension |
| Export.NameWithoutExtension | src/main/java/ImageProcessor.java:151-159 | a name with no dot past index 0 (".hidden") is all stem, and ".jpg" is appended to it |
| Export.SameStemSameOutput | src/main/java/ImageProcessor.java:153-166 | when the format replaces the extension, two sources with the same stem get the same output name |
| Export.DefaultsKeepJpgNames | src/main/java/ImageProcessor.java:20-23 | with the default configuration, every "stem.jpg" source with a non-empty stem, dots in the stem included, exports to exactly its own name |
| Export.NamingExamples | src/main/java/ImageProcessor.java:146-174 | "photo.PNG" under jpeg/prefix/"wm_" gives "wm_photo.jpg"; "a.b.jpg" under png/suffix/"_done" gives "a.b_done.png"; ".hidden" by default gives ".hidden.jpg" |
| Export.ExtensionMatchesEncoder | src/main/java/ImageProcessor.java:103-110 | "jpeg" pairs the JPEG encoder with ".jpg" and "png" pairs PNG with ".png"; "jpg" encodes JPEG but names the file like any unknown format |
| Export.ImageProcessor.constructor | src/main/java/ImageProcessor.java:20-23 | a new processor holds "jpeg", 0.9f, "original" and "watermarked" |
| Export.ImageProcessor.SetOutputFormat | src/main/java/ImageProcessor.java:182-184 | only the format changes |
| Export.ImageProcessor.SetJpegQuality | src/main/java/ImageProcessor.java:190-192 | only the quality changes |
| Export.ImageProcessor.SetNamingRule | src/main/java/ImageProcessor.java:198-200 | only the rule changes |
| Export.ImageProcessor.SetCustomText | src/main/java/ImageProcessor.java:206-208 | only the custom text changes |
| Templates.ConfigManager.constructor | src/main/java/ConfigManager.java:20-29 | a missing or unreadable templates file gives an empty map; a readable one gives new objects holding the stored values |
| Templates.ConfigManager.Deserialize | src/main/java/ConfigManager.java:108-110 | reading a stored map gives one new object per name, holding that name's values |
| Templates.ConfigManager.Snapshot | src/main/java/ConfigManager.java:120-127 | the written map has the same names as the in-memory one, each with its object's current values |
| Templates.ConfigManager.LoadTemplate | src/main/java/ConfigManager.java:46-48 | the stored object for a known name, null for an unknown one |
| Templates.ConfigManager.Flush | src/main/java/ConfigManager.java:120-127 | a successful write puts the current values of the whole map into the file; a failed one leaves the file; memory is unchanged |
| Templates.ConfigManager.SaveTemplate | src/main/java/ConfigManager.java:36-39 | afterwards the name loads this very object, every other name loads what it did before, and the file holds the whole map if written |
| Templates.ConfigManager.DeleteTemplate | src/main/java/ConfigManager.java:54-57 | afterwards the name loads null, others are unchanged, an absent name leaves the map as it was, and the file holds the whole map if written |
| Templates.ConfigManager.GetTemplateNames | src/main/java/ConfigManager.java:63-65 | exactly the map's names, each once |
| Templates.ConfigManager.SaveLastSettings | src/main/java/ConfigManager.java:71-78 | a successful write stores the object's current values; the templates are untouched |
| Templates.ConfigManager.LoadLastSettings | src/main/java/ConfigManager.java:84-97 | null iff the file is missing or unreadable, otherwise a new object with the stored values |
| Templates.SaveSurvivesRestart | src/main/java/ConfigManager.java:102-115 | a saved template reloads after a restart under its name with its values at save time, as a different object |
| Templates.EditAfterSave | src/main/java/ConfigManager.java:36-39 | the map keeps a reference: a later edit shows in memory at once, but the file keeps the values from the save |
| Templates.LastSettingsRoundTrip | src/main/java/ConfigManager.java:71-97 | saving then loading the last settings gives an equal copy; after a failed write the load returns null iff the old file was missing or unreadable, and otherwise the old file's values |
| App.PresetCoordinate | src/main/java/PhotoWatermarkApp.java:296-304 | the three coordinates are 10 + 40k for column (or row) k |
| App.PresetPosition | src/main/java/PhotoWatermarkApp.java:294-305 | button i in [0, 8] gives (coordinate of i mod 3, coordinate of i div 3); any other index gives (0, 0) |
| App.PresetProperties | src/main/java/PhotoWatermarkApp.java:295-307 | every preset lies in [10, 90] on both axes, the nine presets are distinct, and the centre one is the default 50/50 |
| App.ImportableByExtension | src/main/java/PhotoWatermarkApp.java:461-466 | a name is accepted iff its lower-cased form ends with one of ".jpg", ".jpeg", ".png", ".bmp", ".tiff" |
| App.IsImportableName | src/main/java/PhotoWatermarkApp.java:461-466 | only names at least as long as the shortest suffix are accepted; `App.ImportableByExtension` gives the exact condition |
| App.ImportAcceptsAnyCase | src/main/java/PhotoWatermarkApp.java:461-466 | any stem followed by a listed suffix in any letter case is accepted |
| App.ImportFilterAccepts | src/main/java/PhotoWatermarkApp.java:461-466 | "IMG_01.JPG" and "scan.Tiff" are accepted |
| App.ImportFilterRejects | src/main/java/PhotoWatermarkApp.java:461-466 | "scan.tif", "notes.txt" and "photo.jpg.bak" are refused |
| App.FolderImports | src/main/java/PhotoWatermarkApp.java:461-471 | a file is imported from a listing iff it is in that directory, listed, and passes the filter |
| App.AppendAbsent | src/main/java/PhotoWatermarkApp.java:476-478 | importing keeps the old list as a prefix, lists exactly the old and offered files, and never creates a duplicate |
| App.AppendAbsentGrows | src/main/java/PhotoWatermarkApp.java:476-478 | importing more files only extends the list, so import order is kept |
| App.PreviewAfter | src/main/java/PhotoWatermarkApp.java:506-509 | an existing preview is kept; without one, a preview is set iff some offered file was not yet listed, and it is such a file |
| App.AddFile | src/main/java/PhotoWatermarkApp.java:476-509 | a listed file changes nothing; an unlisted one is appended; it throws iff its thumbnail throws, and then it is listed but does not become the preview |
| App.ImportRun | src/main/java/PhotoWatermarkApp.java:445-450 | the old list stays a prefix, only offered files are added, no duplicate appears, a set preview stays and is listed, and an interrupted run ends with the file whose thumbnail threw |
| App.ImportRunCompleted | src/main/java/PhotoWatermarkApp.java:445-450 | an uninterrupted run equals `AppendAbsent` and `PreviewAfter`, and files none of which throws never interrupt it |
| App.ImportRunStops | src/main/java/PhotoWatermarkApp.java:445-450 | after the first exception no later file is added |
| App.FirstAddedFileBecomesPreview | src/main/java/PhotoWatermarkApp.java:506-509 | on an empty app, a first file whose thumbnail is made becomes the preview whatever follows |
| App.ThumbnailFailureLeavesNoPreview | src/main/java/ImageProcessor.java:57-67 | a first image whose thumbnail throws is listed without a preview, and the next file is not imported |
| App.FirstImportSetsPreview | src/main/java/PhotoWatermarkApp.java:506-509 | on an empty app the first file of the first import becomes the preview when no thumbnail in the import throws |
| App.RunBatch | src/main/java/PhotoWatermarkApp.java:588-598 | a run can stop only at one of its sources |
| App.AtMostOneSavePerSource | src/main/java/PhotoWatermarkApp.java:588-598 | a run makes at most one save per source |
| App.AbortCause | src/main/java/PhotoWatermarkApp.java:588-598 | a run stops only at a source whose own step throws, with that exception |
| App.ExportBatchAsWritten | src/main/java/PhotoWatermarkApp.java:588-598 | the loop as written stops only at one of its sources, and with a `NullPointerException` only at one that does not decode |
| App.ExportBatch | src/main/java/PhotoWatermarkApp.java:588-598 | the corrected loop never throws `NullPointerException`: it stops only with `IllegalArgumentException`, at a decoded source when the opacity is refused |
| App.ExportStep | src/main/java/PhotoWatermarkApp.java:588-597 | a bad opacity throws `IllegalArgumentException`; an undecodable source throws `NullPointerException` as written and is skipped when corrected; a save goes to the output directory under the output name with the selected encoder, and what it saves is the source's rendering |
| App.Decodable | src/main/java/ImageProcessor.java:30-37 | the sources kept are exactly those `loadImage` decodes |
| App.SavesGoToOutputDir | src/main/java/PhotoWatermarkApp.java:593-594 | every save of an export run writes into the chosen directory |
| App.ExportBatchSavesEveryDecodable | src/main/java/PhotoWatermarkApp.java:588-598 | with an accepted opacity, the corrected loop completes and saves each decodable source once, in order, under its output name, with the selected encoder, saving the source's rendering |
| App.AbortIsFinal | src/main/java/PhotoWatermarkApp.java:588-598 | once an exception escapes, later sources are not processed |
| App.LoopsAgreeWhileDecodable | src/main/java/PhotoWatermarkApp.java:588-598 | while every source decodes, the loop as written and the corrected loop do the same |
| App.AsWrittenStopsAtUndecodable | src/main/java/PhotoWatermarkApp.java:588-598 | as written, the first undecodable source ends the run with a `NullPointerException` after exactly the sources before it |
| App.DecodableKeepsAll | src/main/java/ImageProcessor.java:30-37 | when every source decodes, none is dropped |
| App.UndecodableImageStopsBatch | src/main/java/PhotoWatermarkApp.java:588-598 | an undecodable first source stops the run as written before a good second source, with nothing saved |
| App.CorrectedBatchSavesGoodImage | src/main/java/PhotoWatermarkApp.java:588-598 | the corrected loop saves the good second source under its own name |
| App.ExportImagesSpec | src/main/java/PhotoWatermarkApp.java:555-602 | no images gives only the error report; a declined warning happens only when a source directory is the output directory and the user said no |
| App.NoOverwriteWithoutConfirmation | src/main/java/PhotoWatermarkApp.java:570-585 | no export writes to the path of a source file unless the user confirmed the warning |
| App.PhotoWatermarkApp.constructor | src/main/java/PhotoWatermarkApp.java:29-48 | the app starts with a default processor, a configuration manager over the files on disk, no files and no preview; the manager holds the stored last settings when that file can be read (`loadLastConfig`, PhotoWatermarkApp.java:637-642), the defaults otherwise |
| App.PhotoWatermarkApp.AddImageToList | src/main/java/PhotoWatermarkApp.java:476-511 | the call does what `AddFile` specifies, including the exception of a thumbnail that cannot be made, and keeps the list free of duplicates with the preview among the listed files |
| App.PhotoWatermarkApp.ImportFiles | src/main/java/PhotoWatermarkApp.java:445-450 | adding files one by one, stopping at the first exception, gives `ImportRun` of the old state |
| App.PhotoWatermarkApp.ImportImages | src/main/java/PhotoWatermarkApp.java:438-452 | a dismissed chooser changes nothing; otherwise the picked files are offered in order as `ImportRun` states |
| App.PhotoWatermarkApp.ImportFolder | src/main/java/PhotoWatermarkApp.java:454-474 | a dismissed chooser or a null listing changes nothing; otherwise the filtered listing is offered in order as `ImportRun` states |
| App.PhotoWatermarkApp.SelectPreview | src/main/java/PhotoWatermarkApp.java:494-498 | clicking a listed thumbnail makes it the preview; the list is unchanged |
| App.PhotoWatermarkApp.SelectPreset | src/main/java/PhotoWatermarkApp.java:292-309 | the button sets both coordinates from the table and no other setting |
| App.PhotoWatermarkApp.SameAsSource | src/main/java/PhotoWatermarkApp.java:570-576 | true iff some imported file's directory is the output directory |
| App.PhotoWatermarkApp.ExportSource | src/main/java/PhotoWatermarkApp.java:588-597 | one pass of the corrected loop body equals `ExportStep` on that source with undecodable sources skipped |
| App.PhotoWatermarkApp.ExportAll | src/main/java/PhotoWatermarkApp.java:588-598 | the corrected loop over every imported file equals `ExportBatch` on the current configuration and settings |
| App.PhotoWatermarkApp.ExportImages | src/main/java/PhotoWatermarkApp.java:555-602 | the method's run (corrected for undecodable sources) equals `ExportImagesSpec` on the current files, configuration and settings |

## Left out

- Pixel rendering is not modelled: blending, anti-aliasing and rendering hints, glyph rasterisation, `Math.toRadians`. A raster is the list of commands that paint it.
- Float arithmetic is not modelled. The scaled watermark size `(int)(width * imageScale)` is an input (`AssetRead.Decoded`), and font metrics are inputs too.
- Image I/O and codecs (`ImageIO.read`/`write`, the JPEG writer) are not modelled. A save is recorded as a `SaveRequest`. Whether the JPEG writer accepts the ARGB raster that `applyWatermark` returns is therefore outside the model.
- I/O failure inside `saveImage` is not modelled. Such failures are caught there and do not stop the export, so they do not change the outcome the model states.
- The thumbnail itself and `resizeImage` are not modelled: they are double arithmetic plus drawing. Whether `createThumbnail` throws for a file (a side that truncates to 0, as for a 1000x1 image, makes `new BufferedImage` throw `IllegalArgumentException`) is the parameter `thumbnailThrows`; when it throws, the file stays listed without becoming the preview and the rest of the import is abandoned (`App.AddFile`, `App.ImportRun`).
- Java serialization is modelled only by the values it preserves. Two names sharing one settings object come back as two separate objects, though Java's stream keeps that sharing.
- A stored map that is not a map (`ClassCastException`), and partially written files, are not modelled.
- The configuration directory, its creation with `mkdirs`, and the file paths are left out.
- Swing is left out: windows, sliders, colour and file choosers, the preview panel, `updatePreview`, and the template dialogs (`saveCurrentTemplate`, `loadTemplate`, the empty `manageTemplates`). The one exception is the listener logic listed above.
- Logging and `printStackTrace` are left out.
- App.ImportAcceptsAnyCase, App.ImportFilterAccepts and App.ImportableByExtension assume a default locale that lower-cases ASCII letters the standard way. `toLowerCase()` uses the default locale: under Turkish or Azerbaijani, 'I' becomes a dotless 'ı', so "SCAN.TIFF" is refused there. Letters outside ASCII are not folded in the model either.
- A null name, text or settings argument is outside the model. The source never passes one, and the model's types exclude null except where an `Option` says otherwise.
- Watermarking.AnchorAtEdges, Watermarking.AnchorWithinTravel and Watermarking.AnchorCentred assume `(total - size) * 100` fits in an `int`. Above that the code's product wraps, and `Anchor` computes the wrapped value faithfully, but the lemmas say nothing about it.
- Templates.ConfigManager.SaveTemplate, Templates.ConfigManager.DeleteTemplate, Templates.ConfigManager.SaveLastSettings: a write is modelled as all-or-nothing, through the `written` parameter. A write that truncates the file and then fails is not modelled.
- App.PhotoWatermarkApp.ExportImages: this method follows the corrected loop (see Findings), which skips an undecodable source. The loop as written is `App.ExportBatchAsWritten`.
- The naming and format controls of `ImageProcessor` are not connected to any part of the user interface, so the app always exports with the defaults. `Export.DefaultsKeepJpgNames` states what that means for ".jpg" sources.
- `saveLastSettings` is modelled, but the application never calls it.
- App.ExportBatchSavesEveryDecodable, App.ExportStep and Export.SaveImage assume a JPEG quality inside [0, 1]. For a quality outside that range, `setCompressionQuality` (src/main/java/ImageProcessor.java:131) throws `IllegalArgumentException`, which the `IOException` catch does not stop, so the export would end there. The application never changes the default quality of 0.9.
- App.PhotoWatermarkApp.SelectPreview: the click listener is added only after `createThumbnail` returns, so a file listed before its thumbnail threw has no listener and can never be selected by a click. The model's method can still be called for such a file.

## Findings

| source | as written | input that shows it | evidently intended | confidence | as-written member | corrected member |
|---|---|---|---|---|---|---|
| src/main/java/PhotoWatermarkApp.java:588-597 | the export loop passes `loadImage`'s result straight to `applyWatermark`, which returns null for a null image; `saveImage(null, ...)` then calls `getWidth` on null, and the uncaught `NullPointerException` ends the whole export before the later sources and before the completion message | an imported "broken.jpg" that does not decode, followed by a decodable "beach.jpg": nothing is saved | skip a source that cannot be loaded, as `updatePreview` does, and export the rest | not executed | App.UndecodableImageStopsBatch | App.ExportBatchSavesEveryDecodable |

`App.ExportBatchAsWritten` models the loop as written. `App.AsWrittenStopsAtUndecodable` shows that it stops at the first undecodable source, and `App.UndecodableImageStopsBatch` is the concrete case. `App.ExportBatch` is the corrected loop, which `App.PhotoWatermarkApp.ExportImages` runs. `App.ExportBatchSavesEveryDecodable` proves that it saves every decodable source.
