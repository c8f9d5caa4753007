/** The logic inside `PhotoWatermarkApp`'s listeners: the 3x3 preset
    positions, the extension filter of folder import, the duplicate-free list
    of imported files and its current preview, the check that the export
    directory is one of the source directories, and the export loop. Swing
    itself (frames, dialogs, previews) is not modelled: a dialog's answer is
    a parameter. */
module App {
  import opened JavaLang
  import opened Awt
  import opened Settings
  import opened Watermarking
  import opened Export
  import opened Templates

  /** A `java.io.File` for an image: its parent directory and its name.
      `File.equals` compares the path, that is both parts. */
  datatype ImageFile = ImageFile(directory: string, name: string)

  // ---------------------------------------------------------------------------
  // Preset positions

  /** The percentages of the three columns (and rows): left, centre, right. */
  function PresetCoordinate(k: int): (p: Int32)
    requires 0 <= k < 3
    ensures p == 10 + 40 * k
  {
    if k == 0 then 10 else if k == 1 then 50 else 90
  }

  /** The `switch` of the preset button `pos`: (positionX, positionY). The
      nine buttons are laid out row by row; any other index leaves both at 0. */
  function PresetPosition(pos: int): (p: (Int32, Int32))
    ensures 0 <= pos < 9 ==> p == (PresetCoordinate(pos % 3), PresetCoordinate(pos / 3))
    ensures !(0 <= pos < 9) ==> p == (0, 0)
  {
    match pos
    case 0 => (10, 10)
    case 1 => (50, 10)
    case 2 => (90, 10)
    case 3 => (10, 50)
    case 4 => (50, 50)
    case 5 => (90, 50)
    case 6 => (10, 90)
    case 7 => (50, 90)
    case 8 => (90, 90)
    case _ => (0, 0)
  }

  /** Every button puts the watermark strictly inside the 0..100 range, the
      nine buttons give nine different positions, and the centre button gives
      the default position of a fresh settings object. */
  lemma PresetProperties()
    ensures forall pos :: 0 <= pos < 9 ==>
              10 <= PresetPosition(pos).0 <= 90 && 10 <= PresetPosition(pos).1 <= 90
    ensures forall i, j :: 0 <= i < j < 9 ==> PresetPosition(i) != PresetPosition(j)
    ensures PresetPosition(4) == (DEFAULT_SETTINGS.positionX, DEFAULT_SETTINGS.positionY)
  {
    forall i, j | 0 <= i < j < 9
      ensures PresetPosition(i) != PresetPosition(j)
    {
      assert i % 3 != j % 3 || i / 3 != j / 3;
    }
  }

  // ---------------------------------------------------------------------------
  // Folder import

  /** The suffixes folder import accepts, compared on the lower-cased name. */
  const IMPORTABLE_EXTENSIONS: seq<string> := [".jpg", ".jpeg", ".png", ".bmp", ".tiff"]

  /** The filter `importFolder` passes to `listFiles`. */
  function IsImportableName(name: string): (ok: bool)
    ensures ok ==> 4 <= |name|
  {
    var lowercaseName := ToLowerCase(name);
    EndsWith(lowercaseName, ".jpg") || EndsWith(lowercaseName, ".jpeg")
    || EndsWith(lowercaseName, ".png") || EndsWith(lowercaseName, ".bmp")
    || EndsWith(lowercaseName, ".tiff")
  }

  /** A name is accepted exactly when it ends with one of the listed suffixes,
      whatever the case of its letters. */
  lemma {:induction false} ImportableByExtension(name: string)
    ensures IsImportableName(name) <==>
              exists e :: e in IMPORTABLE_EXTENSIONS && EndsWith(ToLowerCase(name), e)
  {
    var lower := ToLowerCase(name);
    if IsImportableName(name) {
      if EndsWith(lower, ".jpg") {
        assert ".jpg" in IMPORTABLE_EXTENSIONS;
      } else if EndsWith(lower, ".jpeg") {
        assert ".jpeg" in IMPORTABLE_EXTENSIONS;
      } else if EndsWith(lower, ".png") {
        assert ".png" in IMPORTABLE_EXTENSIONS;
      } else if EndsWith(lower, ".bmp") {
        assert ".bmp" in IMPORTABLE_EXTENSIONS;
      } else {
        assert ".tiff" in IMPORTABLE_EXTENSIONS;
      }
    } else {
      forall e | e in IMPORTABLE_EXTENSIONS
        ensures !EndsWith(lower, e)
      {
        assert e == ".jpg" || e == ".jpeg" || e == ".png" || e == ".bmp" || e == ".tiff";
      }
    }
  }

  /** Any stem followed by a listed suffix in any mix of cases is accepted. */
  lemma ImportAcceptsAnyCase(stem: string, extension: string)
    requires ToLowerCase(extension) in IMPORTABLE_EXTENSIONS
    ensures IsImportableName(stem + extension)
  {
    LowerCaseConcat(stem, extension);
    ImportableByExtension(stem + extension);
    var lower := ToLowerCase(stem + extension);
    assert lower[|lower| - |extension|..] == ToLowerCase(extension);
  }

  /** Lower-casing distributes over concatenation. */
  lemma LowerCaseConcat(a: string, b: string)
    ensures ToLowerCase(a + b) == ToLowerCase(a) + ToLowerCase(b)
  {
    var l := ToLowerCase(a + b);
    var r := ToLowerCase(a) + ToLowerCase(b);
    assert |l| == |r|;
    forall i | 0 <= i < |l|
      ensures l[i] == r[i]
    {
      if i < |a| {
        assert (a + b)[i] == a[i];
      } else {
        assert (a + b)[i] == b[i - |a|];
      }
    }
  }

  /** Upper- and mixed-case suffixes are accepted. */
  lemma ImportFilterAccepts()
    ensures IsImportableName("IMG_01.JPG") && IsImportableName("scan.Tiff")
  {
    var upper := ToLowerCase("IMG_01.JPG");
    assert upper[6..] == ".jpg" by {
      assert upper[7] == 'j' && upper[8] == 'p' && upper[9] == 'g';
    }
    var mixed := ToLowerCase("scan.Tiff");
    assert mixed[4..] == ".tiff" by {
      assert mixed[5] == 't';
    }
  }

  /** ".tif", other suffixes, and a listed suffix that is not last are refused. */
  lemma ImportFilterRejects()
    ensures !IsImportableName("scan.tif") && !IsImportableName("notes.txt") && !IsImportableName("photo.jpg.bak")
  {
    LowerCaseFixed("scan.tif");
    LowerCaseFixed("notes.txt");
    LowerCaseFixed("photo.jpg.bak");
  }

  /** The files `listFiles` returns for `directory` when it lists `names`:
      the importable ones, in listing order. */
  function FolderImports(directory: string, names: seq<string>): (r: seq<ImageFile>)
    ensures forall f :: f in r <==> f.directory == directory && f.name in names && IsImportableName(f.name)
    decreases |names|
  {
    if names == [] then []
    else
      var prior := FolderImports(directory, names[..|names| - 1]);
      var last := names[|names| - 1];
      assert forall n :: n in names <==> n in names[..|names| - 1] || n == last;
      if IsImportableName(last) then prior + [ImageFile(directory, last)] else prior
  }

  // ---------------------------------------------------------------------------
  // The list of imported files

  predicate NoDuplicates(s: seq<ImageFile>)
  {
    forall i, j :: 0 <= i < j < |s| ==> s[i] != s[j]
  }

  /** The list after `addImageToList` is called on each of `files` in turn:
      a file is appended only when it is not yet listed. The old list stays a
      prefix, every listed or offered file ends up listed once, and no file
      is listed twice. */
  function AppendAbsent(list: seq<ImageFile>, files: seq<ImageFile>): (r: seq<ImageFile>)
    ensures list <= r
    ensures forall f :: f in r <==> f in list || f in files
    ensures NoDuplicates(list) ==> NoDuplicates(r)
    ensures forall i :: |list| <= i < |r| ==> r[i] !in list
    decreases |files|
  {
    if files == [] then list
    else
      var prior := AppendAbsent(list, files[..|files| - 1]);
      var last := files[|files| - 1];
      assert forall f :: f in files <==> f in files[..|files| - 1] || f == last;
      if last in prior then prior else prior + [last]
  }

  /** Importing more files only extends the list. */
  lemma {:induction false} AppendAbsentGrows(list: seq<ImageFile>, files: seq<ImageFile>, k: nat)
    requires k <= |files|
    ensures AppendAbsent(list, files[..k]) <= AppendAbsent(list, files)
    decreases |files| - k
  {
    if k < |files| {
      var init := files[..|files| - 1];
      AppendAbsentGrows(list, init, k);
      assert init[..k] == files[..k];
      var a := AppendAbsent(list, files[..k]);
      var b := AppendAbsent(list, init);
      var c := AppendAbsent(list, files);
      assert b <= c;
      assert a == b[..|a|] && b == c[..|b|];
      assert c[..|b|][..|a|] == c[..|a|];
    } else {
      assert files[..k] == files;
    }
  }

  /** The preview after importing `files`: an existing preview is kept;
      otherwise the first file that was actually appended becomes it. */
  function PreviewAfter(preview: Option<ImageFile>, list: seq<ImageFile>, files: seq<ImageFile>): (r: Option<ImageFile>)
    ensures preview.Some? ==> r == preview
    ensures preview.None? ==> (r.Some? <==> exists f :: f in files && f !in list)
    ensures preview.None? && r.Some? ==> r.value in files && r.value !in list
  {
    var r := AppendAbsent(list, files);
    assert |r| == |list| ==> r == list;
    assert |r| > |list| ==> r[|list|] in r;
    if preview.Some? || |r| == |list| then preview else Some(r[|list|])
  }

  /** On an empty list with no preview, the first file of the first import
      becomes the preview of a run no thumbnail interrupts (see
      `ImportRunCompleted`; `FirstAddedFileBecomesPreview` covers any run). */
  lemma FirstImportSetsPreview(files: seq<ImageFile>)
    requires files != []
    ensures PreviewAfter(None, [], files) == Some(files[0])
  {
    AppendAbsentGrows([], files, 1);
    assert files[..1][..0] == [];
  }

  /** The list, the preview, and whether no `addImageToList` call threw. */
  datatype ImportState = ImportState(list: seq<ImageFile>, preview: Option<ImageFile>, completed: bool)

  /** One `addImageToList(file)`. `thumbnailThrows(file)` says whether
      `createThumbnail` lets an unchecked exception escape for the file (a
      thumbnail side that truncates to 0 makes `new BufferedImage` throw
      `IllegalArgumentException`). The file is appended before the thumbnail
      is made, so it stays listed then, but it does not become the preview. */
  function AddFile(st: ImportState, file: ImageFile, thumbnailThrows: ImageFile -> bool): (r: ImportState)
    ensures r.list == if file in st.list then st.list else st.list + [file]
    ensures !r.completed <==> file !in st.list && thumbnailThrows(file)
    ensures r.preview == if st.preview.None? && file !in st.list && !thumbnailThrows(file) then Some(file) else st.preview
  {
    if file in st.list then ImportState(st.list, st.preview, true)
    else if thumbnailThrows(file) then ImportState(st.list + [file], st.preview, false)
    else ImportState(st.list + [file], if st.preview.None? then Some(file) else st.preview, true)
  }

  /** A loop of `addImageToList` calls over `files`, ended by the first
      exception. Without an exception it agrees with `AppendAbsent` and
      `PreviewAfter`; after one, the file that threw is the last listed. */
  function ImportRun(list: seq<ImageFile>, preview: Option<ImageFile>, files: seq<ImageFile>,
                     thumbnailThrows: ImageFile -> bool): (r: ImportState)
    ensures list <= r.list
    ensures forall f :: f in r.list ==> f in list || f in files
    ensures NoDuplicates(list) ==> NoDuplicates(r.list)
    ensures preview.Some? ==> r.preview == preview
    ensures (preview.Some? ==> preview.value in list) ==> (r.preview.Some? ==> r.preview.value in r.list)
    ensures !r.completed ==> |list| < |r.list| && thumbnailThrows(r.list[|r.list| - 1])
    decreases |files|
  {
    if files == [] then ImportState(list, preview, true)
    else
      var init := files[..|files| - 1];
      var last := files[|files| - 1];
      assert forall f :: f in files <==> f in init || f == last;
      var prior := ImportRun(list, preview, init, thumbnailThrows);
      if !prior.completed then prior
      else
        AddFile(prior, last, thumbnailThrows)
  }

  /** A run no thumbnail interrupts is `AppendAbsent` with `PreviewAfter`,
      and a run over files none of which throws is never interrupted. */
  lemma {:induction false} ImportRunCompleted(list: seq<ImageFile>, preview: Option<ImageFile>, files: seq<ImageFile>,
                                              thumbnailThrows: ImageFile -> bool)
    ensures var r := ImportRun(list, preview, files, thumbnailThrows);
            r.completed ==> r.list == AppendAbsent(list, files) && r.preview == PreviewAfter(preview, list, files)
    ensures (forall f :: f in files ==> !thumbnailThrows(f)) ==> ImportRun(list, preview, files, thumbnailThrows).completed
    decreases |files|
  {
    if files != [] {
      var init := files[..|files| - 1];
      assert forall f :: f in init ==> f in files;
      ImportRunCompleted(list, preview, init, thumbnailThrows);
    }
  }

  /** Once an exception has ended the loop, the files after it are never added. */
  lemma {:induction false} ImportRunStops(list: seq<ImageFile>, preview: Option<ImageFile>, files: seq<ImageFile>,
                                          k: nat, thumbnailThrows: ImageFile -> bool)
    requires k <= |files|
    requires !ImportRun(list, preview, files[..k], thumbnailThrows).completed
    ensures ImportRun(list, preview, files, thumbnailThrows) == ImportRun(list, preview, files[..k], thumbnailThrows)
    decreases |files| - k
  {
    if k < |files| {
      var init := files[..|files| - 1];
      assert init[..k] == files[..k];
      ImportRunStops(list, preview, init, k, thumbnailThrows);
    } else {
      assert files[..k] == files;
    }
  }

  /** On an empty app the first file becomes the preview as soon as its own
      thumbnail is made, whatever happens to the files after it. */
  lemma {:induction false} FirstAddedFileBecomesPreview(files: seq<ImageFile>, thumbnailThrows: ImageFile -> bool)
    requires files != [] && !thumbnailThrows(files[0])
    ensures ImportRun([], None, files, thumbnailThrows).preview == Some(files[0])
    decreases |files|
  {
    if |files| > 1 {
      var init := files[..|files| - 1];
      FirstAddedFileBecomesPreview(init, thumbnailThrows);
    } else {
      assert files[..0] == [];
    }
  }

  /** A 1000x1 image whose thumbnail cannot be made. */
  const WIDE_SOURCE := ImageFile("photos", "panorama.png")
  /** An ordinary image imported after it. */
  const PLAIN_SOURCE := ImageFile("photos", "plain.jpg")

  function OnlyWideThrows(f: ImageFile): bool
  {
    f == WIDE_SOURCE
  }

  /** Importing the wide image first lists it without a preview, and the
      import stops before the next file. */
  lemma ThumbnailFailureLeavesNoPreview()
    ensures ImportRun([], None, [WIDE_SOURCE, PLAIN_SOURCE], OnlyWideThrows) == ImportState([WIDE_SOURCE], None, false)
  {
    var files := [WIDE_SOURCE, PLAIN_SOURCE];
    assert files[..1] == [WIDE_SOURCE];
    assert files[..1][..0] == [];
    ImportRunStops([], None, files, 1, OnlyWideThrows);
  }

  // ---------------------------------------------------------------------------
  // Export

  /** An exception that escapes `exportImages`. */
  datatype JavaException = NullPointerException | IllegalArgumentException

  /** One `saveImage` call that reaches an encoder: the file written, the
      raster and the encoder used. */
  datatype SaveRequest = SaveRequest(target: ImageFile, raster: Raster, encoder: Encoder)

  /** The export loop's run: every save made, and where an exception cut it short. */
  datatype BatchResult =
    | Completed(saves: seq<SaveRequest>)
    | Aborted(saves: seq<SaveRequest>, failedAt: ImageFile, error: JavaException)

  /** What `exportImages` ends in. */
  datatype ExportOutcome =
    | NoImages           // the "nothing to export" error dialog
    | Cancelled          // the directory chooser was dismissed
    | Declined           // the overwrite warning was answered with "no"
    | Ran(result: BatchResult)

  /** Everything one export run depends on: the chosen directory, the
      processor's configuration, the watermark settings, the font metrics,
      `loadImage` (null for a file that cannot be decoded) and the lookup of
      the watermark image. */
  datatype ExportEnv = ExportEnv(
    outputDir: string,
    config: ExportConfig,
    settings: SettingsValue,
    metrics: FontMetrics,
    decode: ImageFile -> Option<Image>,
    assets: FileRef -> AssetRead)

  /** How a source that cannot be decoded is treated: the code as written
      hands the null on to `saveImage`; the corrected loop skips it. */
  datatype NullImagePolicy = PassNull | SkipNull

  /** The outcome of one iteration of the export loop. */
  datatype Step = Save(request: SaveRequest) | Skip | Throw(error: JavaException)

  /** The opacity the settings use is accepted by `AlphaComposite`, so that
      `applyWatermark` cannot throw. */
  predicate Paints(s: SettingsValue, assets: FileRef -> AssetRead)
  {
    if s.watermarkType == TEXT then IsUnitAlpha(s.textOpacity)
    else !(ResolveAsset(s, assets).Decoded? && !IsUnitAlpha(s.imageOpacity))
  }

  function ExportStep(image: ImageFile, env: ExportEnv, policy: NullImagePolicy): (r: Step)
    ensures r.Throw? && r.error == IllegalArgumentException <==>
              env.decode(image).Some? && !Paints(env.settings, env.assets)
    ensures r.Throw? && r.error == NullPointerException <==> env.decode(image).None? && policy.PassNull?
    ensures r.Skip? <==> env.decode(image).None? && policy.SkipNull?
    ensures r.Save? ==> (&& r.request.target == ImageFile(env.outputDir, OutputFileName(env.config, image.name))
                         && r.request.encoder == SelectEncoder(env.config)
                         && r.request.raster == Render(env.decode(image), env.settings, env.metrics, env.assets).raster)
  {
    match Render(env.decode(image), env.settings, env.metrics, env.assets)
    case IllegalAlpha => Throw(IllegalArgumentException)
    case NullImage =>
      // saveImage(null, ...) calls getWidth on the null image.
      if policy.SkipNull? then Skip else Throw(NullPointerException)
    case Rendered(raster) =>
      var outcome := SaveImage(env.config, Some(Buffered));
      Save(SaveRequest(ImageFile(env.outputDir, OutputFileName(env.config, image.name)), raster, outcome.encoder))
  }

  /** The export loop over `images`, stopping at the first exception. */
  function RunBatch(images: seq<ImageFile>, env: ExportEnv, policy: NullImagePolicy): (r: BatchResult)
    ensures r.Aborted? ==> r.failedAt in images
    decreases |images|
  {
    if images == [] then Completed([])
    else
      var prior := RunBatch(images[..|images| - 1], env, policy);
      if prior.Aborted? then prior
      else match ExportStep(images[|images| - 1], env, policy)
        case Save(request) => Completed(prior.saves + [request])
        case Skip => prior
        case Throw(e) => Aborted(prior.saves, images[|images| - 1], e)
  }

  /** A run makes at most one save per source. */
  lemma {:induction false} AtMostOneSavePerSource(images: seq<ImageFile>, env: ExportEnv, policy: NullImagePolicy)
    ensures |RunBatch(images, env, policy).saves| <= |images|
    decreases |images|
  {
    if images != [] {
      AtMostOneSavePerSource(images[..|images| - 1], env, policy);
    }
  }

  /** A run ends early only at a source whose step throws, with that exception. */
  lemma {:induction false} AbortCause(images: seq<ImageFile>, env: ExportEnv, policy: NullImagePolicy)
    ensures var r := RunBatch(images, env, policy);
            r.Aborted? ==> ExportStep(r.failedAt, env, policy) == Throw(r.error)
    decreases |images|
  {
    if images != [] {
      AbortCause(images[..|images| - 1], env, policy);
    }
  }

  /** The loop as written: an undecodable source reaches `saveImage` as null. */
  function ExportBatchAsWritten(images: seq<ImageFile>, env: ExportEnv): (r: BatchResult)
    ensures r.Aborted? ==> r.failedAt in images
    ensures r.Aborted? && r.error == NullPointerException ==> env.decode(r.failedAt).None?
  {
    AbortCause(images, env, PassNull);
    RunBatch(images, env, PassNull)
  }

  /** The loop as evidently intended: an undecodable source is skipped. */
  function ExportBatch(images: seq<ImageFile>, env: ExportEnv): (r: BatchResult)
    ensures r.Aborted? ==> r.failedAt in images && r.error == IllegalArgumentException
    ensures r.Aborted? ==> env.decode(r.failedAt).Some? && !Paints(env.settings, env.assets)
  {
    AbortCause(images, env, SkipNull);
    RunBatch(images, env, SkipNull)
  }

  /** The sources among `images` that decode, in order. */
  function Decodable(images: seq<ImageFile>, decode: ImageFile -> Option<Image>): (r: seq<ImageFile>)
    ensures |r| <= |images|
    ensures forall f :: f in r <==> f in images && decode(f).Some?
    decreases |images|
  {
    if images == [] then []
    else
      var prior := Decodable(images[..|images| - 1], decode);
      var last := images[|images| - 1];
      assert forall f :: f in images <==> f in images[..|images| - 1] || f == last;
      if decode(last).Some? then prior + [last] else prior
  }

  /** Every save of a run writes into the chosen directory. */
  lemma {:induction false} SavesGoToOutputDir(images: seq<ImageFile>, env: ExportEnv, policy: NullImagePolicy)
    ensures forall k :: 0 <= k < |RunBatch(images, env, policy).saves| ==>
              RunBatch(images, env, policy).saves[k].target.directory == env.outputDir
    decreases |images|
  {
    if images != [] {
      var prior := RunBatch(images[..|images| - 1], env, policy);
      SavesGoToOutputDir(images[..|images| - 1], env, policy);
      assert forall k :: 0 <= k < |prior.saves| ==> prior.saves[k].target.directory == env.outputDir;
      if !prior.Aborted? {
        var step := ExportStep(images[|images| - 1], env, policy);
        if step.Save? {
          var saves := prior.saves + [step.request];
          assert RunBatch(images, env, policy).saves == saves;
          forall k | 0 <= k < |saves|
            ensures saves[k].target.directory == env.outputDir
          {
            if k < |prior.saves| {
              assert saves[k] == prior.saves[k];
              assert prior.saves[k].target.directory == env.outputDir;
            } else {
              assert saves[k] == step.request;
              assert step.request.target.directory == env.outputDir;
            }
          }
        }
      }
    }
  }

  /** The corrected loop, with an opacity `AlphaComposite` accepts, runs to the
      end and saves each decodable source once, in order, under its output
      name in the chosen directory, with the configured encoder, and what is
      saved is the source's rendering. */
  lemma {:induction false} ExportBatchSavesEveryDecodable(images: seq<ImageFile>, env: ExportEnv)
    requires Paints(env.settings, env.assets)
    ensures var d := Decodable(images, env.decode);
            var b := ExportBatch(images, env);
            && b.Completed?
            && |b.saves| == |d|
            && forall k :: 0 <= k < |d| ==>
                 && b.saves[k].target == ImageFile(env.outputDir, OutputFileName(env.config, d[k].name))
                 && b.saves[k].encoder == SelectEncoder(env.config)
                 && b.saves[k].raster == Render(env.decode(d[k]), env.settings, env.metrics, env.assets).raster
    decreases |images|
  {
    if images != [] {
      ExportBatchSavesEveryDecodable(images[..|images| - 1], env);
    }
  }

  /** Once a run has aborted, later sources change nothing. */
  lemma {:induction false} AbortIsFinal(images: seq<ImageFile>, k: nat, env: ExportEnv, policy: NullImagePolicy)
    requires k <= |images|
    requires RunBatch(images[..k], env, policy).Aborted?
    ensures RunBatch(images, env, policy) == RunBatch(images[..k], env, policy)
    decreases |images| - k
  {
    if k < |images| {
      assert images[..|images| - 1][..k] == images[..k];
      AbortIsFinal(images[..|images| - 1], k, env, policy);
    } else {
      assert images[..k] == images;
    }
  }

  /** While every source decodes, the two loops do the same thing. */
  lemma {:induction false} LoopsAgreeWhileDecodable(images: seq<ImageFile>, env: ExportEnv)
    requires forall f :: f in images ==> env.decode(f).Some?
    ensures ExportBatchAsWritten(images, env) == ExportBatch(images, env)
    decreases |images|
  {
    if images != [] {
      LoopsAgreeWhileDecodable(images[..|images| - 1], env);
    }
  }

  /** The loop as written stops at the first source that does not decode:
      the sources before it are saved, that one and every later one are not,
      and the `NullPointerException` escapes. */
  lemma AsWrittenStopsAtUndecodable(images: seq<ImageFile>, i: nat, env: ExportEnv)
    requires Paints(env.settings, env.assets)
    requires i < |images| && env.decode(images[i]).None?
    requires forall j :: 0 <= j < i ==> env.decode(images[j]).Some?
    ensures ExportBatchAsWritten(images, env) == Aborted(ExportBatch(images[..i], env).saves, images[i], NullPointerException)
    ensures |ExportBatchAsWritten(images, env).saves| == i
  {
    var head := images[..i];
    assert forall f :: f in head ==> env.decode(f).Some?;
    LoopsAgreeWhileDecodable(head, env);
    assert ExportBatch(head, env).Completed? && |ExportBatch(head, env).saves| == i by {
      ExportBatchSavesEveryDecodable(head, env);
      DecodableKeepsAll(head, env.decode);
    }
    AsWrittenAbortsAt(images, i, env);
    AbortIsFinal(images, i + 1, env, PassNull);
  }

  /** A completed run followed by an undecodable source aborts there. */
  lemma AsWrittenAbortsAt(images: seq<ImageFile>, i: nat, env: ExportEnv)
    requires i < |images| && env.decode(images[i]).None?
    requires RunBatch(images[..i], env, PassNull).Completed?
    ensures RunBatch(images[..i + 1], env, PassNull) ==
              Aborted(RunBatch(images[..i], env, PassNull).saves, images[i], NullPointerException)
  {
    assert images[..i + 1][..i] == images[..i];
  }

  /** When every source decodes, the filter keeps them all. */
  lemma {:induction false} DecodableKeepsAll(images: seq<ImageFile>, decode: ImageFile -> Option<Image>)
    requires forall f :: f in images ==> decode(f).Some?
    ensures Decodable(images, decode) == images
    decreases |images|
  {
    if images != [] {
      DecodableKeepsAll(images[..|images| - 1], decode);
      assert images[..|images| - 1] + [images[|images| - 1]] == images;
    }
  }

  /** Two sources in one directory, of which only the second decodes. */
  const BROKEN_SOURCE: ImageFile := ImageFile("photos", "broken.jpg")
  const GOOD_SOURCE: ImageFile := ImageFile("photos", "beach.jpg")

  function DecodeOnlyGood(f: ImageFile): Option<Image>
  {
    if f == GOOD_SOURCE then Some(Image(1, 640, 480)) else None
  }

  function NoAssets(f: FileRef): AssetRead
  {
    NoFile
  }

  /** An export of the two sources into "out" with the default settings. */
  const SAMPLE_ENV: ExportEnv :=
    ExportEnv("out", DEFAULT_EXPORT, DEFAULT_SETTINGS, FontMetrics(80, 20, 15), DecodeOnlyGood, NoAssets)

  /** A first source that does not decode followed by one that does: as
      written nothing is saved and the exception escapes. */
  lemma UndecodableImageStopsBatch()
    ensures ExportBatchAsWritten([BROKEN_SOURCE, GOOD_SOURCE], SAMPLE_ENV) ==
              Aborted([], BROKEN_SOURCE, NullPointerException)
  {
    var images := [BROKEN_SOURCE, GOOD_SOURCE];
    AsWrittenStopsAtUndecodable(images, 0, SAMPLE_ENV);
    assert images[..1] == [BROKEN_SOURCE];
    assert Decodable([BROKEN_SOURCE], DecodeOnlyGood) == [];
  }

  /** The same two sources under the corrected loop: the second is saved
      under its own name. */
  lemma CorrectedBatchSavesGoodImage()
    ensures var b := ExportBatch([BROKEN_SOURCE, GOOD_SOURCE], SAMPLE_ENV);
            b.Completed? && |b.saves| == 1 && b.saves[0].target == ImageFile("out", "beach.jpg")
  {
    var images := [BROKEN_SOURCE, GOOD_SOURCE];
    var b := ExportBatch(images, SAMPLE_ENV);
    assert b.Completed? && |b.saves| == 1
           && b.saves[0].target == ImageFile("out", OutputFileName(DEFAULT_EXPORT, GOOD_SOURCE.name)) by {
      ExportBatchSavesEveryDecodable(images, SAMPLE_ENV);
      assert Decodable(images, DecodeOnlyGood) == [GOOD_SOURCE];
    }
    GoodSourceKeepsName();
  }

  /** The good source's output name under the defaults is its own name. */
  lemma GoodSourceKeepsName()
    ensures OutputFileName(DEFAULT_EXPORT, GOOD_SOURCE.name) == "beach.jpg"
  {
    DefaultsKeepJpgNames("beach");
    assert "beach" + ".jpg" == "beach.jpg";
  }

  /** Some source file lies in `directory`. */
  predicate SharesDirectory(images: seq<ImageFile>, directory: string)
  {
    exists i :: 0 <= i < |images| && images[i].directory == directory
  }

  /** `exportImages` from its first check to its last save, with the
      corrected loop. */
  function ExportImagesSpec(images: seq<ImageFile>, outputDir: Option<string>, confirmed: bool, config: ExportConfig,
                            settings: SettingsValue, metrics: FontMetrics,
                            decode: ImageFile -> Option<Image>, assets: FileRef -> AssetRead): (r: ExportOutcome)
    ensures r.NoImages? <==> images == []
    ensures r.Declined? ==> outputDir.Some? && SharesDirectory(images, outputDir.value) && !confirmed
  {
    if images == [] then NoImages
    else if outputDir.None? then Cancelled
    else if SharesDirectory(images, outputDir.value) && !confirmed then Declined
    else Ran(ExportBatch(images, ExportEnv(outputDir.value, config, settings, metrics, decode, assets)))
  }

  /** No source file is written over unless the user confirmed the warning. */
  lemma NoOverwriteWithoutConfirmation(images: seq<ImageFile>, outputDir: Option<string>, confirmed: bool,
                                       config: ExportConfig, settings: SettingsValue, metrics: FontMetrics,
                                       decode: ImageFile -> Option<Image>, assets: FileRef -> AssetRead)
    ensures var o := ExportImagesSpec(images, outputDir, confirmed, config, settings, metrics, decode, assets);
            o.Ran? ==> forall k :: 0 <= k < |o.result.saves| && o.result.saves[k].target in images ==> confirmed
  {
    var o := ExportImagesSpec(images, outputDir, confirmed, config, settings, metrics, decode, assets);
    if o.Ran? {
      var env := ExportEnv(outputDir.value, config, settings, metrics, decode, assets);
      assert o.result == RunBatch(images, env, SkipNull);
      SavesGoToOutputDir(images, env, SkipNull);
      forall k | 0 <= k < |o.result.saves| && o.result.saves[k].target in images
        ensures confirmed
      {
        assert o.result.saves[k].target.directory == outputDir.value;
        var j :| 0 <= j < |images| && images[j] == o.result.saves[k].target;
        assert images[j].directory == outputDir.value;
      }
    }
  }

  // ---------------------------------------------------------------------------
  // The application object

  class PhotoWatermarkApp {
    const imageProcessor: ImageProcessor
    const watermarkManager: WatermarkManager
    const configManager: ConfigManager
    var importedImages: seq<ImageFile>
    var currentPreviewImage: Option<ImageFile>

    /** The list never repeats a file, and a preview, when set, is one of the
        listed files. (A listed file need not give a preview: see `AddFile`.) */
    predicate Valid()
      reads this
    {
      && NoDuplicates(importedImages)
      && (currentPreviewImage.Some? ==> currentPreviewImage.value in importedImages)
    }

    /** The constructor's model part over the two files found on disk: a
        default processor, a manager, a configuration manager reading the
        files, and no images. `loadLastConfig` then hands the stored last
        settings, when the file can be read, to the manager. */
    constructor (templatesStore: StoredFile<map<string, SettingsValue>>, lastSettingsStore: StoredFile<SettingsValue>)
      ensures Valid() && importedImages == [] && currentPreviewImage == None
      ensures fresh(imageProcessor) && imageProcessor.Config() == DEFAULT_EXPORT
      ensures fresh(watermarkManager) && fresh(watermarkManager.settings)
      ensures lastSettingsStore.Holds? ==> watermarkManager.settings.Value() == lastSettingsStore.content
      ensures !lastSettingsStore.Holds? ==> watermarkManager.settings.Value() == DEFAULT_SETTINGS
      ensures fresh(configManager)
      ensures configManager.templatesFile == templatesStore && configManager.lastSettingsFile == lastSettingsStore
    {
      var processor := new ImageProcessor();
      var manager := new WatermarkManager();
      var config := new ConfigManager(templatesStore, lastSettingsStore);
      var lastSettings := config.LoadLastSettings();
      if lastSettings.Some? {
        manager.ApplySettings(lastSettings.value);
      }
      imageProcessor := processor;
      watermarkManager := manager;
      configManager := config;
      importedImages := [];
      currentPreviewImage := None;
    }

    /** `addImageToList(file)`: appends an unlisted file, and makes it the
        preview if there is none yet, unless its thumbnail throws (reported
        as `thrown`); a listed file changes nothing. */
    method AddImageToList(file: ImageFile, thumbnailThrows: ImageFile -> bool) returns (thrown: bool)
      requires Valid()
      modifies this
      ensures Valid()
      ensures ImportState(importedImages, currentPreviewImage, !thrown) ==
                AddFile(ImportState(old(importedImages), old(currentPreviewImage), true), file, thumbnailThrows)
    {
      thrown := false;
      if file !in importedImages {
        importedImages := importedImages + [file];
        if thumbnailThrows(file) {
          return true;
        }
        if currentPreviewImage.None? {
          currentPreviewImage := Some(file);
        }
      }
    }

    /** `addImageToList` on each of `files`, in order, until one throws. */
    method ImportFiles(files: seq<ImageFile>, thumbnailThrows: ImageFile -> bool) returns (completed: bool)
      requires Valid()
      modifies this
      ensures Valid()
      ensures ImportState(importedImages, currentPreviewImage, completed) ==
                ImportRun(old(importedImages), old(currentPreviewImage), files, thumbnailThrows)
    {
      ghost var list := importedImages;
      ghost var preview := currentPreviewImage;
      for i := 0 to |files|
        invariant Valid()
        invariant ImportRun(list, preview, files[..i], thumbnailThrows) == ImportState(importedImages, currentPreviewImage, true)
      {
        assert files[..i + 1][..i] == files[..i];
        var thrown := AddImageToList(files[i], thumbnailThrows);
        if thrown {
          ImportRunStops(list, preview, files, i + 1, thumbnailThrows);
          return false;
        }
      }
      assert files[..|files|] == files;
      completed := true;
    }

    /** `importImages()`: the files picked in the chooser (none when it is
        dismissed) are added in order. The chooser's extension filter only
        affects what the dialog shows, so every picked file is added. */
    method ImportImages(picked: Option<seq<ImageFile>>, thumbnailThrows: ImageFile -> bool) returns (completed: bool)
      requires Valid()
      modifies this
      ensures Valid()
      ensures picked.None? ==> completed && importedImages == old(importedImages) && currentPreviewImage == old(currentPreviewImage)
      ensures picked.Some? ==> ImportState(importedImages, currentPreviewImage, completed) ==
                                 ImportRun(old(importedImages), old(currentPreviewImage), picked.value, thumbnailThrows)
    {
      completed := true;
      if picked.Some? {
        completed := ImportFiles(picked.value, thumbnailThrows);
      }
    }

    /** `importFolder()`: the chosen directory (none when the chooser is
        dismissed) and its listing (none when `listFiles` returns null); the
        importable names are added in listing order. */
    method ImportFolder(directory: Option<string>, listing: Option<seq<string>>, thumbnailThrows: ImageFile -> bool)
      returns (completed: bool)
      requires Valid()
      modifies this
      ensures Valid()
      ensures directory.None? || listing.None? ==>
                completed && importedImages == old(importedImages) && currentPreviewImage == old(currentPreviewImage)
      ensures directory.Some? && listing.Some? ==>
                ImportState(importedImages, currentPreviewImage, completed) ==
                  ImportRun(old(importedImages), old(currentPreviewImage), FolderImports(directory.value, listing.value), thumbnailThrows)
    {
      completed := true;
      if directory.Some? && listing.Some? {
        completed := ImportFiles(FolderImports(directory.value, listing.value), thumbnailThrows);
      }
    }

    /** A click on a listed thumbnail makes that file the preview. Only a
        file whose thumbnail was made has a listener, so a file listed after
        its thumbnail threw can never be selected this way. */
    method SelectPreview(file: ImageFile)
      requires Valid() && file in importedImages
      modifies this
      ensures Valid()
      ensures importedImages == old(importedImages) && currentPreviewImage == Some(file)
    {
      currentPreviewImage := Some(file);
    }

    /** The preset button `pos`: both coordinates of the current settings are
        set from the table, and nothing else changes. */
    method SelectPreset(pos: int)
      modifies watermarkManager.settings
      ensures watermarkManager.settings.Value() ==
                old(watermarkManager.settings.Value()).(positionX := PresetPosition(pos).0,
                                                        positionY := PresetPosition(pos).1)
    {
      var (x, y) := PresetPosition(pos);
      watermarkManager.settings.SetPositionX(x);
      watermarkManager.settings.SetPositionY(y);
    }

    /** The `sameAsSource` loop of `exportImages`: whether some imported
        file's parent is the output directory. */
    method SameAsSource(outputDir: string) returns (same: bool)
      ensures same <==> SharesDirectory(importedImages, outputDir)
    {
      same := false;
      var i := 0;
      while i < |importedImages|
        invariant 0 <= i <= |importedImages|
        invariant forall j :: 0 <= j < i ==> importedImages[j].directory != outputDir
      {
        if importedImages[i].directory == outputDir {
          same := true;
          break;
        }
        i := i + 1;
      }
    }

    /** One pass of the corrected export loop's body: load, watermark, and
        save under the output name, or skip a source that does not load. */
    method ExportSource(image: ImageFile, directory: string, decode: ImageFile -> Option<Image>,
                        metrics: FontMetrics, assets: FileRef -> AssetRead)
      returns (step: Step)
      ensures step == ExportStep(image, ExportEnv(directory, imageProcessor.Config(), watermarkManager.settings.Value(),
                                                  metrics, decode, assets), SkipNull)
    {
      var rendering := watermarkManager.ApplyWatermark(decode(image), metrics, assets);
      if rendering.IllegalAlpha? {
        return Throw(IllegalArgumentException);
      }
      if rendering.NullImage? {
        return Skip;
      }
      var config := imageProcessor.Config();
      var encoding := SaveImage(config, Some(Buffered));
      var target := ImageFile(directory, OutputFileName(config, image.name));
      step := Save(SaveRequest(target, rendering.raster, encoding.encoder));
    }

    /** `exportImages()`, with the corrected loop: no files gives the error
        dialog; a dismissed chooser, or a declined overwrite warning when the
        output directory holds a source, ends it; otherwise every source is
        loaded, watermarked and saved under its output name. */
    method ExportImages(outputDir: Option<string>, confirmed: bool, decode: ImageFile -> Option<Image>,
                        metrics: FontMetrics, assets: FileRef -> AssetRead)
      returns (outcome: ExportOutcome)
      ensures outcome == ExportImagesSpec(importedImages, outputDir, confirmed, imageProcessor.Config(),
                                          watermarkManager.settings.Value(), metrics, decode, assets)
    {
      if |importedImages| == 0 {
        return NoImages;
      }
      if outputDir.None? {
        return Cancelled;
      }
      var directory := outputDir.value;
      var same := SameAsSource(directory);
      if same && !confirmed {
        return Declined;
      }
      var result := ExportAll(directory, decode, metrics, assets);
      outcome := Ran(result);
    }

    /** The corrected loop of `exportImages` over every imported file, in
        order, ended by the first exception. */
    method ExportAll(directory: string, decode: ImageFile -> Option<Image>, metrics: FontMetrics,
                     assets: FileRef -> AssetRead)
      returns (result: BatchResult)
      ensures result == ExportBatch(importedImages, ExportEnv(directory, imageProcessor.Config(),
                                                              watermarkManager.settings.Value(), metrics, decode, assets))
    {
      ghost var env := ExportEnv(directory, imageProcessor.Config(), watermarkManager.settings.Value(), metrics, decode, assets);
      var saves: seq<SaveRequest> := [];
      for i := 0 to |importedImages|
        invariant RunBatch(importedImages[..i], env, SkipNull) == Completed(saves)
      {
        var image := importedImages[i];
        assert importedImages[..i + 1][..i] == importedImages[..i];
        var step := ExportSource(image, directory, decode, metrics, assets);
        match step
        case Throw(e) =>
          AbortIsFinal(importedImages, i + 1, env, SkipNull);
          return Aborted(saves, image, e);
        case Save(request) =>
          saves := saves + [request];
        case Skip =>
      }
      assert importedImages[..|importedImages|] == importedImages;
      result := Completed(saves);
    }
  }
}
