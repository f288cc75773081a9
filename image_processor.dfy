/** The image processor of the batch resize: it indexes the images of an uploaded
    archive by lower-cased file name, then gives every specification row exactly one
    outcome (skipped, failed or resized), reporting progress and timing as it goes.
    Decoding and drawing are outside the model: the decoder and the canvas are passed
    in as functions, and so are the clock and the file-size formatter. */
module ImageProcessing {
  import opened Wrappers
  import opened Text
  import opened Types
  import opened FileValidation
  import opened TimeEstimation

  // ---------------------------------------------------------------- data

  /** A pixel size. */
  datatype Size = Size(width: nat, height: nat)

  /** The pixel size of a decoded image: both sides positive. */
  type Pixels = x: nat | x > 0 witness 1

  datatype ProcessedImage = ProcessedImage(
    filename: string,
    originalSize: Size,
    targetSize: Size,
    blob: Blob,
    success: bool,
    error: Option<string>,
    originalFileSize: Option<nat>,
    processedFileSize: Option<nat>)

  datatype ProcessingResult = ProcessingResult(
    success: bool,
    processedImages: seq<ProcessedImage>,
    errors: seq<string>,
    skippedFiles: seq<string>)

  /** One entry of the uploaded archive, in archive order. Reading a file's bytes can
      fail with a message. */
  datatype ZipEntry = ZipEntry(path: string, dir: bool, data: Result<Blob, string>)

  /** The resize mode. Anything but `Constrained` (including a missing mode) keeps the
      exact size the row asks for. */
  datatype ResizeMode = Constrained | File | Brand

  /** What the canvas gives back for a decoded image drawn at a target size: no 2-D
      context, a failure raised while drawing, no encoded blob, or the encoded JPEG. */
  datatype CanvasOutcome = NoContext | DrawFailed(message: string) | NoBlob | Encoded(bytes: Blob)

  /** One progress report handed to the progress callback. */
  datatype ProcessingProgress = ProcessingProgress(
    stage: string,
    current: nat,
    total: nat,
    percentage: int,
    message: string,
    timeEstimate: Option<TimeEstimate>)

  const Dpi: nat := 300

  // ---------------------------------------------------------------- archive index

  /** The text after the last '/' of `path` (all of it when there is none). */
  function LastSegment(path: string): (r: string)
    ensures |r| <= |path| && r == path[|path| - |r|..]
    ensures '/' !in r
    ensures |r| < |path| ==> path[|path| - |r| - 1] == '/'
  {
    if path == [] || path[|path| - 1] == '/' then []
    else
      var init := path[..|path| - 1];
      var r := LastSegment(init) + [path[|path| - 1]];
      assert path == init + [path[|path| - 1]];
      r
  }

  /** `relativePath.split("/").pop() || relativePath`: the last segment, or the whole
      path when that segment is empty. */
  function BaseName(path: string): (r: string)
    ensures '/' !in path ==> r == path
    ensures r != [] || path == []
  {
    var last := LastSegment(path);
    if last == [] then path else last
  }

  /** Only files (not folders) with an image extension are indexed. */
  predicate Indexable(e: ZipEntry) {
    !e.dir && IsImageFile(e.path)
  }

  /** The index key of an entry: its lower-cased base name. */
  function IndexKey(e: ZipEntry): string {
    Lower(BaseName(e.path))
  }

  /** The index after visiting `entries` in order: each entry that passes `keep` is
      stored under `key` of it, replacing whatever an earlier entry stored there. */
  function IndexBy(entries: seq<ZipEntry>, keep: ZipEntry -> bool, key: ZipEntry -> string)
    : map<string, ZipEntry>
  {
    if entries == [] then map[]
    else
      var e := entries[|entries| - 1];
      var before := IndexBy(entries[..|entries| - 1], keep, key);
      if keep(e) then before[key(e) := e] else before
  }

  /** The archive index: image files (not folders) under their lower-cased base name. */
  function Index(entries: seq<ZipEntry>): map<string, ZipEntry> {
    IndexBy(entries, Indexable, IndexKey)
  }

  /** Entry `j` passes `keep` and has key `k`. */
  predicate HasKey(entries: seq<ZipEntry>, keep: ZipEntry -> bool, key: ZipEntry -> string,
                   j: nat, k: string) {
    j < |entries| && keep(entries[j]) && key(entries[j]) == k
  }

  /** Entry `j` is the last entry that passes `keep` with key `k`. */
  predicate LastWithKey(entries: seq<ZipEntry>, keep: ZipEntry -> bool,
                        key: ZipEntry -> string, j: nat, k: string) {
    HasKey(entries, keep, key, j, k) &&
    forall i: nat :: j < i < |entries| ==> !HasKey(entries, keep, key, i, k)
  }

  /** A key is in the index exactly when some kept entry has it. */
  lemma {:induction false} IndexKeys(entries: seq<ZipEntry>, keep: ZipEntry -> bool,
                                     key: ZipEntry -> string, k: string)
    ensures k in IndexBy(entries, keep, key) <==> exists j: nat :: HasKey(entries, keep, key, j, k)
  {
    if entries != [] {
      var n := |entries| - 1;
      var init := entries[..n];
      IndexKeys(init, keep, key, k);
      if k in IndexBy(init, keep, key) {
        var j: nat :| HasKey(init, keep, key, j, k);
        assert HasKey(entries, keep, key, j, k);
      }
      if keep(entries[n]) && key(entries[n]) == k {
        assert HasKey(entries, keep, key, n, k);
      }
      if exists j: nat :: HasKey(entries, keep, key, j, k) {
        var j: nat :| HasKey(entries, keep, key, j, k);
        if j < n {
          assert HasKey(init, keep, key, j, k);
        } else {
          assert keep(entries[n]) && key(entries[n]) == k;
        }
      }
    }
  }

  /** A key in the index maps to the last kept entry with that key: on a collision the
      later entry wins. */
  lemma {:induction false} IndexHoldsLastEntry(entries: seq<ZipEntry>, keep: ZipEntry -> bool,
                                               key: ZipEntry -> string, k: string)
    requires k in IndexBy(entries, keep, key)
    ensures exists j: nat :: LastWithKey(entries, keep, key, j, k) &&
                            IndexBy(entries, keep, key)[k] == entries[j]
  {
    var n := |entries| - 1;
    var init := entries[..n];
    var e := entries[n];
    if keep(e) && key(e) == k {
      assert LastWithKey(entries, keep, key, n, k);
    } else {
      IndexHoldsLastEntry(init, keep, key, k);
      var j: nat :| LastWithKey(init, keep, key, j, k) && IndexBy(init, keep, key)[k] == init[j];
      forall i: nat | j < i < |entries|
        ensures !HasKey(entries, keep, key, i, k)
      {
        if i < n {
          assert !HasKey(init, keep, key, i, k);
        }
      }
      assert LastWithKey(entries, keep, key, j, k);
    }
  }

  /** For the archive: a lower-cased name is in the index exactly when some image file
      (not a folder) has it as its lower-cased base name, and it maps to the last such
      file in archive order. */
  lemma ArchiveIndex(entries: seq<ZipEntry>, name: string)
    ensures name in Index(entries) <==> exists j: nat :: HasKey(entries, Indexable, IndexKey, j, name)
    ensures name in Index(entries) ==>
      exists j: nat :: LastWithKey(entries, Indexable, IndexKey, j, name) &&
                       Index(entries)[name] == entries[j]
  {
    IndexKeys(entries, Indexable, IndexKey, name);
    if name in Index(entries) {
      IndexHoldsLastEntry(entries, Indexable, IndexKey, name);
    }
  }

  /** The `zip.forEach` loop that fills the index. */
  method BuildIndex(entries: seq<ZipEntry>) returns (imageFiles: map<string, ZipEntry>)
    ensures imageFiles == Index(entries)
  {
    imageFiles := map[];
    for i := 0 to |entries|
      invariant imageFiles == IndexBy(entries[..i], Indexable, IndexKey)
    {
      var file := entries[i];
      assert entries[..i + 1][..i] == entries[..i];
      if !file.dir && IsImageFile(file.path) {
        var filename := BaseName(file.path);
        imageFiles := imageFiles[Lower(filename) := file];
      }
    }
    assert entries[..|entries|] == entries;
  }

  /** `isImageFile` compares the lower-cased name, so the extension's case does not
      matter; a name without an image extension is not an image. */
  lemma ImageFileExamples()
    ensures IsImageFile("IMG_01.JPEG")
    ensures !IsImageFile("notes.txt")
  {
    assert Lower("IMG_01.JPEG") == "img_01.jpeg";
    assert EndsWith(Lower("IMG_01.JPEG"), ".jpeg");
    assert Lower("notes.txt") == "notes.txt";
  }

  // ---------------------------------------------------------------- target size

  /** The print size of `calculateImageDimensions`: pixels at `dpi` for the given inches. */
  datatype PrintDimensions = PrintDimensions(width: int, height: int, dpi: nat)

  /** `calculateImageDimensions(lengthInches, widthInches, dpi)`: the width follows the
      width in inches and the height the length, each rounded to a whole pixel. */
  function CalculateImageDimensions(lengthInches: real, widthInches: real, dpi: nat := Dpi)
    : (d: PrintDimensions)
    ensures d.dpi == dpi
    ensures widthInches * dpi as real - 0.5 < d.width as real <= widthInches * dpi as real + 0.5
    ensures lengthInches * dpi as real - 0.5 < d.height as real <= lengthInches * dpi as real + 0.5
  {
    PrintDimensions(Round(widthInches * dpi as real), Round(lengthInches * dpi as real), dpi)
  }

  /** The exact size a row asks for at 300 DPI (`requestedWidth`, `requestedHeight`). */
  function RequestedSize(row: CsvRow): (s: Size)
    ensures s.width == Round(row.width * 300.0) && s.height == Round(row.length * 300.0)
  {
    Size(Round(row.width * Dpi as real), Round(row.length * Dpi as real))
  }

  /** The common side of the constrained mode: the smaller requested side, at least 1. */
  function ConstrainedBase(requested: Size): (base: Pixels)
  {
    if requested.width < requested.height
    then (if requested.width < 1 then 1 else requested.width)
    else (if requested.height < 1 then 1 else requested.height)
  }

  /** `Math.max(1, x)`. */
  function AtLeastOne(x: int): (p: Pixels)
    ensures p == x || (x < 1 && p == 1)
  {
    if x < 1 then 1 else x
  }

  /** The constrained size for a base and a source aspect ratio (width over height):
      the longer source side becomes the base, the other follows the ratio. */
  function ConstrainedSize(base: Pixels, aspect: real): Size
    requires aspect > 0.0
  {
    if aspect >= 1.0 then Size(base, AtLeastOne(Round(base as real / aspect)))
    else Size(AtLeastOne(Round(base as real * aspect)), base)
  }

  /** The target-size block of `resizeImage`: in constrained mode the longer source side
      becomes the base and the other side follows the source aspect ratio (at least 1
      pixel); in any other mode the requested size is kept as it is. */
  function TargetSize(row: CsvRow, mode: ResizeMode, source: (Pixels, Pixels)): Size
  {
    TargetFor(RequestedSize(row), mode, source)
  }

  function TargetFor(requested: Size, mode: ResizeMode, source: (Pixels, Pixels)): Size
  {
    if mode != Constrained then requested
    else ConstrainedSize(ConstrainedBase(requested), source.0 as real / source.1 as real)
  }

  /** Any mode but the constrained one keeps the size `calculateImageDimensions` gives. */
  lemma ExactModeMatchesCalculation(row: CsvRow, mode: ResizeMode, source: (Pixels, Pixels))
    requires mode != Constrained
    ensures var d := CalculateImageDimensions(row.length, row.width);
      TargetSize(row, mode, source) == Size(d.width, d.height)
  {
  }

  /** The 8.5 x 11 inch example: 2550 x 3300 pixels. */
  lemma ExactSizeExample(source: (Pixels, Pixels))
    ensures TargetSize(CsvRow("photo1.jpg", 11.0, 8.5), File, source) == Size(2550, 3300)
  {
  }

  /** The exact mode has no lower clamp: a tiny value gives a zero-pixel side. */
  lemma ExactSizeCanBeZero(source: (Pixels, Pixels))
    ensures TargetSize(CsvRow("photo1.jpg", 11.0, 0.001), File, source).width == 0
  {
  }

  /** `n` is `x` rounded to the nearest integer (up to the rounding of halves). */
  predicate WithinHalf(n: int, x: real) {
    x - 0.5 < n as real <= x + 0.5
  }

  /** Both sides lie between 1 and the base; the width is the base for a landscape or
      square ratio and the height is the base for a portrait one. The side that follows
      the ratio is within half a pixel of its exact length unless raised to 1. */
  lemma ConstrainedSizeFacts(base: Pixels, aspect: real)
    requires aspect > 0.0
    ensures var t := ConstrainedSize(base, aspect);
      && 1 <= t.width <= base && 1 <= t.height <= base
      && (aspect >= 1.0 ==> t.width == base)
      && (aspect < 1.0 ==> t.height == base)
      && (aspect >= 1.0 && t.height > 1 ==> WithinHalf(t.height, base as real / aspect))
      && (aspect < 1.0 && t.width > 1 ==> WithinHalf(t.width, base as real * aspect))
  {
    if aspect >= 1.0 {
      QuotientAtMost(base as real, aspect);
    } else {
      assert base as real * aspect <= base as real;
    }
  }

  /** In constrained mode both target sides lie between 1 and the base, and the side
      that is the longer one in the source (the width when the source is square) is
      exactly the base. The other side is within half a pixel of the base scaled by the
      source proportions, unless it was raised to the one-pixel minimum. */
  lemma ConstrainedWithinBase(requested: Size, w: Pixels, h: Pixels)
    ensures 1 <= TargetFor(requested, Constrained, (w, h)).width <= ConstrainedBase(requested)
    ensures 1 <= TargetFor(requested, Constrained, (w, h)).height <= ConstrainedBase(requested)
    ensures w >= h ==> TargetFor(requested, Constrained, (w, h)).width == ConstrainedBase(requested)
    ensures w < h ==> TargetFor(requested, Constrained, (w, h)).height == ConstrainedBase(requested)
    ensures w >= h && TargetFor(requested, Constrained, (w, h)).height > 1 ==>
      WithinHalf(TargetFor(requested, Constrained, (w, h)).height,
                 ConstrainedBase(requested) as real / (w as real / h as real))
    ensures w < h && TargetFor(requested, Constrained, (w, h)).width > 1 ==>
      WithinHalf(TargetFor(requested, Constrained, (w, h)).width,
                 ConstrainedBase(requested) as real * (w as real / h as real))
  {
    ConstrainedSizeFacts(ConstrainedBase(requested), w as real / h as real);
    if w >= h {
      QuotientAtLeastOne(w as real, h as real);
    } else {
      QuotientBelowOne(w as real, h as real);
    }
  }

  lemma QuotientAtMost(x: real, d: real)
    requires x >= 0.0 && d >= 1.0
    ensures x / d <= x
  {
    assert x / d * d == x;
    assert x / d * (d - 1.0) >= 0.0;
  }

  lemma QuotientAtLeastOne(x: real, y: real)
    requires 0.0 < y <= x
    ensures x / y >= 1.0
  {
    assert x / y * y == x;
  }

  lemma QuotientBelowOne(x: real, y: real)
    requires 0.0 < x < y
    ensures x / y < 1.0
  {
    var q := x / y;
    assert q * y == x;
    if q >= 1.0 {
      assert false;
    }
  }

  /** `formatImageDimensions`. */
  function FormatImageDimensions(width: nat, height: nat): (r: string)
    ensures StartsWith(r, NatToString(width))
  {
    var r := NatToString(width) + " × " + NatToString(height) + " px";
    assert r[..|NatToString(width)|] == NatToString(width);
    r
  }

  /** Different sizes are never displayed alike: the text determines both numbers. */
  lemma FormatImageDimensionsInjective(w1: nat, h1: nat, w2: nat, h2: nat)
    requires FormatImageDimensions(w1, h1) == FormatImageDimensions(w2, h2)
    ensures w1 == w2 && h1 == h2
  {
    var b1, b2 := NatToString(h1), NatToString(h2);
    FormatShape(w1, h1);
    FormatShape(w2, h2);
    DigitsPrefixUnique(NatToString(w1), " × " + (b1 + " px"), NatToString(w2), " × " + (b2 + " px"));
    NatToStringInjective(w1, w2);
    assert (" × " + (b1 + " px"))[3..] == b1 + " px";
    assert (" × " + (b2 + " px"))[3..] == b2 + " px";
    DigitsPrefixUnique(b1, " px", b2, " px");
    NatToStringInjective(h1, h2);
  }

  lemma FormatShape(w: nat, h: nat)
    ensures FormatImageDimensions(w, h) == NatToString(w) + (" × " + (NatToString(h) + " px"))
  {
  }

  /** A run of digits followed by a non-digit is read back unambiguously. */
  lemma DigitsPrefixUnique(x: string, rx: string, y: string, ry: string)
    requires AllDigits(x) && AllDigits(y)
    requires rx != [] && !IsDigit(rx[0]) && ry != [] && !IsDigit(ry[0])
    requires x + rx == y + ry
    ensures x == y && rx == ry
  {
    // The first non-digit of the joined text sits right after each run of digits.
    assert |x| == |y| by {
      assert !IsDigit((x + rx)[|x|]) && !IsDigit((y + ry)[|y|]);
      assert forall i :: 0 <= i < |x| ==> IsDigit((x + rx)[i]);
      assert forall i :: 0 <= i < |y| ==> IsDigit((y + ry)[i]);
    }
    assert x == (x + rx)[..|x|] && y == (y + ry)[..|y|];
    assert rx == (x + rx)[|x|..] && ry == (y + ry)[|y|..];
  }

  // ---------------------------------------------------------------- one row

  const LoadFailedMessage := "Failed to load image"
  const NoContextMessage := "Failed to get canvas context"
  const NoBlobMessage := "Failed to create resized image blob"

  /** `resizeImage`: decode, compute the target size, draw and encode. A failure at any
      step rejects with its message. */
  function Resize(blob: Blob, row: CsvRow, mode: ResizeMode,
                  decode: Blob -> Option<(Pixels, Pixels)>,
                  render: (Blob, Size) -> CanvasOutcome): (r: Result<ProcessedImage, string>)
    ensures decode(blob).None? ==> r == Failure(LoadFailedMessage)
    ensures r.Success? ==>
      && decode(blob).Some?
      && var source := decode(blob).value;
      && var target := TargetSize(row, mode, source);
      && render(blob, target).Encoded?
      && var bytes := render(blob, target).bytes;
      && r.value == ProcessedImage(row.filename, Size(source.0, source.1), target, bytes,
                                   true, None, Some(|blob|), Some(|bytes|))
    ensures decode(blob).Some? ==>
      var outcome := render(blob, TargetSize(row, mode, decode(blob).value));
      && (outcome.Encoded? ==> r.Success?)
      && (outcome.NoContext? ==> r == Failure(NoContextMessage))
      && (outcome.DrawFailed? ==> r == Failure(outcome.message))
      && (outcome.NoBlob? ==> r == Failure(NoBlobMessage))
  {
    match decode(blob)
    case None => Failure(LoadFailedMessage)
    case Some(source) =>
      var target := TargetSize(row, mode, source);
      match render(blob, target)
      case NoContext => Failure(NoContextMessage)
      case DrawFailed(message) => Failure(message)
      case NoBlob => Failure(NoBlobMessage)
      case Encoded(bytes) =>
        Success(ProcessedImage(row.filename, Size(source.0, source.1), target, bytes, true,
                               None, Some(|blob|), Some(|bytes|)))
  }

  /** What one row contributes: a skipped name, a failed image with its error, or a
      resized image. */
  datatype RowOutcome =
    | Skipped(filename: string)
    | Failed(image: ProcessedImage, error: string)
    | Resized(image: ProcessedImage)

  function NotFoundError(filename: string): string {
    "Image not found in ZIP: " + filename
  }

  function ProcessFailedError(filename: string, message: string): string {
    "Failed to process " + filename + ": " + message
  }

  /** The entry recorded for a row that failed after its image was found. */
  function FailedImage(row: CsvRow, fileSize: Option<nat>, message: string): ProcessedImage {
    var exact := RequestedSize(row);
    ProcessedImage(row.filename, Size(0, 0), exact, [], false, Some(message), fileSize, None)
  }

  /** The outcome of the row: not in the index, the image cannot be read, the image is
      over the size limit, resizing fails, or the resized image. Failures keep the
      exact requested size even in constrained mode. */
  function ProcessRow(imageFiles: map<string, ZipEntry>, row: CsvRow, mode: ResizeMode,
                      decode: Blob -> Option<(Pixels, Pixels)>,
                      render: (Blob, Size) -> CanvasOutcome,
                      formatFileSize: nat -> string): (o: RowOutcome)
    ensures o.Skipped? <==> Lower(row.filename) !in imageFiles
    ensures o.Skipped? ==> o.filename == row.filename
    ensures !o.Skipped? ==> o.image.filename == row.filename
    ensures o.Resized? ==> o.image.success
    ensures o.Failed? ==>
      && !o.image.success && o.image.originalSize == Size(0, 0)
      && o.image.targetSize == RequestedSize(row)
      && o.image.blob == [] && o.image.error.Some? && o.image.processedFileSize.None?
    ensures o.Failed? && o.image.originalFileSize.None? ==>
      o.error == ProcessFailedError(row.filename, o.image.error.value)
    ensures o.Failed? && o.image.originalFileSize.Some? ==>
      && o.error == o.image.error.value
      && !ValidateImageSize(o.image.originalFileSize.value, row.filename, formatFileSize).isValid
  {
    var key := Lower(row.filename);
    if key !in imageFiles then Skipped(row.filename)
    else
      match imageFiles[key].data
      case Failure(message) =>
        Failed(FailedImage(row, None, message), ProcessFailedError(row.filename, message))
      case Success(blob) =>
        var validation := ValidateImageSize(|blob|, row.filename, formatFileSize);
        if !validation.isValid then
          Failed(FailedImage(row, Some(|blob|), validation.error.value), validation.error.value)
        else
          match Resize(blob, row, mode, decode, render)
          case Failure(message) =>
            Failed(FailedImage(row, None, message), ProcessFailedError(row.filename, message))
          case Success(image) => Resized(image)
  }

  /** An image over 5 MiB is never resized: it fails with the size error and records
      its byte count. */
  lemma OversizedImageFails(imageFiles: map<string, ZipEntry>, row: CsvRow, mode: ResizeMode,
                            decode: Blob -> Option<(Pixels, Pixels)>,
                            render: (Blob, Size) -> CanvasOutcome,
                            formatFileSize: nat -> string)
    requires Lower(row.filename) in imageFiles
    requires imageFiles[Lower(row.filename)].data.Success?
    requires |imageFiles[Lower(row.filename)].data.value| > MaxImageSize
    ensures var o := ProcessRow(imageFiles, row, mode, decode, render, formatFileSize);
      var size := |imageFiles[Lower(row.filename)].data.value|;
      && o.Failed?
      && o.error == ValidateImageSize(size, row.filename, formatFileSize).error.value
      && o.image.originalFileSize == Some(size)
  {
  }

  /** For a row whose image is in the index: a read failure and a failed resize are
      reported as "Failed to process", an image within the limit is resized exactly
      when `resizeImage` succeeds, and then the entry is the resized image. */
  lemma FoundRowOutcome(imageFiles: map<string, ZipEntry>, row: CsvRow, mode: ResizeMode,
                        decode: Blob -> Option<(Pixels, Pixels)>,
                        render: (Blob, Size) -> CanvasOutcome,
                        formatFileSize: nat -> string)
    requires Lower(row.filename) in imageFiles
    ensures var o := ProcessRow(imageFiles, row, mode, decode, render, formatFileSize);
      var data := imageFiles[Lower(row.filename)].data;
      && (data.Failure? ==>
            o == Failed(FailedImage(row, None, data.error), ProcessFailedError(row.filename, data.error)))
      && (data.Success? && |data.value| <= MaxImageSize ==>
            var resized := Resize(data.value, row, mode, decode, render);
            && (o.Resized? <==> resized.Success?)
            && (resized.Success? ==> o == Resized(resized.value))
            && (resized.Failure? ==>
                  o == Failed(FailedImage(row, None, resized.error),
                              ProcessFailedError(row.filename, resized.error))))
  {
  }

  // ---------------------------------------------------------------- all rows

  function ImagesOf(outcomes: seq<RowOutcome>): seq<ProcessedImage> {
    if outcomes == [] then []
    else
      var o := outcomes[|outcomes| - 1];
      ImagesOf(outcomes[..|outcomes| - 1]) + if o.Skipped? then [] else [o.image]
  }

  function ErrorsOf(outcomes: seq<RowOutcome>): seq<string> {
    if outcomes == [] then []
    else
      var o := outcomes[|outcomes| - 1];
      ErrorsOf(outcomes[..|outcomes| - 1]) +
        match o
        case Skipped(filename) => [NotFoundError(filename)]
        case Failed(_, error) => [error]
        case Resized(_) => []
  }

  function SkippedOf(outcomes: seq<RowOutcome>): seq<string> {
    if outcomes == [] then []
    else
      var o := outcomes[|outcomes| - 1];
      SkippedOf(outcomes[..|outcomes| - 1]) + if o.Skipped? then [o.filename] else []
  }

  function CountResized(outcomes: seq<RowOutcome>): nat {
    if outcomes == [] then 0
    else CountResized(outcomes[..|outcomes| - 1]) + if outcomes[|outcomes| - 1].Resized? then 1 else 0
  }

  /** Outcomes as `ProcessRow` makes them: resized images succeeded, failed ones did not. */
  predicate Consistent(o: RowOutcome) {
    (o.Resized? ==> o.image.success) && (o.Failed? ==> !o.image.success)
  }

  /** Every row is accounted for exactly once: it is either an entry of
      `processedImages` or a name in `skippedFiles`, and it reports one error unless it
      was resized. */
  lemma {:induction false} EveryRowAccountedFor(outcomes: seq<RowOutcome>)
    ensures |ImagesOf(outcomes)| + |SkippedOf(outcomes)| == |outcomes|
    ensures |ErrorsOf(outcomes)| + CountResized(outcomes) == |outcomes|
  {
    if outcomes != [] {
      EveryRowAccountedFor(outcomes[..|outcomes| - 1]);
    }
  }

  predicate SomeSuccess(images: seq<ProcessedImage>) {
    exists k :: 0 <= k < |images| && images[k].success
  }

  /** The batch succeeds exactly when at least one row was resized. */
  lemma {:induction false} SuccessIffSomeResized(outcomes: seq<RowOutcome>)
    requires forall k :: 0 <= k < |outcomes| ==> Consistent(outcomes[k])
    ensures SomeSuccess(ImagesOf(outcomes)) <==> CountResized(outcomes) > 0
  {
    if outcomes != [] {
      var init := outcomes[..|outcomes| - 1];
      var o := outcomes[|outcomes| - 1];
      SuccessIffSomeResized(init);
      var before := ImagesOf(init);
      var after := ImagesOf(outcomes);
      assert after[..|before|] == before;
      if SomeSuccess(before) {
        var k :| 0 <= k < |before| && before[k].success;
        assert after[k] == before[k];
      }
      if !o.Skipped? {
        assert after[|before|] == o.image;
      }
      if SomeSuccess(after) {
        var k :| 0 <= k < |after| && after[k].success;
        if k < |before| {
          assert before[k].success;
        }
      }
    }
  }

  // ---------------------------------------------------------------- progress

  /** The percentage reported before row `i` of `n`: 5 to 95 in proportion to the rows
      started. */
  function RowProgress(i: nat, n: nat): int
    requires i < n
  {
    Round((i + 1) as real / n as real * 90.0) + 5
  }

  lemma RowProgressBounds(i: nat, n: nat)
    requires i < n
    ensures 5 <= RowProgress(i, n) <= 95
  {
    var x := (i + 1) as real / n as real;
    assert x <= 1.0 by {
      assert (i + 1) as real <= n as real;
      QuotientAtMostOne((i + 1) as real, n as real);
    }
    assert x > 0.0;
  }

  lemma QuotientAtMostOne(x: real, y: real)
    requires 0.0 < x <= y
    ensures x / y <= 1.0
  {
    assert x / y * y == x;
  }

  lemma RowProgressMonotone(i: nat, j: nat, n: nat)
    requires i <= j < n
    ensures RowProgress(i, n) <= RowProgress(j, n)
  {
    var x := (i + 1) as real / n as real;
    var y := (j + 1) as real / n as real;
    assert x <= y by {
      assert y - x == (j - i) as real / n as real;
    }
    RoundMonotone(x * 90.0, y * 90.0);
  }

  /** The last row reports 95. */
  lemma LastRowProgress(n: nat)
    requires n > 0
    ensures RowProgress(n - 1, n) == 95
  {
    assert n as real / n as real == 1.0;
  }

  /** The durations the estimator holds after `i` rows when the clock readings are
      `clock(0)` at the start and, for row `k`, `clock(2k+1)` for its estimate and
      `clock(2k+2)` at its completion. */
  function Durations(clock: nat -> int, i: nat): (d: seq<int>)
    ensures |d| == i
  {
    if i == 0 then [] else Durations(clock, i - 1) + [clock(2 * i) - clock(2 * (i - 1))]
  }

  lemma DurationsNext(clock: nat -> int, i: nat)
    ensures Durations(clock, i + 1) == Durations(clock, i) + [clock(2 * i + 2) - clock(2 * i)]
  {
    assert 2 * (i + 1) == 2 * i + 2;
  }

  lemma {:induction false} DurationsSum(clock: nat -> int, i: nat)
    ensures Sum(Durations(clock, i)) == clock(2 * i) - clock(0)
  {
    if i > 0 {
      DurationsSum(clock, i - 1);
      SumAppend(Durations(clock, i - 1), clock(2 * i) - clock(2 * (i - 1)));
    }
  }

  /** The estimates reported with the first `i` of `n` rows: before row `k` the
      estimator holds `k` durations and is read at clock reading `2 * k + 1`. */
  function RowEstimates(clock: nat -> int, n: nat, i: nat): (es: seq<TimeEstimate>)
    ensures |es| == i
  {
    if i == 0 then []
    else
      RowEstimates(clock, n, i - 1) +
      [Estimate(clock(0), Durations(clock, i - 1), i - 1, n, clock(2 * (i - 1) + 1))]
  }

  lemma RowEstimatesNext(clock: nat -> int, n: nat, i: nat)
    ensures RowEstimates(clock, n, i + 1) ==
            RowEstimates(clock, n, i) + [Estimate(clock(0), Durations(clock, i), i, n, clock(2 * i + 1))]
  {
  }

  /** The report made before row `i` is handled, carrying `estimate`. */
  function RowReport(rows: seq<CsvRow>, estimate: TimeEstimate, i: nat): ProcessingProgress
    requires i < |rows|
  {
    var n := |rows|;
    ProcessingProgress("processing", i + 1, n, RowProgress(i, n),
                       "Processing " + rows[i].filename + "...", Some(estimate))
  }

  function StartReports(n: nat): seq<ProcessingProgress> {
    [ProcessingProgress("processing", 0, n, 0, "Extracting ZIP file...", None),
     ProcessingProgress("processing", 0, n, 5, "Found images in ZIP", None)]
  }

  function FinalReport(n: nat, clock: nat -> int): ProcessingProgress {
    ProcessingProgress("processing", n, n, 100, "Processing complete!",
                       Some(Estimate(clock(0), Durations(clock, n), n, n, clock(2 * n + 1))))
  }

  /** The reports of the row loop for the first `|estimates|` rows, `estimates[k]` the
      estimate shown for row `k`. */
  function RowReports(rows: seq<CsvRow>, estimates: seq<TimeEstimate>): (r: seq<ProcessingProgress>)
    requires |estimates| <= |rows|
    ensures |r| == |estimates|
  {
    if estimates == [] then []
    else
      var i := |estimates| - 1;
      RowReports(rows, estimates[..i]) + [RowReport(rows, estimates[i], i)]
  }

  /** The `k`-th report of the row loop is the one for row `k`. */
  lemma {:induction false} RowReportAt(rows: seq<CsvRow>, estimates: seq<TimeEstimate>, k: nat)
    requires k < |estimates| <= |rows|
    ensures RowReports(rows, estimates)[k] == RowReport(rows, estimates[k], k)
  {
    var i := |estimates| - 1;
    if k < i {
      RowReportAt(rows, estimates[..i], k);
    }
  }

  lemma RowReportsNext(log: seq<ProcessingProgress>, rows: seq<CsvRow>,
                       estimates: seq<TimeEstimate>, estimate: TimeEstimate)
    requires |estimates| < |rows|
    ensures log + RowReports(rows, estimates + [estimate]) ==
            (log + RowReports(rows, estimates)) + [RowReport(rows, estimate, |estimates|)]
  {
    assert (estimates + [estimate])[..|estimates|] == estimates;
  }

  /** One report of the row loop, in both the list of estimates and the list of reports
      made so far: the report for row `|estimates|` carries the estimate at that row. */
  lemma RowStartNext(log: seq<ProcessingProgress>, rows: seq<CsvRow>, clock: nat -> int, i: nat,
                     estimates: seq<TimeEstimate>, estimate: TimeEstimate)
    requires i < |rows|
    requires estimates == RowEstimates(clock, |rows|, i)
    requires estimate == Estimate(clock(0), Durations(clock, i), i, |rows|, clock(2 * i + 1))
    ensures estimates + [estimate] == RowEstimates(clock, |rows|, i + 1)
    ensures log + RowReports(rows, estimates + [estimate]) ==
            (log + RowReports(rows, estimates)) + [RowReport(rows, estimate, i)]
  {
    RowEstimatesNext(clock, |rows|, i);
    RowReportsNext(log, rows, estimates, estimate);
  }

  /** The percentages of a whole run: 0 and 5 before the rows, then one per row,
      non-decreasing and within 5 to 95 (the last one 95), then 100. */
  lemma ProgressSchedule(rows: seq<CsvRow>, estimates: seq<TimeEstimate>, clock: nat -> int)
    requires |estimates| == |rows|
    ensures StartReports(|rows|)[0].percentage == 0 && StartReports(|rows|)[1].percentage == 5
    ensures forall k :: 0 <= k < |rows| ==>
      5 <= RowReports(rows, estimates)[k].percentage <= 95
    ensures forall k, l :: 0 <= k <= l < |rows| ==>
      RowReports(rows, estimates)[k].percentage <= RowReports(rows, estimates)[l].percentage
    ensures rows != [] ==> RowReports(rows, estimates)[|rows| - 1].percentage == 95
    ensures FinalReport(|rows|, clock).percentage == 100
  {
    var n := |rows|;
    var log := RowReports(rows, estimates);
    forall k | 0 <= k < n
      ensures 5 <= log[k].percentage <= 95
    {
      RowReportAt(rows, estimates, k);
      RowProgressBounds(k, n);
    }
    forall k, l | 0 <= k <= l < n
      ensures log[k].percentage <= log[l].percentage
    {
      RowReportAt(rows, estimates, k);
      RowReportAt(rows, estimates, l);
      RowProgressMonotone(k, l, n);
    }
    if n > 0 {
      RowReportAt(rows, estimates, n - 1);
      LastRowProgress(n);
    }
  }

  // ---------------------------------------------------------------- the processor

  const ZipFailurePrefix := "Failed to process ZIP file: "

  /** The outcomes of all rows against the index. */
  function Outcomes(imageFiles: map<string, ZipEntry>, rows: seq<CsvRow>, mode: ResizeMode,
                    decode: Blob -> Option<(Pixels, Pixels)>,
                    render: (Blob, Size) -> CanvasOutcome,
                    formatFileSize: nat -> string): (os: seq<RowOutcome>)
    ensures |os| == |rows|
  {
    if rows == [] then []
    else
      Outcomes(imageFiles, rows[..|rows| - 1], mode, decode, render, formatFileSize) +
      [ProcessRow(imageFiles, rows[|rows| - 1], mode, decode, render, formatFileSize)]
  }

  lemma OutcomesNext(imageFiles: map<string, ZipEntry>, rows: seq<CsvRow>, mode: ResizeMode,
                     decode: Blob -> Option<(Pixels, Pixels)>,
                     render: (Blob, Size) -> CanvasOutcome,
                     formatFileSize: nat -> string, i: nat)
    requires i < |rows|
    ensures Outcomes(imageFiles, rows[..i + 1], mode, decode, render, formatFileSize) ==
            Outcomes(imageFiles, rows[..i], mode, decode, render, formatFileSize) +
            [ProcessRow(imageFiles, rows[i], mode, decode, render, formatFileSize)]
  {
    assert rows[..i + 1][..i] == rows[..i];
  }

  /** Row `k`'s outcome is the one `ProcessRow` gives for that row alone. */
  lemma {:induction false} OutcomeOfRow(imageFiles: map<string, ZipEntry>, rows: seq<CsvRow>,
                                        mode: ResizeMode,
                                        decode: Blob -> Option<(Pixels, Pixels)>,
                                        render: (Blob, Size) -> CanvasOutcome,
                                        formatFileSize: nat -> string, k: nat)
    requires k < |rows|
    ensures Outcomes(imageFiles, rows, mode, decode, render, formatFileSize)[k] ==
            ProcessRow(imageFiles, rows[k], mode, decode, render, formatFileSize)
  {
    if k < |rows| - 1 {
      var init := rows[..|rows| - 1];
      OutcomeOfRow(imageFiles, init, mode, decode, render, formatFileSize, k);
      assert init[k] == rows[k];
    }
  }

  /** Files one row's outcome into the lists `processImages` returns: a missing image
      as skipped with a not-found error, a failed one as an entry and an error, a
      resized one as an entry. */
  method Tally(ghost outcomes: seq<RowOutcome>, outcome: RowOutcome,
               images: seq<ProcessedImage>, errors: seq<string>, skipped: seq<string>)
    returns (images': seq<ProcessedImage>, errors': seq<string>, skipped': seq<string>)
    requires images == ImagesOf(outcomes) && errors == ErrorsOf(outcomes)
    requires skipped == SkippedOf(outcomes)
    ensures images' == ImagesOf(outcomes + [outcome])
    ensures errors' == ErrorsOf(outcomes + [outcome])
    ensures skipped' == SkippedOf(outcomes + [outcome])
  {
    assert (outcomes + [outcome])[..|outcomes|] == outcomes;
    images', errors', skipped' := images, errors, skipped;
    match outcome {
      case Skipped(filename) =>
        skipped' := skipped' + [filename];
        errors' := errors' + [NotFoundError(filename)];
      case Failed(image, error) =>
        errors' := errors' + [error];
        images' := images' + [image];
      case Resized(image) =>
        images' := images' + [image];
    }
  }

  /** One pass of the row loop of `processImages` on the lists it builds: row `i` is
      looked up, processed and filed, extending the lists kept for the first `i` rows
      to those for the first `i + 1`. */
  method FileRow(imageFiles: map<string, ZipEntry>, rows: seq<CsvRow>, i: nat, mode: ResizeMode,
                 decode: Blob -> Option<(Pixels, Pixels)>,
                 render: (Blob, Size) -> CanvasOutcome,
                 formatFileSize: nat -> string, ghost outcomes: seq<RowOutcome>,
                 images: seq<ProcessedImage>, errors: seq<string>, skipped: seq<string>)
    returns (ghost outcomes': seq<RowOutcome>,
             images': seq<ProcessedImage>, errors': seq<string>, skipped': seq<string>)
    requires i < |rows|
    requires outcomes == Outcomes(imageFiles, rows[..i], mode, decode, render, formatFileSize)
    requires images == ImagesOf(outcomes) && errors == ErrorsOf(outcomes)
    requires skipped == SkippedOf(outcomes)
    ensures outcomes' == Outcomes(imageFiles, rows[..i + 1], mode, decode, render, formatFileSize)
    ensures images' == ImagesOf(outcomes') && errors' == ErrorsOf(outcomes')
    ensures skipped' == SkippedOf(outcomes')
    ensures var row := ProcessRow(imageFiles, rows[i], mode, decode, render, formatFileSize);
      && images' == images + (if row.Skipped? then [] else [row.image])
      && skipped' == skipped + (if row.Skipped? then [row.filename] else [])
  {
    var outcome := ProcessRow(imageFiles, rows[i], mode, decode, render, formatFileSize);
    images', errors', skipped' := Tally(outcomes, outcome, images, errors, skipped);
    OutcomesNext(imageFiles, rows, mode, decode, render, formatFileSize, i);
    outcomes' := outcomes + [outcome];
  }

  /** The processor: its time estimator and the progress reports handed so far to the
      progress callback. */
  class ImageProcessor {
    const timeEstimator: TimeEstimator
    var progressLog: seq<ProcessingProgress>

    constructor()
      ensures fresh(timeEstimator) && progressLog == []
      ensures timeEstimator.Valid()
    {
      timeEstimator := new TimeEstimator();
      progressLog := [];
    }

    method UpdateProgress(message: string, current: nat, total: nat, percentage: int,
                          timeEstimate: Option<TimeEstimate>)
      modifies this
      ensures progressLog ==
        old(progressLog) + [ProcessingProgress("processing", current, total, percentage,
                                               message, timeEstimate)]
    {
      progressLog := progressLog + [ProcessingProgress("processing", current, total,
                                                       percentage, message, timeEstimate)];
    }

    /** The time estimator after `i` rows: started at the first clock reading, one
        recorded duration per row, the last completion at reading `2 * i`. */
    ghost predicate EstimatorAt(clock: nat -> int, i: nat)
      reads timeEstimator
    {
      && timeEstimator.startTime == clock(0) && timeEstimator.Valid()
      && timeEstimator.itemTimes == Durations(clock, i)
      && timeEstimator.lastItemTime == clock(2 * i)
    }

    /** The start of one pass of the row loop of `processImages`: the progress report
        for row `i` with the estimate before it. */
    method ReportRowStart(rows: seq<CsvRow>, i: nat, clock: nat -> int)
      returns (timeEstimate: TimeEstimate)
      requires i < |rows|
      requires timeEstimator.startTime == clock(0) && timeEstimator.itemTimes == Durations(clock, i)
      modifies this
      ensures timeEstimate == Estimate(clock(0), Durations(clock, i), i, |rows|, clock(2 * i + 1))
      ensures progressLog == old(progressLog) + [RowReport(rows, timeEstimate, i)]
    {
      var progress := RowProgress(i, |rows|);
      timeEstimate := timeEstimator.GetEstimate(i, |rows|, clock(2 * i + 1));
      UpdateProgress("Processing " + rows[i].filename + "...", i + 1, |rows|, progress,
                     Some(timeEstimate));
    }

    /** The end of one pass of the row loop: row `i` completes at clock reading
        `2 * i + 2`. */
    method CompleteRow(i: nat, clock: nat -> int)
      requires EstimatorAt(clock, i)
      modifies timeEstimator
      ensures EstimatorAt(clock, i + 1)
    {
      timeEstimator.RecordItemCompletion(clock(2 * i + 2));
      DurationsNext(clock, i);
      assert 2 * (i + 1) == 2 * i + 2;
    }

    /** The last report of `processImages`, with the estimate after all `n` rows. */
    method ReportCompletion(n: nat, clock: nat -> int)
      requires timeEstimator.startTime == clock(0) && timeEstimator.itemTimes == Durations(clock, n)
      modifies this
      ensures progressLog == old(progressLog) + [FinalReport(n, clock)]
    {
      var finalTimeEstimate := timeEstimator.GetEstimate(n, n, clock(2 * n + 1));
      UpdateProgress("Processing complete!", n, n, 100, Some(finalTimeEstimate));
    }

    /** One pass of the row loop of `processImages`: the progress report for row `i`,
        its outcome filed into the result lists, its completion recorded. */
    method RowPass(imageFiles: map<string, ZipEntry>, rows: seq<CsvRow>, i: nat, mode: ResizeMode,
                   decode: Blob -> Option<(Pixels, Pixels)>,
                   render: (Blob, Size) -> CanvasOutcome,
                   formatFileSize: nat -> string, clock: nat -> int,
                   ghost log0: seq<ProcessingProgress>, ghost outcomes: seq<RowOutcome>,
                   ghost estimates: seq<TimeEstimate>,
                   images: seq<ProcessedImage>, errors: seq<string>, skipped: seq<string>)
      returns (ghost outcomes': seq<RowOutcome>, ghost estimates': seq<TimeEstimate>,
               images': seq<ProcessedImage>, errors': seq<string>, skipped': seq<string>)
      requires i < |rows|
      requires outcomes == Outcomes(imageFiles, rows[..i], mode, decode, render, formatFileSize)
      requires images == ImagesOf(outcomes) && errors == ErrorsOf(outcomes)
      requires skipped == SkippedOf(outcomes)
      requires EstimatorAt(clock, i)
      requires estimates == RowEstimates(clock, |rows|, i)
      requires progressLog == log0 + RowReports(rows, estimates)
      modifies this, timeEstimator
      ensures outcomes' == Outcomes(imageFiles, rows[..i + 1], mode, decode, render, formatFileSize)
      ensures images' == ImagesOf(outcomes') && errors' == ErrorsOf(outcomes')
      ensures skipped' == SkippedOf(outcomes')
      ensures EstimatorAt(clock, i + 1)
      ensures estimates' == RowEstimates(clock, |rows|, i + 1)
      ensures progressLog == log0 + RowReports(rows, estimates')
    {
      var estimate := ReportRowStart(rows, i, clock);
      RowStartNext(log0, rows, clock, i, estimates, estimate);
      estimates' := estimates + [estimate];
      outcomes', images', errors', skipped' :=
        FileRow(imageFiles, rows, i, mode, decode, render, formatFileSize,
                outcomes, images, errors, skipped);
      CompleteRow(i, clock);
    }

    /** The row loop of `processImages`: each row's outcome filed into the result lists,
        with a progress report before it and its completion recorded after it. */
    method ProcessRows(imageFiles: map<string, ZipEntry>, rows: seq<CsvRow>, mode: ResizeMode,
                       decode: Blob -> Option<(Pixels, Pixels)>,
                       render: (Blob, Size) -> CanvasOutcome,
                       formatFileSize: nat -> string, clock: nat -> int)
      returns (images: seq<ProcessedImage>, errors: seq<string>, skipped: seq<string>)
      requires EstimatorAt(clock, 0)
      modifies this, timeEstimator
      ensures var outcomes := Outcomes(imageFiles, rows, mode, decode, render, formatFileSize);
        && images == ImagesOf(outcomes)
        && errors == ErrorsOf(outcomes)
        && skipped == SkippedOf(outcomes)
      ensures EstimatorAt(clock, |rows|)
      ensures progressLog == old(progressLog) + RowReports(rows, RowEstimates(clock, |rows|, |rows|))
    {
      ghost var outcomes: seq<RowOutcome> := [];
      ghost var log0 := progressLog;
      ghost var estimates: seq<TimeEstimate> := [];
      images, errors, skipped := [], [], [];
      for i := 0 to |rows|
        invariant outcomes == Outcomes(imageFiles, rows[..i], mode, decode, render, formatFileSize)
        invariant images == ImagesOf(outcomes)
        invariant errors == ErrorsOf(outcomes)
        invariant skipped == SkippedOf(outcomes)
        invariant EstimatorAt(clock, i)
        invariant estimates == RowEstimates(clock, |rows|, i)
        invariant progressLog == log0 + RowReports(rows, estimates)
      {
        outcomes, estimates, images, errors, skipped :=
          RowPass(imageFiles, rows, i, mode, decode, render, formatFileSize, clock,
                  log0, outcomes, estimates, images, errors, skipped);
      }
      assert rows[..|rows|] == rows;
    }

    /** `processImages`. `archive` is the loaded archive or the loading error, and
        `clock(k)` is the `k`-th clock reading of the run. */
    method ProcessImages(archive: Result<seq<ZipEntry>, string>, rows: seq<CsvRow>,
                         mode: ResizeMode, decode: Blob -> Option<(Pixels, Pixels)>,
                         render: (Blob, Size) -> CanvasOutcome,
                         formatFileSize: nat -> string, clock: nat -> int)
      returns (result: ProcessingResult)
      modifies this, timeEstimator
      ensures timeEstimator.startTime == clock(0) && timeEstimator.Valid()
      ensures archive.Failure? ==>
        && result == ProcessingResult(false, [], [ZipFailurePrefix + archive.error], [])
        && progressLog == old(progressLog) + StartReports(|rows|)[..1]
        && timeEstimator.itemTimes == []
      ensures archive.Success? ==>
        var outcomes := Outcomes(Index(archive.value), rows, mode, decode, render, formatFileSize);
        && result.processedImages == ImagesOf(outcomes)
        && result.errors == ErrorsOf(outcomes)
        && result.skippedFiles == SkippedOf(outcomes)
        && (result.success <==> SomeSuccess(result.processedImages))
        && timeEstimator.itemTimes == Durations(clock, |rows|)
        && progressLog == old(progressLog) + StartReports(|rows|) +
                          RowReports(rows, RowEstimates(clock, |rows|, |rows|)) + [FinalReport(|rows|, clock)]
    {
      result := ProcessingResult(false, [], [], []);
      timeEstimator.Start(clock(0));
      UpdateProgress("Extracting ZIP file...", 0, |rows|, 0, None);
      if archive.Failure? {
        result := result.(errors := result.errors + [ZipFailurePrefix + archive.error]);
        return;
      }
      var imageFiles := BuildIndex(archive.value);
      UpdateProgress("Found images in ZIP", 0, |rows|, 5, None);
      ghost var startLog := progressLog;
      assert startLog == old(progressLog) + StartReports(|rows|);
      var images, errors, skipped :=
        ProcessRows(imageFiles, rows, mode, decode, render, formatFileSize, clock);
      ReportCompletion(|rows|, clock);
      assert progressLog == startLog + RowReports(rows, RowEstimates(clock, |rows|, |rows|)) + [FinalReport(|rows|, clock)];
      var success := exists k | 0 <= k < |images| :: images[k].success;
      result := ProcessingResult(success, images, errors, skipped);
    }
  }

  /** After a successful load, every row yields exactly one entry or one skipped name,
      and the batch succeeds exactly when some row was resized. */
  lemma ProcessingAccountsForRows(archive: seq<ZipEntry>, rows: seq<CsvRow>, mode: ResizeMode,
                                  decode: Blob -> Option<(Pixels, Pixels)>,
                                  render: (Blob, Size) -> CanvasOutcome,
                                  formatFileSize: nat -> string)
    ensures var outcomes := Outcomes(Index(archive), rows, mode, decode, render, formatFileSize);
      && |ImagesOf(outcomes)| + |SkippedOf(outcomes)| == |rows|
      && (SomeSuccess(ImagesOf(outcomes)) <==> CountResized(outcomes) > 0)
  {
    var imageFiles := Index(archive);
    var outcomes := Outcomes(imageFiles, rows, mode, decode, render, formatFileSize);
    EveryRowAccountedFor(outcomes);
    forall k | 0 <= k < |outcomes|
      ensures Consistent(outcomes[k])
    {
      OutcomeOfRow(imageFiles, rows, mode, decode, render, formatFileSize, k);
    }
    SuccessIffSomeResized(outcomes);
  }
}
