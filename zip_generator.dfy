/** Packaging of a finished batch: the archive of resized images with its plain-text
    processing report, the progress reports made while building it, and the name
    offered for the download. */
module ZipGeneration {
  import opened Wrappers
  import opened Text
  import opened Types
  import opened ImageProcessing

  /** An entry of the archive being built: a folder, an image's bytes or a text file. */
  datatype ZipFile = Folder | Binary(bytes: Blob) | TextFile(content: string)

  /** What `updateProgress` hands to the progress callback. */
  datatype ZipGenerationProgress = ZipGenerationProgress(
    stage: string, current: nat, total: nat, percentage: int, message: string)

  /** The folder every image is written under, as the archive names it. */
  const ImagesFolder := "resized_images/"
  const ReportPath := "processing_report.txt"
  const NoImagesMessage := "No successfully processed images to download"
  const GenerateFailurePrefix := "Failed to generate ZIP file: "
  const UnknownError := "Unknown error"

  // ---------------------------------------------------------------- filtering

  /** `processedImages.filter((img) => img.success)`. */
  function SuccessfulImages(images: seq<ProcessedImage>): seq<ProcessedImage> {
    if images == [] then []
    else
      var last := images[|images| - 1];
      SuccessfulImages(images[..|images| - 1]) + if last.success then [last] else []
  }

  /** `processedImages.filter((img) => !img.success)`. */
  function FailedImages(images: seq<ProcessedImage>): seq<ProcessedImage> {
    if images == [] then []
    else
      var last := images[|images| - 1];
      FailedImages(images[..|images| - 1]) + if last.success then [] else [last]
  }

  /** The filters keep exactly the images with the right flag, and every image passes
      exactly one of them. */
  lemma {:induction false} FilterFacts(images: seq<ProcessedImage>)
    ensures forall x :: x in SuccessfulImages(images) <==> x in images && x.success
    ensures forall x :: x in FailedImages(images) <==> x in images && !x.success
    ensures |SuccessfulImages(images)| + |FailedImages(images)| == |images|
  {
    if images != [] {
      var init := images[..|images| - 1];
      FilterFacts(init);
      assert images == init + [images[|images| - 1]];
    }
  }

  // ---------------------------------------------------------------- the report

  const Title := "Image Resizing Processing Report\n"

  /** The summary the report opens with: title, date, the four counts, and the heading
      of the list of successful images. */
  function SummaryText(result: ProcessingResult, timestamp: string): string {
    Title + SummaryBody(result, timestamp)
  }

  function SummaryBody(result: ProcessingResult, timestamp: string): string {
    var images := result.processedImages;
    "Generated: " + timestamp +
    "\n\nSUMMARY:\n========\nTotal Images Processed: " + NatToString(|images|) +
    "\nSuccessfully Resized: " + NatToString(|SuccessfulImages(images)|) +
    "\nFailed: " + NatToString(|FailedImages(images)|) +
    "\nSkipped (Not Found): " + NatToString(|result.skippedFiles|) +
    "\n\nSUCCESSFULLY PROCESSED IMAGES:\n==============================\n"
  }

  function SuccessEntry(image: ProcessedImage, formatFileSize: nat -> string): string {
    "✓ " + image.filename +
    "\n  Original Size: " + NatToString(image.originalSize.width) + " × " +
    NatToString(image.originalSize.height) +
    " px\n  Resized To: " + NatToString(image.targetSize.width) + " × " +
    NatToString(image.targetSize.height) +
    " px (300 DPI)\n  File Size: " + formatFileSize(|image.blob|) + "\n\n"
  }

  /** `report` after appending the entry of each image in turn. */
  function AddSuccessEntries(report: string, images: seq<ProcessedImage>,
                             formatFileSize: nat -> string): (r: string)
    ensures StartsWith(r, report)
  {
    if images == [] then report
    else
      AddSuccessEntries(report, images[..|images| - 1], formatFileSize) +
      SuccessEntry(images[|images| - 1], formatFileSize)
  }

  const FailedHeading := "FAILED IMAGES:\n==============\n"

  /** `img.error || "Unknown error"`: a missing or empty message prints as unknown. */
  function ErrorText(error: Option<string>): (text: string)
    ensures error.Some? && error.value != "" ==> text == error.value
    ensures error.None? || error.value == "" ==> text == UnknownError
  {
    if error.Some? && error.value != "" then error.value else UnknownError
  }

  function FailedEntry(image: ProcessedImage): string {
    "✗ " + image.filename + "\n  Error: " + ErrorText(image.error) + "\n\n"
  }

  /** `report` after appending the entry of each failed image in turn. */
  function AddFailedEntries(report: string, images: seq<ProcessedImage>): (r: string)
    ensures StartsWith(r, report)
  {
    if images == [] then report
    else AddFailedEntries(report, images[..|images| - 1]) + FailedEntry(images[|images| - 1])
  }

  /** The failed-images section, present only when some image failed. */
  function WithFailedSection(report: string, failed: seq<ProcessedImage>): (r: string)
    ensures StartsWith(r, report)
    ensures |failed| > 0 ==> OccursAt(r, FailedHeading, |report|)
    ensures |failed| > 0 ==> Contains(r, FailedHeading)
    ensures |failed| == 0 ==> r == report
  {
    if |failed| > 0 then
      var r := AddFailedEntries(report + FailedHeading, failed);
      ContainsAt(r, FailedHeading, |report|);
      r
    else report
  }

  const SkippedHeading := "SKIPPED FILES (NOT FOUND IN ZIP):\n==================================\n"

  function SkippedLine(filename: string): string {
    "- " + filename + "\n"
  }

  /** `report` after appending the line of each skipped name in turn. */
  function AddSkippedLines(report: string, files: seq<string>): (r: string)
    ensures StartsWith(r, report)
  {
    if files == [] then report
    else AddSkippedLines(report, files[..|files| - 1]) + SkippedLine(files[|files| - 1])
  }

  /** The skipped-files section, present only when some name was not in the archive. */
  function WithSkippedSection(report: string, files: seq<string>): (r: string)
    ensures StartsWith(r, report)
    ensures |files| > 0 ==> OccursAt(r, SkippedHeading, |report|)
    ensures |files| > 0 ==> Contains(r, SkippedHeading)
    ensures |files| == 0 ==> r == report
  {
    if |files| > 0 then
      var r := AddSkippedLines(report + SkippedHeading, files);
      ContainsAt(r, SkippedHeading, |report|);
      r
    else report
  }

  const ErrorsHeading := "\nPROCESSING ERRORS:\n==================\n"

  /** The `number`-th line of the error list. */
  function NumberedLine(number: nat, error: string): string {
    NatToString(number) + ". " + error + "\n"
  }

  /** `report` after appending the numbered line of each error in turn. */
  function AddErrorLines(report: string, errors: seq<string>): (r: string)
    ensures StartsWith(r, report)
  {
    if errors == [] then report
    else AddErrorLines(report, errors[..|errors| - 1]) + NumberedLine(|errors|, errors[|errors| - 1])
  }

  /** The processing-errors section, present only when the run recorded errors. */
  function WithErrorsSection(report: string, errors: seq<string>): (r: string)
    ensures StartsWith(r, report)
    ensures |errors| > 0 ==> OccursAt(r, ErrorsHeading, |report|)
    ensures |errors| > 0 ==> Contains(r, ErrorsHeading)
    ensures |errors| == 0 ==> r == report
  {
    if |errors| > 0 then
      var r := AddErrorLines(report + ErrorsHeading, errors);
      ContainsAt(r, ErrorsHeading, |report|);
      r
    else report
  }

  const Footer := "\nTECHNICAL DETAILS:\n==================\n" +
    "- All images resized to 300 DPI\n- Output format: JPEG (95% quality)\n" +
    "- Compression: High-quality image smoothing enabled\n" +
    "- Processing method: HTML5 Canvas with bicubic interpolation\n\n" +
    "For support or questions, please contact your system administrator.\n"

  /** The report after its first `steps` steps: the summary (0), then the entries of the
      successful images (1), the failed-images section (2), the skipped-files section
      (3), the processing-errors section (4) and the technical footer (5). */
  function ReportSteps(steps: nat, result: ProcessingResult, timestamp: string,
                       formatFileSize: nat -> string): string
    requires steps <= 5
  {
    var images := result.processedImages;
    if steps == 0 then SummaryText(result, timestamp)
    else
      var before := ReportSteps(steps - 1, result, timestamp, formatFileSize);
      if steps == 1 then AddSuccessEntries(before, SuccessfulImages(images), formatFileSize)
      else if steps == 2 then WithFailedSection(before, FailedImages(images))
      else if steps == 3 then WithSkippedSection(before, result.skippedFiles)
      else if steps == 4 then WithErrorsSection(before, result.errors)
      else before + Footer
  }

  /** The whole report: the summary and the successful images always, the failed
      images, the skipped names and the numbered errors only when there are any, and
      the technical footer last. */
  function Report(result: ProcessingResult, timestamp: string,
                  formatFileSize: nat -> string): string {
    ReportSteps(5, result, timestamp, formatFileSize)
  }

  lemma PrefixTransitive(a: string, b: string, c: string)
    requires StartsWith(a, b) && StartsWith(b, c)
    ensures StartsWith(a, c)
  {
    assert a[..|c|] == a[..|b|][..|c|];
  }

  lemma OccursInExtension(s: string, t: string, sub: string, i: nat)
    requires OccursAt(s, sub, i) && StartsWith(t, s)
    ensures OccursAt(t, sub, i)
  {
    assert t[i..i + |sub|] == t[..|s|][i..i + |sub|];
  }

  /** The report begins with its title: every step only appends to the one before. */
  lemma {:induction false} ReportTitle(steps: nat, result: ProcessingResult, timestamp: string,
                                       formatFileSize: nat -> string)
    requires steps <= 5
    ensures StartsWith(ReportSteps(steps, result, timestamp, formatFileSize), Title)
  {
    if steps > 0 {
      var before := ReportSteps(steps - 1, result, timestamp, formatFileSize);
      var after := ReportSteps(steps, result, timestamp, formatFileSize);
      ReportTitle(steps - 1, result, timestamp, formatFileSize);
      assert StartsWith(after, before);
      PrefixTransitive(after, before, Title);
    }
  }

  lemma ContainsInExtension(s: string, t: string, sub: string)
    requires Contains(s, sub) && StartsWith(t, s)
    ensures Contains(t, sub)
  {
    var i: nat :| i <= |s| && OccursAt(s, sub, i);
    OccursInExtension(s, t, sub, i);
    ContainsAt(t, sub, i);
  }

  /** The report ends with the technical footer. */
  lemma ReportFooter(result: ProcessingResult, timestamp: string, formatFileSize: nat -> string)
    ensures EndsWith(Report(result, timestamp, formatFileSize), Footer)
  {
    var withErrors := ReportSteps(4, result, timestamp, formatFileSize);
    var report := Report(result, timestamp, formatFileSize);
    assert report == withErrors + Footer;
    assert report[|withErrors|..] == Footer;
  }

  /** Each optional section of the report is present when its list is non-empty. */
  lemma ReportSections(result: ProcessingResult, timestamp: string, formatFileSize: nat -> string)
    ensures var report := Report(result, timestamp, formatFileSize);
      && (|FailedImages(result.processedImages)| > 0 ==> Contains(report, FailedHeading))
      && (|result.skippedFiles| > 0 ==> Contains(report, SkippedHeading))
      && (|result.errors| > 0 ==> Contains(report, ErrorsHeading))
  {
    var withFailed := ReportSteps(2, result, timestamp, formatFileSize);
    var withSkipped := ReportSteps(3, result, timestamp, formatFileSize);
    var withErrors := ReportSteps(4, result, timestamp, formatFileSize);
    var report := Report(result, timestamp, formatFileSize);
    assert StartsWith(report, withErrors);
    PrefixTransitive(report, withErrors, withSkipped);
    PrefixTransitive(report, withSkipped, withFailed);
    if |FailedImages(result.processedImages)| > 0 {
      ContainsInExtension(withFailed, report, FailedHeading);
    }
    if |result.skippedFiles| > 0 {
      ContainsInExtension(withSkipped, report, SkippedHeading);
    }
    if |result.errors| > 0 {
      ContainsInExtension(withErrors, report, ErrorsHeading);
    }
  }

  /** The error list is the errors in order, the `k`-th (from zero) numbered `k + 1`:
      its line starts right after the text before it. */
  lemma {:induction false} ErrorNumbering(report: string, errors: seq<string>, k: nat)
    requires k < |errors|
    ensures OccursAt(AddErrorLines(report, errors), NumberedLine(k + 1, errors[k]),
                     |AddErrorLines(report, errors[..k])|)
  {
    var init := errors[..|errors| - 1];
    var line := NumberedLine(k + 1, errors[k]);
    var whole := AddErrorLines(report, errors);
    if k == |errors| - 1 {
      assert errors[..k] == init;
      assert whole == AddErrorLines(report, init) + line;
    } else {
      ErrorNumbering(report, init, k);
      assert init[..k] == errors[..k];
      assert init[k] == errors[k];
      OccursInExtension(AddErrorLines(report, init), whole, line, |AddErrorLines(report, errors[..k])|);
    }
  }

  /** A failed image with no message, or an empty one, is listed as an unknown error. */
  lemma UnknownErrorListed(image: ProcessedImage)
    requires image.error.None? || image.error.value == ""
    ensures FailedEntry(image) == "✗ " + image.filename + "\n  Error: Unknown error\n\n"
  {
  }

  // ---------------------------------------------------------------- the archive

  /** The entries after writing `images` in order over `base`: each image under the
      images folder by its file name, a later image replacing an earlier one. */
  function AddImages(base: map<string, ZipFile>, images: seq<ProcessedImage>): map<string, ZipFile> {
    if images == [] then base
    else
      var last := images[|images| - 1];
      AddImages(base, images[..|images| - 1])[ImagesFolder + last.filename := Binary(last.blob)]
  }

  /** The archive `generateZip` packs: the folder, the successful images, the report. */
  function ArchiveFor(images: seq<ProcessedImage>, report: string): map<string, ZipFile> {
    AddImages(map[ImagesFolder := Folder], images)[ReportPath := TextFile(report)]
  }

  /** The image `images[j]` is the last one named `name`. */
  predicate LastNamed(images: seq<ProcessedImage>, j: nat, name: string) {
    j < |images| && images[j].filename == name &&
    forall i :: j < i < |images| ==> images[i].filename != name
  }

  lemma FolderPathsDiffer(a: string, b: string)
    requires ImagesFolder + a == ImagesFolder + b
    ensures a == b
  {
    assert a == (ImagesFolder + a)[|ImagesFolder|..];
    assert b == (ImagesFolder + b)[|ImagesFolder|..];
  }

  /** Writing images adds exactly their paths. */
  lemma {:induction false} AddImagesKeys(base: map<string, ZipFile>, images: seq<ProcessedImage>,
                                         name: string)
    ensures ImagesFolder + name in AddImages(base, images) <==>
      ImagesFolder + name in base || exists i :: 0 <= i < |images| && images[i].filename == name
  {
    if images != [] {
      var n := |images| - 1;
      var init := images[..n];
      AddImagesKeys(base, init, name);
      if images[n].filename != name {
        if ImagesFolder + images[n].filename == ImagesFolder + name {
          FolderPathsDiffer(images[n].filename, name);
        }
        if exists i :: 0 <= i < |images| && images[i].filename == name {
          var i :| 0 <= i < |images| && images[i].filename == name;
          assert init[i].filename == name;
        }
        if exists i :: 0 <= i < |init| && init[i].filename == name {
          var i :| 0 <= i < |init| && init[i].filename == name;
          assert images[i].filename == name;
        }
      }
    }
  }

  /** The entry at an image's path holds the bytes of the last image with that name. */
  lemma {:induction false} AddImagesLastWins(base: map<string, ZipFile>,
                                             images: seq<ProcessedImage>, j: nat, name: string)
    requires LastNamed(images, j, name)
    ensures ImagesFolder + name in AddImages(base, images)
    ensures AddImages(base, images)[ImagesFolder + name] == Binary(images[j].blob)
  {
    var n := |images| - 1;
    var init := images[..n];
    if j < n {
      assert LastNamed(init, j, name);
      AddImagesLastWins(base, init, j, name);
      if ImagesFolder + images[n].filename == ImagesFolder + name {
        FolderPathsDiffer(images[n].filename, name);
      }
    }
  }

  /** Writing images adds nothing outside the images folder. */
  lemma {:induction false} AddImagesPaths(base: map<string, ZipFile>, images: seq<ProcessedImage>)
    ensures forall p :: p in AddImages(base, images) ==> p in base || StartsWith(p, ImagesFolder)
  {
    if images != [] {
      AddImagesPaths(base, images[..|images| - 1]);
    }
  }

  /** Every path the archive holds is the report, the images folder or the path of a
      successful image; each successful image is there, holding the bytes of the last
      successful image with its name; and the report sits at the root. */
  lemma ArchiveContents(images: seq<ProcessedImage>, report: string, name: string)
    ensures var archive := ArchiveFor(images, report);
      && archive[ReportPath] == TextFile(report)
      && ImagesFolder in archive
      && (forall p :: p in archive ==> p == ReportPath || StartsWith(p, ImagesFolder))
      && (ImagesFolder + name in archive <==>
          name == "" || exists i :: 0 <= i < |images| && images[i].filename == name)
      && forall j: nat :: LastNamed(images, j, name) ==>
           archive[ImagesFolder + name] == Binary(images[j].blob)
  {
    var base := map[ImagesFolder := Folder];
    AddImagesKeys(base, images, name);
    AddImagesKeys(base, images, "");
    AddImagesPaths(base, images);
    assert ReportPath[0] != (ImagesFolder + name)[0];
    forall j: nat | LastNamed(images, j, name)
      ensures ArchiveFor(images, report)[ImagesFolder + name] == Binary(images[j].blob)
    {
      AddImagesLastWins(base, images, j, name);
    }
    assert ImagesFolder + "" == ImagesFolder;
    if ImagesFolder + name in base {
      FolderPathsDiffer(name, "");
    }
  }

  /** Of the processed images, exactly the successful ones get a path in the archive:
      a failed image is written only if a successful one has the same name. */
  lemma OnlySuccessfulImagesWritten(processed: seq<ProcessedImage>, report: string, name: string)
    requires name != ""
    ensures ImagesFolder + name in ArchiveFor(SuccessfulImages(processed), report) <==>
      exists x :: x in processed && x.success && x.filename == name
  {
    var images := SuccessfulImages(processed);
    ArchiveContents(images, report, name);
    FilterFacts(processed);
    if exists x :: x in processed && x.success && x.filename == name {
      var x :| x in processed && x.success && x.filename == name;
      var i :| 0 <= i < |images| && images[i] == x;
    }
  }

  // ---------------------------------------------------------------- progress

  /** `Math.round(((i + 1) / n) * 70)`, the report made while adding image `i`. */
  function AddingProgress(i: nat, n: nat): int
    requires i < n
  {
    Round((i + 1) as real / n as real * 70.0)
  }

  /** The per-image percentages stay within 0 to 70, never go down, and reach 70 with
      the last image. */
  lemma AddingProgressSchedule(i: nat, j: nat, n: nat)
    requires i <= j < n
    ensures 0 <= AddingProgress(i, n) <= AddingProgress(j, n) <= 70
    ensures AddingProgress(n - 1, n) == 70
  {
    var x := (i + 1) as real / n as real;
    var y := (j + 1) as real / n as real;
    QuotientOrder((i + 1) as real, (j + 1) as real, n as real);
    QuotientOrder((j + 1) as real, n as real, n as real);
    assert n as real / n as real == 1.0;
    assert AddingProgress(i, n) == Round(x * 70.0);
    assert AddingProgress(j, n) == Round(y * 70.0);
    assert AddingProgress(n - 1, n) == Round(1.0 * 70.0);
    RoundMonotone(x * 70.0, y * 70.0);
    RoundMonotone(0.0, x * 70.0);
    RoundMonotone(y * 70.0, 70.0);
  }

  lemma QuotientOrder(a: real, b: real, d: real)
    requires 0.0 <= a <= b && d > 0.0
    ensures 0.0 <= a / d <= b / d
  {
    var p, q := a / d, b / d;
    assert d * p == a;
    assert d * (q - p) == b - a;
  }

  function GeneratingReport(message: string, current: nat, total: nat, percentage: int)
    : ZipGenerationProgress
  {
    ZipGenerationProgress("generating", current, total, percentage, message)
  }

  /** The reports made while the first `i` images are written. */
  function AddingReports(images: seq<ProcessedImage>, i: nat): (r: seq<ZipGenerationProgress>)
    requires i <= |images|
    ensures |r| == i
  {
    if i == 0 then []
    else
      AddingReports(images, i - 1) +
      [GeneratingReport("Adding " + images[i - 1].filename + "...", i, |images|,
                        AddingProgress(i - 1, |images|))]
  }

  /** All reports of a run over the successful `images` whose packing succeeded or not. */
  function ZipReports(images: seq<ProcessedImage>, packed: bool): seq<ZipGenerationProgress> {
    var n := |images|;
    [GeneratingReport("Adding images to ZIP...", 0, n, 0)] + AddingReports(images, n) +
    [GeneratingReport("Generating processing report...", n, n, 75)] +
    [GeneratingReport("Finalizing ZIP file...", n, n, 90)] +
    if packed then [GeneratingReport("ZIP file ready for download!", n, n, 100)] else []
  }

  lemma AppendRegroup<T>(log: seq<T>, a: seq<T>, b: seq<T>, c: seq<T>, d: seq<T>, e: seq<T>)
    ensures log + (a + b + c + d + e) == log + a + b + c + d + e
  {
  }

  /** What `generateZip` yields for the packer's answer: the bytes, or the packer's
      message (unknown when the packer threw something other than an error) after the
      failure prefix. */
  function PackOutcome(packed: Result<Blob, Option<string>>): (r: Result<Blob, string>)
    ensures packed.Success? <==> r.Success?
    ensures packed.Success? ==> r.value == packed.value
    ensures packed.Failure? ==> StartsWith(r.error, GenerateFailurePrefix)
  {
    match packed
    case Success(bytes) => Success(bytes)
    case Failure(error) =>
      Failure(GenerateFailurePrefix + if error.Some? then error.value else UnknownError)
  }

  // ---------------------------------------------------------------- the generator

  /** The generator: the progress reports handed so far to the progress callback. */
  class ZipGenerator {
    var progressLog: seq<ZipGenerationProgress>

    constructor()
      ensures progressLog == []
    {
      progressLog := [];
    }

    method UpdateProgress(message: string, current: nat, total: nat, percentage: int)
      modifies this
      ensures progressLog == old(progressLog) + [GeneratingReport(message, current, total, percentage)]
    {
      progressLog := progressLog + [GeneratingReport(message, current, total, percentage)];
    }

    /** `generateProcessingReport`, with `timestamp` the local date text of the run. */
    method GenerateProcessingReport(result: ProcessingResult, timestamp: string,
                                    formatFileSize: nat -> string)
      returns (report: string)
      ensures report == Report(result, timestamp, formatFileSize)
    {
      var images := result.processedImages;
      report := SummaryText(result, timestamp);
      assert report == ReportSteps(0, result, timestamp, formatFileSize);
      report := AppendSuccessEntries(report, SuccessfulImages(images), formatFileSize);
      assert report == ReportSteps(1, result, timestamp, formatFileSize);
      report := AppendFailedSection(report, FailedImages(images));
      assert report == ReportSteps(2, result, timestamp, formatFileSize);
      report := AppendSkippedSection(report, result.skippedFiles);
      assert report == ReportSteps(3, result, timestamp, formatFileSize);
      report := AppendErrorsSection(report, result.errors);
      assert report == ReportSteps(4, result, timestamp, formatFileSize);
      report := report + Footer;
    }

    /** The entry of each successful image, appended in turn. */
    static method AppendSuccessEntries(report: string, succeeded: seq<ProcessedImage>,
                                       formatFileSize: nat -> string)
      returns (r: string)
      ensures r == AddSuccessEntries(report, succeeded, formatFileSize)
    {
      r := report;
      for i := 0 to |succeeded|
        invariant r == AddSuccessEntries(report, succeeded[..i], formatFileSize)
      {
        assert succeeded[..i + 1][..i] == succeeded[..i];
        r := r + SuccessEntry(succeeded[i], formatFileSize);
      }
      assert succeeded[..|succeeded|] == succeeded;
    }

    /** The failed-images heading and the entry of each failed image, when there are any. */
    static method AppendFailedSection(report: string, failed: seq<ProcessedImage>)
      returns (r: string)
      ensures r == WithFailedSection(report, failed)
    {
      r := report;
      if |failed| > 0 {
        r := r + FailedHeading;
        for i := 0 to |failed|
          invariant r == AddFailedEntries(report + FailedHeading, failed[..i])
        {
          assert failed[..i + 1][..i] == failed[..i];
          r := r + FailedEntry(failed[i]);
        }
        assert failed[..|failed|] == failed;
      }
    }

    /** The skipped-files heading and a line per skipped name, when there are any. */
    static method AppendSkippedSection(report: string, skipped: seq<string>)
      returns (r: string)
      ensures r == WithSkippedSection(report, skipped)
    {
      r := report;
      if |skipped| > 0 {
        r := r + SkippedHeading;
        for i := 0 to |skipped|
          invariant r == AddSkippedLines(report + SkippedHeading, skipped[..i])
        {
          assert skipped[..i + 1][..i] == skipped[..i];
          r := r + SkippedLine(skipped[i]);
        }
        assert skipped[..|skipped|] == skipped;
      }
    }

    /** The processing-errors heading and the numbered errors, when there are any. */
    static method AppendErrorsSection(report: string, errors: seq<string>)
      returns (r: string)
      ensures r == WithErrorsSection(report, errors)
    {
      r := report;
      if |errors| > 0 {
        r := r + ErrorsHeading;
        for i := 0 to |errors|
          invariant r == AddErrorLines(report + ErrorsHeading, errors[..i])
        {
          assert errors[..i + 1][..i] == errors[..i];
          r := r + NumberedLine(i + 1, errors[i]);
        }
        assert errors[..|errors|] == errors;
      }
    }

    /** Stage 1 of `generateZip`: each image written under the images folder, with a
        progress report before each. */
    method AddImagesToZip(successfulImages: seq<ProcessedImage>)
      returns (zip: map<string, ZipFile>)
      modifies this
      ensures zip == AddImages(map[ImagesFolder := Folder], successfulImages)
      ensures progressLog == old(progressLog) + AddingReports(successfulImages, |successfulImages|)
    {
      var n := |successfulImages|;
      zip := map[ImagesFolder := Folder];
      for i := 0 to n
        invariant zip == AddImages(map[ImagesFolder := Folder], successfulImages[..i])
        invariant progressLog == old(progressLog) + AddingReports(successfulImages, i)
      {
        var image := successfulImages[i];
        UpdateProgress("Adding " + image.filename + "...", i + 1, n,
                       Round((i + 1) as real / n as real * 70.0));
        assert successfulImages[..i + 1][..i] == successfulImages[..i];
        zip := zip[ImagesFolder + image.filename := Binary(image.blob)];
      }
      assert successfulImages[..n] == successfulImages;
    }

    /** `generateZip`. `timestamp` is the report's date text and `pack` stands for the
        archive library's packing step: the archive's bytes, or the message of what it
        threw (none when that was not an error object). */
    method GenerateZip(processingResult: ProcessingResult, timestamp: string,
                       formatFileSize: nat -> string,
                       pack: map<string, ZipFile> -> Result<Blob, Option<string>>)
      returns (r: Result<Blob, string>)
      modifies this
      ensures var images := SuccessfulImages(processingResult.processedImages);
        images == [] ==> r == Failure(NoImagesMessage) && progressLog == old(progressLog)
      ensures var images := SuccessfulImages(processingResult.processedImages);
        var archive := ArchiveFor(images, Report(processingResult, timestamp, formatFileSize));
        images != [] ==>
          && r == PackOutcome(pack(archive))
          && progressLog == old(progressLog) + ZipReports(images, r.Success?)
    {
      var successfulImages := SuccessfulImages(processingResult.processedImages);
      if |successfulImages| == 0 {
        return Failure(NoImagesMessage);
      }
      var n := |successfulImages|;
      ghost var log0 := progressLog;
      UpdateProgress("Adding images to ZIP...", 0, n, 0);
      var zip := AddImagesToZip(successfulImages);

      UpdateProgress("Generating processing report...", n, n, 75);
      var report := GenerateProcessingReport(processingResult, timestamp, formatFileSize);
      zip := zip[ReportPath := TextFile(report)];
      UpdateProgress("Finalizing ZIP file...", n, n, 90);
      assert zip == ArchiveFor(successfulImages, report);
      ghost var stages := [GeneratingReport("Adding images to ZIP...", 0, n, 0)];
      ghost var adding := AddingReports(successfulImages, n);
      ghost var reporting := [GeneratingReport("Generating processing report...", n, n, 75)];
      ghost var finalizing := [GeneratingReport("Finalizing ZIP file...", n, n, 90)];

      match pack(zip)
      case Success(zipBlob) =>
        UpdateProgress("ZIP file ready for download!", n, n, 100);
        r := Success(zipBlob);
        AppendRegroup(log0, stages, adding, reporting, finalizing,
                      [GeneratingReport("ZIP file ready for download!", n, n, 100)]);
      case Failure(error) =>
        AppendRegroup(log0, stages, adding, reporting, finalizing, []);
        r := Failure(GenerateFailurePrefix + if error.Some? then error.value else UnknownError);
    }
  }

  // ---------------------------------------------------------------- download name

  /** `.replace(/[:.]/g, "-")`. */
  function DashSeparators(s: string): (r: string)
    ensures |r| == |s|
    ensures forall i :: 0 <= i < |s| ==>
      r[i] == (if s[i] == ':' || s[i] == '.' then '-' else s[i])
  {
    if s == [] then ""
    else DashSeparators(s[..|s| - 1]) + [if s[|s| - 1] in ":." then '-' else s[|s| - 1]]
  }

  /** `generateDownloadFilename`, with `iso` the ISO text of the current time. */
  function DownloadFilename(iso: string): string {
    var stamp := if |iso| <= 19 then iso else iso[..19];
    "resized_images_" + DashSeparators(stamp) + ".zip"
  }

  /** The name is the fixed prefix, at most 19 characters of the time with neither ':'
      nor '.', and the ".zip" extension. */
  lemma DownloadFilenameShape(iso: string)
    ensures var name := DownloadFilename(iso);
      && StartsWith(name, "resized_images_")
      && EndsWith(name, ".zip")
      && |name| <= 15 + 19 + 4
      && forall i :: 15 <= i < |name| - 4 ==> name[i] != ':' && name[i] != '.'
  {
    var stamp := if |iso| <= 19 then iso else iso[..19];
    var name := DownloadFilename(iso);
    assert name == "resized_images_" + DashSeparators(stamp) + ".zip";
    forall i | 15 <= i < |name| - 4
      ensures name[i] != ':' && name[i] != '.'
    {
      assert name[i] == DashSeparators(stamp)[i - 15];
    }
  }

  /** The ISO time "2024-01-15T10:30:45.123Z" names the download
      "resized_images_2024-01-15T10-30-45.zip". */
  lemma DownloadFilenameExample()
    ensures DownloadFilename("2024-01-15T10:30:45.123Z") ==
      "resized_images_" + "2024-01-15T10-30-45" + ".zip"
  {
    var stamp := "2024-01-15T10:30:45.123Z"[..19];
    assert stamp == "2024-01-15T10:30:45";
    assert DashSeparators(stamp) == "2024-01-15T10-30-45";
  }
}
