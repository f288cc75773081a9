# Batch image resize: a Dafny model

This project models the core of a browser tool that resizes a batch of images
for print. The user uploads two files:

- a ZIP archive of images;
- a CSV file that gives, for each image file name, a printed length and width
  in inches.

The tool then does the following:

1. It checks both uploads.
2. It validates the CSV rows.
3. It indexes the archive's images by lower-cased file name.
4. It resizes every listed image to its print size at 300 DPI. In the
   "constrained" mode it keeps the source aspect ratio instead.
5. It reports progress with a running time estimate.
6. It packs the resized images and a plain-text processing report into a new
   archive with a time-stamped download name.

The model has one module per source file, plus three helper modules:

| Module | Role |
|---|---|
| `Wrappers` | `Option` and `Result` |
| `Text` | lower-casing, trimming, prefix and suffix tests, decimal digits |
| `Types` | the shared row record, the image-extension test, `Math.round` |
| `FileValidation` | the upload and image-size checks (pure functions) |
| `CsvParser` | `validateAndProcessCSV`: its loops as methods, checked against specification functions |
| `TimeEstimation` | the `TimeEstimator` class and the duration formatters |
| `ImageProcessing` | the `ImageProcessor` class |
| `ZipGeneration` | the `ZipGenerator` class and the download name |

**How the layers are proved.**

- `FileValidation` is pure functions, as in the source.
- Each module that updates state is a Dafny `class`:
  - its fields are the fields the source updates;
  - the progress callback becomes a `progressLog` sequence that the methods extend.
- Every loop of the source is a method with a `for` loop. The method is proved
  equal to a specification function: `Index`, `Outcomes`, `KeptRows`,
  `Duplicates`, `Report` or `AddImages`.
- Lemmas prove the source's promises about those functions.

**What the model receives as inputs.** The model does not decode images, call a
clock or format floating-point numbers. These are parameters:

- the image decoder and the canvas (`decode`, `render`);
- the archive packer (`pack`);
- JavaScript's `parseFloat` and number-to-text conversion;
- the `formatFileSize` formatter;
- the clock, as a sequence of readings `clock(k)`;
- the report's date text and the ISO time of the download name.

For one batch, the clock readings are used in this order:

- `clock(0)` starts the estimator;
- `clock(2k+1)` is read for the estimate shown before row `k`;
- `clock(2k+2)` is read when row `k` completes.

**Where the code differs from what the page promises.** In "brand" mode the
upload page (`src/App.tsx:196` and `src/App.tsx:289-295`) asks for a CSV with
four columns: product name, length, width and image variant. The variant must be
one of "Original", "Full Black" or "Full White". `src/utils/csvParser.ts` has no
brand mode. It reads the first three columns of every row as file name, length
and width, and ignores any fourth column. `src/utils/imageProcessor.ts` treats
"brand" like any mode other than "constrained" and keeps the exact size. The
model follows the code (`ResizeMode.Brand`).

**How closely constrained mode keeps the aspect ratio.** The ratio of the target
is not always close to the source's ratio. For example, a 1000 × 100 source
with base 105 gives a 105 × 11 target, whose ratio is about 9.55 instead of 10.
What the code does guarantee is stated by `ImageProcessing.ConstrainedWithinBase`:
the side that follows the ratio is within half a pixel of its exact value,
unless it was raised to 1.

## Model

| member | source | states |
|---|---|---|
| FileValidation.ValidateZipFile | src/utils/fileValidation.ts:8-24 | The archive is valid exactly when its lower-cased name ends in ".zip" and its size is between 1 byte and 100 MiB. Otherwise the error is the one for the first failing test: wrong extension, then too large, then empty. An error is present exactly when the archive is invalid. |
| FileValidation.ValidateCsvFile | src/utils/fileValidation.ts:26-42 | The same chain for ".csv" and the 10 MiB limit, each failure with its own message. |
| FileValidation.ValidateImageSize | src/utils/fileValidation.ts:44-52 | An image is valid exactly when it has at most 5 MiB. Otherwise the message names the file and shows its size and the limit through the size formatter. |
| FileValidation.ImageLimitBoundary | src/utils/fileValidation.ts:6 | The limit is inclusive: 5242880 bytes pass and 5242881 bytes fail. |
| FileValidation.ExtensionCaseInsensitive | src/utils/fileValidation.ts:9-10 | Both checks give the same verdict for a name and its lower-cased form, so "PHOTOS.ZIP" is accepted. |
| FileValidation.ZipAndCsvExclusive | src/utils/fileValidation.ts:8-42 | No upload passes both the archive check and the CSV check. |
| Types.Round | src/utils/imageProcessor.ts:151-152 | `Math.round` is within half of its argument, with halves rounded up. |
| Types.RoundMonotone | src/utils/imageProcessor.ts:76 | Rounding never reverses an order. |
| CsvParser.RowMessage | src/utils/csvParser.ts:73-114 | Every row error and row warning starts with "Row n: ", where n is the row's 1-based number. |
| CsvParser.HeaderExamples | src/utils/csvParser.ts:53-65 | The header "filename, length, width" is detected. The data row "photo1.jpg, 8.5, 11" is not. |
| CsvParser.CellsError | src/utils/csvParser.ts:81-114 | The error for trimmed cells that fail a check is labelled with the row's number. |
| CsvParser.RowError | src/utils/csvParser.ts:73-114 | The error that drops a row, including the missing-columns error, is labelled with the row's number. |
| CsvParser.CellsWarnings | src/utils/csvParser.ts:81-114 | A row gets at most three warnings, and none when the file name is empty. A name without an image extension is warned about first. A length that fails its check stops every later warning, leaving at most the extension warning. A width that fails its check leaves only the extension warning and the large-length warning, each when its condition holds. |
| CsvParser.RowWarnings | src/utils/csvParser.ts:73-114 | A row gets at most three warnings, and none when it has fewer than three cells. |
| CsvParser.WarningsKeepRow | src/utils/csvParser.ts:86-121 | Warnings never drop a row. An acceptable row gets exactly one warning per condition it meets: no image extension, length over 100, width over 100. |
| CsvParser.ExtensionWarningSurvivesDrop | src/utils/csvParser.ts:86-103 | A row with a non-image name and a bad length is dropped with the length error, and still keeps the extension warning issued before that check. |
| CsvParser.EveryRowKeptOrReported | src/utils/csvParser.ts:68-122 | Every examined row is either kept or reported by exactly one error, never both. As many rows are kept as are acceptable, and there is one error for each other row. |
| CsvParser.KeptRowsComeFromAcceptableRows | src/utils/csvParser.ts:68-122 | Every kept record is the record (trimmed name, parsed length and width) of some acceptable examined row. |
| CsvParser.AcceptableRowsAreKept | src/utils/csvParser.ts:68-122 | The record of every acceptable examined row is kept. |
| CsvParser.KeptRowsStep | src/utils/csvParser.ts:117-121 | One more examined row adds its own record, if it has one, to the records kept before it. |
| CsvParser.KeptRowsAreClean | src/utils/csvParser.ts:78-84 | Every kept file name is non-empty and starts and ends with a non-space character. |
| CsvParser.DuplicatesAreRepeatedNames | src/utils/csvParser.ts:125-138 | The duplicate list names exactly the file names that occur twice or more among the kept rows (compared exactly), each of them once. |
| CsvParser.DuplicatesNext | src/utils/csvParser.ts:127-134 | Each kept row adds its name to the seen names. A name already seen that is not yet listed is appended to the duplicates. |
| CsvParser.FindDuplicateFilenames | src/utils/csvParser.ts:125-134 | The loop over a seen set and an insertion-ordered duplicate set computes exactly the repeated names, in the order their second occurrences appear. |
| CsvParser.CheckRow | src/utils/csvParser.ts:69-121 | One pass of the row loop keeps the row exactly when it is acceptable (three cells; non-empty trimmed name; positive length and width), and reports an error exactly otherwise. The record is the trimmed name with the parsed numbers. The error and warnings are the ones above. |
| CsvParser.CheckCells | src/utils/csvParser.ts:78-121 | The checks on the trimmed cells in the code's order, stopping at the first error: a row is kept exactly when its cells are acceptable. |
| CsvParser.CheckRows | src/utils/csvParser.ts:68-122 | The row loop yields the kept rows, the errors and the appended warnings of all rows from the first data row on, in input order. |
| CsvParser.CheckNextRow | src/utils/csvParser.ts:68-122 | One loop pass extends the lists for the earlier rows to the lists including row i. |
| CsvParser.ValidateAndProcessCsv | src/utils/csvParser.ts:38-146 | Empty input gives only "CSV file is empty". Otherwise the result holds: the kept rows; one error per dropped row; the header warning, then the row warnings in order, then one duplicate warning when names repeat. The result succeeds exactly when there are no errors. |
| TimeEstimation.RecentItems | src/utils/timeEstimator.ts:35 | `slice(-5)`: the last five durations, or all of them when there are fewer. |
| TimeEstimation.SumBounds | src/utils/timeEstimator.ts:35-36 | Element bounds bound the sum of the durations. |
| TimeEstimation.MeanBounds | src/utils/timeEstimator.ts:35-36 | The mean lies between any lower and upper bound of the durations. |
| TimeEstimation.AverageWithinRecentDurations | src/utils/timeEstimator.ts:32-43 | Once items are timed, the average per item lies between the shortest and the longest of the last five durations. |
| TimeEstimation.TimeEstimator.constructor | src/utils/timeEstimator.ts:9-12 | All three fields start at zero and empty, which is a consistent state. |
| TimeEstimation.TimeEstimator.Start | src/utils/timeEstimator.ts:14-18 | Start sets the start and last-completion times to now and clears the durations. |
| TimeEstimation.TimeEstimator.RecordItemCompletion | src/utils/timeEstimator.ts:20-25 | Recording appends the time since the previous completion and moves the last completion to now. It keeps the invariant that the durations add up to the time from the start to the last completion. |
| TimeEstimation.TimeEstimator.GetEstimate | src/utils/timeEstimator.ts:27-57 | The estimate only reads the state and is the model estimate of the current start time and durations. |
| TimeEstimation.TimeEstimator.Reset | src/utils/timeEstimator.ts:59-63 | Reset zeroes all three fields. |
| TimeEstimation.EstimateAtEnd | src/utils/timeEstimator.ts:45-56 | At the last item nothing remains: the total is the elapsed time, and the completion time is now. |
| TimeEstimation.AverageOfFewItems | src/utils/timeEstimator.ts:33-36 | With one to five items timed, the average is the whole time from the start to the last completion, spread evenly. |
| TimeEstimation.OldDurationsIgnored | src/utils/timeEstimator.ts:33-36 | With more than five items timed, the older durations have no influence on the average. |
| TimeEstimation.WholeSecondsOf | src/utils/timeEstimator.ts:71 | A duration within a given second floors to that second. |
| TimeEstimation.FormatTime | src/utils/timeEstimator.ts:66-70 | Under one second the text is "< 1s". |
| TimeEstimation.FormatTimeHours | src/utils/timeEstimator.ts:71-78 | From h hours and m minutes on (h at least 1), up to the next minute, the text is "{h}h {m}m". |
| TimeEstimation.FormatTimeMinutes | src/utils/timeEstimator.ts:71-81 | Under an hour, from m minutes and s seconds on (m at least 1), the text is "{m}m {s}s". |
| TimeEstimation.FormatTimeSeconds | src/utils/timeEstimator.ts:71-83 | Under a minute, from s seconds on (s at least 1), the text is "{s}s". |
| TimeEstimation.FormatTimeHourUnit | src/utils/timeEstimator.ts:66-84 | The long form shows an hour unit exactly from one hour on. |
| TimeEstimation.FormatTimeShort | src/utils/timeEstimator.ts:86-90 | Under one second the short form is "< 1s". |
| TimeEstimation.FormatTimeShortSeconds | src/utils/timeEstimator.ts:86-99 | Under a minute, from s seconds on (s at least 1), the short text is "{s}s". |
| TimeEstimation.FormatTimeShortMinutes | src/utils/timeEstimator.ts:86-99 | From m minutes and s seconds on (m at least 1, any size), the short text is "{m}m {s}s": minutes are never folded into hours. |
| TimeEstimation.FormatTimeShortHasNoHours | src/utils/timeEstimator.ts:86-99 | The short form never shows an hour unit. |
| ImageProcessing.LastSegment | src/utils/imageProcessor.ts:66 | The text after the last '/' of a path is a suffix of the path and contains no '/'. |
| ImageProcessing.BaseName | src/utils/imageProcessor.ts:66 | A path without '/' is its own base name, and the base name is empty only for the empty path. |
| ImageProcessing.IndexKeys | src/utils/imageProcessor.ts:62-69 | A key is in the index exactly when some kept entry has that key. |
| ImageProcessing.IndexHoldsLastEntry | src/utils/imageProcessor.ts:63-68 | A key maps to the last kept entry with that key: on a name collision, the later entry wins. |
| ImageProcessing.ArchiveIndex | src/utils/imageProcessor.ts:62-69 | A lower-cased name is in the archive index exactly when some image file (not a folder) has it as its lower-cased base name. It maps to the last such file in archive order. |
| ImageProcessing.BuildIndex | src/utils/imageProcessor.ts:62-69 | The `forEach` loop builds exactly the archive index. |
| ImageProcessing.ImageFileExamples | src/utils/imageProcessor.ts:228-232 | The extension test ignores case ("IMG_01.JPEG" is an image) and rejects other extensions ("notes.txt"). |
| ImageProcessing.CalculateImageDimensions | src/utils/imageProcessor.ts:254-260 | The pixel width follows the width in inches and the pixel height follows the length. Each is within half a pixel of the exact product with the DPI. The DPI is passed through. |
| ImageProcessing.RequestedSize | src/utils/imageProcessor.ts:150-152 | The requested size is the width and length at 300 DPI, each rounded. |
| ImageProcessing.AtLeastOne | src/utils/imageProcessor.ts:159-169 | `Math.max(1, x)` is x, or 1 when x is below 1. |
| ImageProcessing.ExactModeMatchesCalculation | src/utils/imageProcessor.ts:150-172 | Outside the constrained mode, the target size is the size `calculateImageDimensions` gives. |
| ImageProcessing.ExactSizeExample | src/utils/imageProcessor.ts:150-172 | An 8.5 × 11 inch row gives 2550 × 3300 pixels. |
| ImageProcessing.ExactSizeCanBeZero | src/utils/imageProcessor.ts:150-155 | The exact mode has no lower clamp: a width of 0.001 inch gives 0 pixels. |
| ImageProcessing.ConstrainedSizeFacts | src/utils/imageProcessor.ts:159-170 | For a base and an aspect ratio, both sides lie between 1 and the base. The width is the base for landscape or square, and the height for portrait. The other side is within half a pixel of the ratio unless raised to 1. |
| ImageProcessing.ConstrainedWithinBase | src/utils/imageProcessor.ts:157-171 | In constrained mode both sides lie between 1 and the smaller requested side (at least 1). The longer source side becomes exactly that base. The other side is within half a pixel of the base scaled by the source proportions, unless raised to 1. |
| ImageProcessing.FormatImageDimensions | src/utils/imageProcessor.ts:262-264 | The text starts with the width's digits. |
| ImageProcessing.FormatShape | src/utils/imageProcessor.ts:262-264 | The text is the width, " × ", the height and " px". |
| ImageProcessing.FormatImageDimensionsInjective | src/utils/imageProcessor.ts:262-264 | Different sizes are never shown alike: the text determines both numbers. |
| ImageProcessing.Resize | src/utils/imageProcessor.ts:140-226 | An image that does not decode fails with "Failed to load image". Once it decodes, the outcome depends on what the canvas does at the target size: it succeeds exactly when the canvas encodes the image. Otherwise it fails with "Failed to get canvas context", the drawing error's own message, or "Failed to create resized image blob". A success records the name, both sizes, the encoded bytes and both file sizes. |
| ImageProcessing.ProcessRow | src/utils/imageProcessor.ts:81-126 | A row is skipped exactly when its lower-cased name is not in the index. Any other outcome carries the row's file name, and a resized image is a success. A failure records: the exact requested size, a zero pixel size, no bytes, no processed size and an error message. If no file size was recorded, the error is "Failed to process {name}: {message}". If a file size was recorded, the image failed the size check and the error is that check's message. |
| ImageProcessing.FoundRowOutcome | src/utils/imageProcessor.ts:81-126 | For a row whose image is in the index, a read failure gives "Failed to process {name}: {message}". For a readable image within 5 MiB, the row is resized exactly when resizing succeeds, and then its entry is the resized image. When resizing fails, the failure carries "Failed to process {name}: {message}". |
| ImageProcessing.OversizedImageFails | src/utils/imageProcessor.ts:94-108 | An image over 5 MiB is never resized. It fails with the size error and records its byte count. |
| ImageProcessing.EveryRowAccountedFor | src/utils/imageProcessor.ts:74-127 | Every row gives exactly one entry or one skipped name. Every row except a resized one gives exactly one error. |
| ImageProcessing.SuccessIffSomeResized | src/utils/imageProcessor.ts:131 | The batch succeeds exactly when at least one row was resized. |
| ImageProcessing.RowProgressBounds | src/utils/imageProcessor.ts:76 | A row's percentage lies between 5 and 95. |
| ImageProcessing.RowProgressMonotone | src/utils/imageProcessor.ts:76 | Row percentages never go down. |
| ImageProcessing.LastRowProgress | src/utils/imageProcessor.ts:76 | The last row reports 95. |
| ImageProcessing.Durations | src/utils/imageProcessor.ts:78-125 | One duration is recorded per completed row. |
| ImageProcessing.DurationsNext | src/utils/imageProcessor.ts:87-125 | Completing row i appends the time between its completion and the previous one. |
| ImageProcessing.DurationsSum | src/utils/imageProcessor.ts:74-127 | After i rows, the durations add up to the time from the start to the i-th completion. |
| ImageProcessing.RowEstimatesNext | src/utils/imageProcessor.ts:78 | Before row i, the estimator holds i durations and is read at the clock reading for that row. |
| ImageProcessing.RowReportAt | src/utils/imageProcessor.ts:79 | The k-th report of the row loop is the report for row k. |
| ImageProcessing.RowReportsNext | src/utils/imageProcessor.ts:79 | Each pass appends one report, for its own row. |
| ImageProcessing.RowStartNext | src/utils/imageProcessor.ts:76-79 | The report for row i carries the estimate made before that row. |
| ImageProcessing.ProgressSchedule | src/utils/imageProcessor.ts:58-130 | A run reports: 0 and 5 before the rows; then one percentage per row, never decreasing, between 5 and 95, and 95 at the last row; then 100. |
| ImageProcessing.Outcomes | src/utils/imageProcessor.ts:74-127 | There is one outcome per row. |
| ImageProcessing.OutcomesNext | src/utils/imageProcessor.ts:74-127 | The outcomes of one more row extend the earlier outcomes by that row's own outcome. |
| ImageProcessing.OutcomeOfRow | src/utils/imageProcessor.ts:74-127 | Row k's outcome depends only on that row and the index. |
| ImageProcessing.Tally | src/utils/imageProcessor.ts:84-126 | Filing an outcome extends the lists: a missing image becomes a skipped name plus a not-found error, a failure becomes an entry plus its error, and a resized image becomes an entry. |
| ImageProcessing.FileRow | src/utils/imageProcessor.ts:75-126 | One pass looks up, processes and files row i, extending the lists for the first i rows to the first i + 1. A skipped row adds only its name to the skipped list; any other row adds only its entry to the processed images. |
| ImageProcessing.ImageProcessor.constructor | src/utils/imageProcessor.ts:37-40 | A fresh processor has a fresh, consistent estimator and has made no reports. |
| ImageProcessing.ImageProcessor.UpdateProgress | src/utils/imageProcessor.ts:234-251 | Appends one "processing" report with the given fields. |
| ImageProcessing.ImageProcessor.ReportRowStart | src/utils/imageProcessor.ts:76-79 | Before row i, reports the row's percentage and the estimate from the i recorded durations. |
| ImageProcessing.ImageProcessor.CompleteRow | src/utils/imageProcessor.ts:87-125 | Completing row i moves the estimator from the state after i rows to the state after i + 1. |
| ImageProcessing.ImageProcessor.ReportCompletion | src/utils/imageProcessor.ts:129-130 | The last report is 100% with the estimate after all rows. |
| ImageProcessing.ImageProcessor.RowPass | src/utils/imageProcessor.ts:74-127 | One loop pass: the report for row i, the row's outcome filed, and its completion recorded. |
| ImageProcessing.ImageProcessor.ProcessRows | src/utils/imageProcessor.ts:74-127 | The row loop yields the entries, errors and skipped names of all row outcomes in order. It records one duration per row and makes one report per row. |
| ImageProcessing.ImageProcessor.ProcessImages | src/utils/imageProcessor.ts:42-138 | A failed archive load gives an unsuccessful result with the single "Failed to process ZIP file: " error. Otherwise the result holds the entries, errors and skipped names of all rows, and succeeds exactly when some entry succeeded. The reports are the two start reports, one per row, and the final one. |
| ImageProcessing.ProcessingAccountsForRows | src/utils/imageProcessor.ts:74-131 | After a successful load, the entries and skipped names together number the rows. The batch succeeds exactly when some row was resized. |
| ZipGeneration.FilterFacts | src/utils/zipGenerator.ts:21 | The success filter keeps exactly the successful images and the failure filter exactly the others. Together they split the list. |
| ZipGeneration.AddSuccessEntries | src/utils/zipGenerator.ts:91-100 | Appending the success entries only extends the report. |
| ZipGeneration.ErrorText | src/utils/zipGenerator.ts:107 | A missing or empty error prints as "Unknown error"; any other error prints as itself. |
| ZipGeneration.AddFailedEntries | src/utils/zipGenerator.ts:105-113 | Appending the failure entries only extends the report. |
| ZipGeneration.WithFailedSection | src/utils/zipGenerator.ts:102-114 | The failed-images heading follows the text before it exactly when some image failed. Otherwise the report is unchanged. |
| ZipGeneration.AddSkippedLines | src/utils/zipGenerator.ts:119-123 | Appending the skipped lines only extends the report. |
| ZipGeneration.WithSkippedSection | src/utils/zipGenerator.ts:116-124 | The skipped-files heading follows the text before it exactly when some name was skipped. Otherwise the report is unchanged. |
| ZipGeneration.AddErrorLines | src/utils/zipGenerator.ts:129-134 | Appending the error lines only extends the report. |
| ZipGeneration.WithErrorsSection | src/utils/zipGenerator.ts:126-135 | The processing-errors heading follows the text before it exactly when errors were recorded. Otherwise the report is unchanged. |
| ZipGeneration.ReportTitle | src/utils/zipGenerator.ts:74-75 | At every stage of its construction, the report starts with its title. |
| ZipGeneration.ReportFooter | src/utils/zipGenerator.ts:137-146 | The report ends with the technical-details footer. |
| ZipGeneration.ReportSections | src/utils/zipGenerator.ts:102-135 | The report contains each optional section's heading when its list is non-empty. |
| ZipGeneration.ErrorNumbering | src/utils/zipGenerator.ts:129-134 | The errors are listed in order, the k-th numbered k + 1, each line right after the text for the errors before it. |
| ZipGeneration.UnknownErrorListed | src/utils/zipGenerator.ts:105-113 | A failed image without a message is listed with "Error: Unknown error". |
| ZipGeneration.FolderPathsDiffer | src/utils/zipGenerator.ts:30-45 | Different file names give different paths under the images folder. |
| ZipGeneration.AddImagesKeys | src/utils/zipGenerator.ts:35-46 | A path under the images folder is present exactly when it was there before or some image has that name. |
| ZipGeneration.AddImagesLastWins | src/utils/zipGenerator.ts:35-46 | When two images share a name, the file holds the bytes of the later one. |
| ZipGeneration.AddImagesPaths | src/utils/zipGenerator.ts:35-46 | Writing images adds only paths under the images folder. |
| ZipGeneration.ArchiveContents | src/utils/zipGenerator.ts:30-54 | The archive holds: the report at the root, the images folder, and one file per name of a successful image with the bytes of the last image of that name. It holds nothing else. |
| ZipGeneration.OnlySuccessfulImagesWritten | src/utils/zipGenerator.ts:21-46 | A name gets an image file in the archive exactly when some successful image has that name. |
| ZipGeneration.AddingProgressSchedule | src/utils/zipGenerator.ts:41-44 | The per-image percentages lie between 0 and 70, never go down, and reach 70 with the last image. |
| ZipGeneration.AddingReports | src/utils/zipGenerator.ts:35-46 | One report is made per image written. |
| ZipGeneration.PackOutcome | src/utils/zipGenerator.ts:56-69 | Packing succeeds exactly when the packer does, with its bytes. A packing failure gives a message starting "Failed to generate ZIP file: ". |
| ZipGeneration.ZipGenerator.constructor | src/utils/zipGenerator.ts:15-17 | A fresh generator has made no reports. |
| ZipGeneration.ZipGenerator.UpdateProgress | src/utils/zipGenerator.ts:159-169 | Appends one "generating" report with the given fields. |
| ZipGeneration.ZipGenerator.GenerateProcessingReport | src/utils/zipGenerator.ts:72-149 | The report built step by step equals the section-structured report: summary, successful images, then the failed, skipped and error sections when non-empty, then the footer. |
| ZipGeneration.ZipGenerator.AppendSuccessEntries | src/utils/zipGenerator.ts:91-100 | The loop appends one entry per successful image, in order. |
| ZipGeneration.ZipGenerator.AppendFailedSection | src/utils/zipGenerator.ts:102-114 | The loop appends the failed-images section when there are failures. |
| ZipGeneration.ZipGenerator.AppendSkippedSection | src/utils/zipGenerator.ts:116-124 | The loop appends the skipped-files section when names were skipped. |
| ZipGeneration.ZipGenerator.AppendErrorsSection | src/utils/zipGenerator.ts:126-135 | The loop appends the numbered error list when errors were recorded. |
| ZipGeneration.ZipGenerator.AddImagesToZip | src/utils/zipGenerator.ts:30-46 | The loop writes every successful image under the images folder and makes one report per image. |
| ZipGeneration.ZipGenerator.GenerateZip | src/utils/zipGenerator.ts:19-70 | With no successful image, the result is "No successfully processed images to download" and no progress is reported. Otherwise it packs the archive of the successful images and the report. The result is the packed bytes or the prefixed packing error. The reports are: adding, one per image, report, finalizing, and "ready" only when packing succeeded. |
| ZipGeneration.DashSeparators | src/utils/zipGenerator.ts:189 | Each ':' and '.' becomes '-', and every other character and the length are kept. |
| ZipGeneration.DownloadFilenameShape | src/utils/zipGenerator.ts:187-191 | The download name is "resized_images_", at most 19 characters of the time with no ':' or '.', then ".zip". |
| ZipGeneration.DownloadFilenameExample | src/utils/zipGenerator.ts:187-191 | The time "2024-01-15T10:30:45.123Z" names the download "resized_images_2024-01-15T10-30-45.zip". |

## Left out

- The user interface (`src/App.tsx` and the components), sign-in (`src/utils/auth.ts`, `src/context/AuthContext.tsx`) and `src/utils/tabKeepAlive.ts` are not part of this model.
- `parseCSV` (`src/utils/csvParser.ts:17-36`) is not modelled. It parses text with Papa Parse, a third-party library. The model starts from the rows already split into cells.
- The sample CSV (`src/utils/csvParser.ts:148-173`) is not modelled. It is a constant download with no logic.
- Decoding images and drawing on a canvas are browser services. The model passes them in as the `decode` and `render` functions. Bicubic smoothing, JPEG quality 0.95 and the encoded bytes are therefore not modelled. Neither is the object URL the image is loaded from.
- Loading and packing ZIP archives use JSZip. The model takes an archive as its list of entries, and packing (including DEFLATE) as the `pack` parameter. Path normalisation inside JSZip is not modelled.
- `formatFileSize` (`src/utils/fileValidation.ts:54-60`, `src/utils/zipGenerator.ts:151-157`) uses floating-point logarithms and `toFixed`. It is passed in as a function.
- `parseFloat` and JavaScript's number-to-text conversion are passed in as functions. NaN is `None`.
- `Text.Lower` folds only ASCII letters. `toLowerCase` also folds other Unicode letters.
- Strings are sequences of Unicode characters, not UTF-16 code units. A character outside the Basic Multilingual Plane is one character here and two in JavaScript.
- Durations and dates are real numbers, not IEEE doubles. The completion time is a millisecond count, not a `Date`.
- ImageProcessing.RequestedSize: computes `width * 300` and `length * 300` in exact reals, not IEEE doubles. A product that lands just next to a .5 boundary can therefore round the other way. For example, 0.205 × 300 is 61.49999999999999 in doubles, which the source rounds to 61, but the exact product 61.5 rounds to 62. `ImageProcessing.CalculateImageDimensions`, `ImageProcessing.TargetSize` and `ImageProcessing.ConstrainedSize` do their arithmetic in exact reals in the same way (including `w / h`, `base / aspect` and `base * aspect`).
- ImageProcessing.RowProgress: the percentage is computed in exact reals. `ZipGeneration.AddingProgress` is computed the same way. Double rounding at a .5 boundary is not modelled.
- CsvParser.CellsAcceptable: `parseFloat` yields a finite real or `None`, so an infinite cell ("Infinity", "1e400") cannot be expressed. The source keeps such a row, with a large-value warning, because infinity is a number above zero and above 100. The model has no such row.
- `Date.now` becomes the `clock` parameter. The report's `toLocaleString` date and the `toISOString` time are passed in as text.
- The progress callbacks are optional in the source. The model always records each report in `progressLog`, whether or not a callback is set.
- `await` and the asynchronous ordering of the image loop are not modelled. The loop is sequential.
- Reading an entry's bytes fails only through the entry's `data` field. Other exceptions thrown inside the loop are not modelled, except those the decoder and canvas report.
- The null check on `zip.folder` (`src/utils/zipGenerator.ts:31-33`) is not modelled because it cannot fail for a fresh archive.
- The output archive is a map from path to file, so JSZip's insertion order of entries is not modelled.
- `downloadBlob` (`src/utils/zipGenerator.ts:172-185`) is not modelled. It only touches the page: a link, a click and a timer.
- TimeEstimation.Estimate: carries no contract of its own. Its promises are the lemmas `EstimateAtEnd`, `AverageOfFewItems`, `OldDurationsIgnored` and `AverageWithinRecentDurations`.
- TimeEstimation.FormatTimeShort: its contract covers only the sub-second case. The other cases are stated by `FormatTimeShortSeconds`, `FormatTimeShortMinutes` and `FormatTimeShortHasNoHours`.
- TimeEstimation.FormatTime: its contract covers only the sub-second case. The other cases are stated by `FormatTimeHours`, `FormatTimeMinutes`, `FormatTimeSeconds` and `FormatTimeHourUnit`.
