/** Up-front checks on the uploaded archive, the uploaded specification file and each
    image read from the archive. Each check is an ordered chain of tests; the first
    test that fails decides the error. */
module FileValidation {
  import opened Wrappers
  import opened Text

  datatype FileValidationResult = FileValidationResult(isValid: bool, error: Option<string>)

  /** The per-image byte limit (5 MiB). */
  const MaxImageSize: nat := 5 * 1024 * 1024
  /** The archive byte limit (100 MiB). */
  const MaxZipSize: nat := 100 * 1024 * 1024
  /** The specification-file byte limit (10 MiB). */
  const MaxCsvSize: nat := 10 * 1024 * 1024

  const Valid := FileValidationResult(true, None)

  function Invalid(error: string): FileValidationResult {
    FileValidationResult(false, Some(error))
  }

  /** Checks an uploaded archive: the name must end in ".zip" ignoring case, then the
      size must not exceed 100 MiB, then the file must not be empty. */
  function ValidateZipFile(name: string, size: nat): (r: FileValidationResult)
    ensures r.isValid <==> r.error.None?
    ensures r.isValid <==> EndsWith(Lower(name), ".zip") && 0 < size <= MaxZipSize
    ensures !EndsWith(Lower(name), ".zip") ==> r == Invalid("File must be a ZIP archive")
    ensures EndsWith(Lower(name), ".zip") && size > MaxZipSize ==>
              r == Invalid("ZIP file must be smaller than 100MB")
    ensures EndsWith(Lower(name), ".zip") && size == 0 ==> r == Invalid("ZIP file cannot be empty")
  {
    if !EndsWith(Lower(name), ".zip") then Invalid("File must be a ZIP archive")
    else if size > MaxZipSize then Invalid("ZIP file must be smaller than 100MB")
    else if size == 0 then Invalid("ZIP file cannot be empty")
    else Valid
  }

  /** Checks an uploaded specification file: ".csv" ignoring case, at most 10 MiB, not empty. */
  function ValidateCsvFile(name: string, size: nat): (r: FileValidationResult)
    ensures r.isValid <==> r.error.None?
    ensures r.isValid <==> EndsWith(Lower(name), ".csv") && 0 < size <= MaxCsvSize
    ensures !EndsWith(Lower(name), ".csv") ==> r == Invalid("File must be a CSV file")
    ensures EndsWith(Lower(name), ".csv") && size > MaxCsvSize ==>
              r == Invalid("CSV file must be smaller than 10MB")
    ensures EndsWith(Lower(name), ".csv") && size == 0 ==> r == Invalid("CSV file cannot be empty")
  {
    if !EndsWith(Lower(name), ".csv") then Invalid("File must be a CSV file")
    else if size > MaxCsvSize then Invalid("CSV file must be smaller than 10MB")
    else if size == 0 then Invalid("CSV file cannot be empty")
    else Valid
  }

  /** Checks one image read from the archive against the 5 MiB limit. The message
      shows both sizes through `formatFileSize`, a floating-point formatter that is
      not modelled and is passed in. */
  function ValidateImageSize(size: nat, filename: string, formatFileSize: nat -> string): (r: FileValidationResult)
    ensures r.isValid <==> r.error.None?
    ensures r.isValid <==> size <= MaxImageSize
    ensures !r.isValid ==>
              r.error.value == "Image \"" + filename + "\" is " + formatFileSize(size) +
                               " (max: " + formatFileSize(MaxImageSize) + ")"
  {
    if size > MaxImageSize then
      Invalid("Image \"" + filename + "\" is " + formatFileSize(size) +
              " (max: " + formatFileSize(MaxImageSize) + ")")
    else Valid
  }

  /** The limit is inclusive: an image of exactly 5 MiB passes, one byte more fails. */
  lemma ImageLimitBoundary(filename: string, formatFileSize: nat -> string)
    ensures ValidateImageSize(5242880, filename, formatFileSize).isValid
    ensures !ValidateImageSize(5242881, filename, formatFileSize).isValid
  {
  }

  /** The extension tests ignore case: an upper-case name is judged as its lower-case form,
      so "PHOTOS.ZIP" is accepted like "photos.zip". */
  lemma {:induction false} ExtensionCaseInsensitive(name: string, size: nat)
    ensures ValidateZipFile(name, size) == ValidateZipFile(Lower(name), size)
    ensures ValidateCsvFile(name, size) == ValidateCsvFile(Lower(name), size)
    ensures 0 < size <= MaxZipSize ==> ValidateZipFile("PHOTOS.ZIP", size).isValid
  {
    LowerIdempotent(name);
    var u := "PHOTOS.ZIP";
    assert Lower(u)[|u| - 4..] == ".zip";
  }

  /** No upload can pass both the archive check and the specification-file check. */
  lemma ZipAndCsvExclusive(name: string, size: nat)
    ensures !(ValidateZipFile(name, size).isValid && ValidateCsvFile(name, size).isValid)
  {
  }
}
