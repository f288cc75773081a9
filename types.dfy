/** The record shared by the parser and the image processor. */
module Types {
  import opened Text

  /** The extensions accepted as images, compared against the lower-cased name. */
  const ImageExtensions: seq<string> := [".jpg", ".jpeg", ".png", ".gif", ".bmp", ".tiff", ".webp"]

  /** The image-extension test shared by the specification parser and the archive indexer. */
  predicate IsImageFile(name: string) {
    exists ext <- ImageExtensions :: EndsWith(Lower(name), ext)
  }

  /** A physical length in inches; the parser only ever keeps positive values. */
  type Inches = x: real | x > 0.0 witness 1.0

  /** One validated specification row: the image file name and its printed size,
      `length` (the vertical side) and `width` (the horizontal side). */
  datatype CsvRow = CsvRow(filename: string, length: Inches, width: Inches)

  /** The bytes of a file or of an encoded image. */
  type Blob = seq<bv8>

  /** `Math.round`: the nearest integer, halves rounded up. */
  function Round(x: real): (r: int)
    ensures x - 0.5 < r as real <= x + 0.5
  {
    (x + 0.5).Floor
  }

  lemma RoundMonotone(x: real, y: real)
    requires x <= y
    ensures Round(x) <= Round(y)
  {
  }
}
