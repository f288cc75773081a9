/** Validation of the rows of an uploaded size specification. The rows arrive already
    split into cells; the parser detects a header row, checks each remaining row,
    keeps the rows that pass, and reports errors (row dropped) and warnings (row kept). */
module CsvParser {
  import opened Wrappers
  import opened Text
  import opened Types

  datatype CsvParseResult = CsvParseResult(
    success: bool,
    data: seq<CsvRow>,
    errors: seq<string>,
    warnings: seq<string>)

  const EmptyError := "CSV file is empty"
  const HeaderWarning := "Detected header row - skipping first row"

  // ---------------------------------------------------------------- messages

  function RowLabel(rowNumber: nat): string {
    "Row " + NatToString(rowNumber) + ": "
  }

  /** A message about the row numbered `n`, which always starts with that row's label. */
  function RowMessage(n: nat, text: string): (m: string)
    ensures StartsWith(m, RowLabel(n))
  {
    var m := RowLabel(n) + text;
    assert m[..|RowLabel(n)|] == RowLabel(n);
    m
  }

  function MissingColumnsError(n: nat): string {
    RowMessage(n, "Missing columns (expected 3: filename, length, width)")
  }

  function EmptyFilenameError(n: nat): string {
    RowMessage(n, "Filename cannot be empty")
  }

  function NotImageWarning(n: nat, filename: string): string {
    RowMessage(n, "\"" + filename + "\" may not be a valid image file")
  }

  function BadLengthError(n: nat, text: string): string {
    RowMessage(n, "Length must be a positive number (got \"" + text + "\")")
  }

  function LargeLengthWarning(n: nat, value: real, numberText: real -> string): string {
    RowMessage(n, "Length " + numberText(value) + " inches is very large")
  }

  function BadWidthError(n: nat, text: string): string {
    RowMessage(n, "Width must be a positive number (got \"" + text + "\")")
  }

  function LargeWidthWarning(n: nat, value: real, numberText: real -> string): string {
    RowMessage(n, "Width " + numberText(value) + " inches is very large")
  }

  function DuplicateWarning(names: seq<string>): string {
    "Duplicate filenames found: " + Join(names, ", ")
  }

  // ---------------------------------------------------------------- header

  /** The header heuristic: at least three cells, and the first cell mentions
      "filename" or "name", or the second mentions "length" or "width", ignoring case. */
  predicate IsHeaderRow(row: seq<string>) {
    |row| >= 3 &&
    (Contains(Lower(row[0]), "filename") || Contains(Lower(row[0]), "name") ||
     Contains(Lower(row[1]), "length") || Contains(Lower(row[1]), "width"))
  }

  /** The sample file's header is recognised; its first data row is not. */
  lemma HeaderExamples()
    ensures IsHeaderRow(["filename", "length", "width"])
    ensures !IsHeaderRow(["photo1.jpg", "8.5", "11"])
  {
    var h := "filename";
    assert Lower(h)[0..8] == "filename";
    ContainsAt(Lower(h), "filename", 0);
    NotContainsWithout(Lower("photo1.jpg"), "filename");
    NotContainsWithout(Lower("photo1.jpg"), "name");
    NotContainsWithout(Lower("8.5"), "length");
    NotContainsWithout(Lower("8.5"), "width");
  }

  // ---------------------------------------------------------------- one row

  /** `parseFloat` gave a number (not NaN) and it is positive. */
  predicate PositiveNumber(v: Option<real>) {
    v.Some? && v.value > 0.0
  }

  /** The conditions under which the trimmed cells of a row are kept: a non-blank file
      name and positive length and width. Extension and size warnings play no part. */
  predicate CellsAcceptable(filename: string, lengthText: string, widthText: string,
                            parseFloat: string -> Option<real>) {
    filename != "" && PositiveNumber(parseFloat(lengthText)) && PositiveNumber(parseFloat(widthText))
  }

  /** A row is kept when it has three cells and its first three trimmed cells pass. */
  predicate RowAcceptable(row: seq<string>, parseFloat: string -> Option<real>) {
    |row| >= 3 && CellsAcceptable(Trim(row[0]), Trim(row[1]), Trim(row[2]), parseFloat)
  }

  /** The record kept for an acceptable row: the first three trimmed cells. */
  function RowOf(row: seq<string>, parseFloat: string -> Option<real>): CsvRow
    requires RowAcceptable(row, parseFloat)
  {
    CsvRow(Trim(row[0]), parseFloat(Trim(row[1])).value, parseFloat(Trim(row[2])).value)
  }

  /** The error for trimmed cells that fail: the first failing check, in the order the
      code applies them, decides the message. */
  function CellsError(filename: string, lengthText: string, widthText: string, n: nat,
                      parseFloat: string -> Option<real>): (e: string)
    requires !CellsAcceptable(filename, lengthText, widthText, parseFloat)
    ensures StartsWith(e, RowLabel(n))
  {
    if filename == "" then EmptyFilenameError(n)
    else if !PositiveNumber(parseFloat(lengthText)) then BadLengthError(n, lengthText)
    else BadWidthError(n, widthText)
  }

  /** The error that drops an unacceptable row numbered `n`. */
  function RowError(row: seq<string>, n: nat, parseFloat: string -> Option<real>): (e: string)
    requires !RowAcceptable(row, parseFloat)
    ensures StartsWith(e, RowLabel(n))
  {
    if |row| < 3 then MissingColumnsError(n)
    else CellsError(Trim(row[0]), Trim(row[1]), Trim(row[2]), n, parseFloat)
  }

  /** The warnings issued for trimmed cells of the row numbered `n`, before it is kept
      or dropped: a file name without an image extension, then a length over 100, then
      a width over 100; each only once the checks before it have passed. */
  function CellsWarnings(filename: string, lengthText: string, widthText: string, n: nat,
                         parseFloat: string -> Option<real>, numberText: real -> string)
    : (ws: seq<string>)
    ensures |ws| <= 3
    ensures filename == "" ==> ws == []
    ensures filename != "" && !IsImageFile(filename) ==>
      ws != [] && ws[0] == NotImageWarning(n, filename)
    ensures filename != "" && !PositiveNumber(parseFloat(lengthText)) ==>
      ws == if IsImageFile(filename) then [] else [NotImageWarning(n, filename)]
    ensures var length := parseFloat(lengthText);
      filename != "" && PositiveNumber(length) && !PositiveNumber(parseFloat(widthText)) ==>
      ws == (if IsImageFile(filename) then [] else [NotImageWarning(n, filename)]) +
            (if length.value > 100.0 then [LargeLengthWarning(n, length.value, numberText)] else [])
  {
    if filename == "" then []
    else
      var length := parseFloat(lengthText);
      var width := parseFloat(widthText);
      (if IsImageFile(filename) then [] else [NotImageWarning(n, filename)]) +
      (if PositiveNumber(length) && length.value > 100.0
       then [LargeLengthWarning(n, length.value, numberText)] else []) +
      (if PositiveNumber(length) && PositiveNumber(width) && width.value > 100.0
       then [LargeWidthWarning(n, width.value, numberText)] else [])
  }

  /** The warnings issued for the row numbered `n`; none when it lacks columns. */
  function RowWarnings(row: seq<string>, n: nat, parseFloat: string -> Option<real>,
                       numberText: real -> string): (ws: seq<string>)
    ensures |ws| <= 3
    ensures |row| < 3 ==> ws == []
  {
    if |row| < 3 then []
    else CellsWarnings(Trim(row[0]), Trim(row[1]), Trim(row[2]), n, parseFloat, numberText)
  }

  /** Warnings never drop a row: a row that passes the checks is kept and carries one
      warning per condition met (no image extension, length over 100, width over 100). */
  lemma WarningsKeepRow(row: seq<string>, n: nat, parseFloat: string -> Option<real>,
                        numberText: real -> string)
    requires RowAcceptable(row, parseFloat)
    ensures var r := RowOf(row, parseFloat);
      |RowWarnings(row, n, parseFloat, numberText)| ==
        (if IsImageFile(r.filename) then 0 else 1) +
        (if r.length > 100.0 then 1 else 0) + (if r.width > 100.0 then 1 else 0)
  {
  }

  /** A warning issued for the file name stays even when a later check drops the row. */
  lemma ExtensionWarningSurvivesDrop(row: seq<string>, n: nat, parseFloat: string -> Option<real>,
                                     numberText: real -> string)
    requires |row| >= 3 && Trim(row[0]) != "" && !IsImageFile(Trim(row[0]))
    requires !PositiveNumber(parseFloat(Trim(row[1])))
    ensures !RowAcceptable(row, parseFloat)
    ensures RowError(row, n, parseFloat) == BadLengthError(n, Trim(row[1]))
    ensures RowWarnings(row, n, parseFloat, numberText) == [NotImageWarning(n, Trim(row[0]))]
  {
  }

  // ---------------------------------------------------------------- all rows

  /** The records kept from `rawData[start..end]`: the acceptable rows, in input order,
      each reduced to its first three trimmed cells. */
  function KeptRows(rawData: seq<seq<string>>, start: nat, end: nat,
                    parseFloat: string -> Option<real>): seq<CsvRow>
    requires start <= end <= |rawData|
    decreases end
  {
    if end == start then []
    else
      var row := rawData[end - 1];
      KeptRows(rawData, start, end - 1, parseFloat) +
        if RowAcceptable(row, parseFloat) then [RowOf(row, parseFloat)] else []
  }

  /** The errors reported for `rawData[start..end]`: one per unacceptable row, in input
      order, each labelled with the row's 1-based number. */
  function RowErrors(rawData: seq<seq<string>>, start: nat, end: nat,
                     parseFloat: string -> Option<real>): seq<string>
    requires start <= end <= |rawData|
    decreases end
  {
    if end == start then []
    else
      var row := rawData[end - 1];
      RowErrors(rawData, start, end - 1, parseFloat) +
        if RowAcceptable(row, parseFloat) then [] else [RowError(row, end, parseFloat)]
  }

  /** The warnings list after checking `rawData[start..end]`, starting from the warnings
      `issued` before the first of those rows: each row's warnings are appended in order. */
  function WarningsAfter(issued: seq<string>, rawData: seq<seq<string>>, start: nat, end: nat,
                         parseFloat: string -> Option<real>, numberText: real -> string): seq<string>
    requires start <= end <= |rawData|
    decreases end
  {
    if end == start then issued
    else WarningsAfter(issued, rawData, start, end - 1, parseFloat, numberText) +
         RowWarnings(rawData[end - 1], end, parseFloat, numberText)
  }

  /** How many of `rawData[start..end]` are acceptable. */
  function CountAcceptable(rawData: seq<seq<string>>, start: nat, end: nat,
                           parseFloat: string -> Option<real>): nat
    requires start <= end <= |rawData|
    decreases end
  {
    if end == start then 0
    else CountAcceptable(rawData, start, end - 1, parseFloat) +
         if RowAcceptable(rawData[end - 1], parseFloat) then 1 else 0
  }

  /** Every examined row is either kept or reported by exactly one error, never both:
      as many rows are kept as are acceptable, and there is one error per other row. */
  lemma {:induction false} EveryRowKeptOrReported(rawData: seq<seq<string>>, start: nat, end: nat,
                                                  parseFloat: string -> Option<real>)
    requires start <= end <= |rawData|
    ensures |KeptRows(rawData, start, end, parseFloat)| == CountAcceptable(rawData, start, end, parseFloat)
    ensures |RowErrors(rawData, start, end, parseFloat)| ==
            (end - start) - CountAcceptable(rawData, start, end, parseFloat)
    decreases end
  {
    if end > start {
      EveryRowKeptOrReported(rawData, start, end - 1, parseFloat);
    }
  }

  /** `x` is the record of the acceptable row `rawData[j]`. */
  predicate RecordOfRow(rawData: seq<seq<string>>, j: nat, parseFloat: string -> Option<real>, x: CsvRow)
    requires j < |rawData|
  {
    RowAcceptable(rawData[j], parseFloat) && x == RowOf(rawData[j], parseFloat)
  }

  /** Every kept record is the record of some acceptable examined row. */
  lemma {:induction false} KeptRowsComeFromAcceptableRows(rawData: seq<seq<string>>, start: nat,
                                                          end: nat,
                                                          parseFloat: string -> Option<real>,
                                                          x: CsvRow)
    requires start <= end <= |rawData|
    requires x in KeptRows(rawData, start, end, parseFloat)
    ensures exists j: nat :: start <= j < end && RecordOfRow(rawData, j, parseFloat, x)
    decreases end
  {
    KeptRowsStep(rawData, start, end, parseFloat, x);
    if x in KeptRows(rawData, start, end - 1, parseFloat) {
      KeptRowsComeFromAcceptableRows(rawData, start, end - 1, parseFloat, x);
      var j: nat :| start <= j < end - 1 && RecordOfRow(rawData, j, parseFloat, x);
      assert start <= j < end && RecordOfRow(rawData, j, parseFloat, x);
    } else {
      assert RecordOfRow(rawData, end - 1, parseFloat, x);
    }
  }

  /** The record of every acceptable examined row is kept. */
  lemma {:induction false} AcceptableRowsAreKept(rawData: seq<seq<string>>, start: nat, end: nat,
                                                 parseFloat: string -> Option<real>, j: nat)
    requires start <= j < end <= |rawData|
    requires RowAcceptable(rawData[j], parseFloat)
    ensures RowOf(rawData[j], parseFloat) in KeptRows(rawData, start, end, parseFloat)
    decreases end
  {
    var x := RowOf(rawData[j], parseFloat);
    KeptRowsStep(rawData, start, end, parseFloat, x);
    if j < end - 1 {
      AcceptableRowsAreKept(rawData, start, end - 1, parseFloat, j);
    } else {
      assert RecordOfRow(rawData, end - 1, parseFloat, x);
    }
  }

  /** One more examined row adds its record, if it has one, to those kept before it. */
  lemma KeptRowsStep(rawData: seq<seq<string>>, start: nat, end: nat,
                     parseFloat: string -> Option<real>, x: CsvRow)
    requires start < end <= |rawData|
    ensures x in KeptRows(rawData, start, end, parseFloat) <==>
            x in KeptRows(rawData, start, end - 1, parseFloat) ||
            RecordOfRow(rawData, end - 1, parseFloat, x)
  {
  }

  /** Every kept record has a non-blank file name with no surrounding white space
      (its length and width are positive by their type). */
  lemma {:induction false} KeptRowsAreClean(rawData: seq<seq<string>>, start: nat, end: nat,
                                            parseFloat: string -> Option<real>)
    requires start <= end <= |rawData|
    ensures forall x <- KeptRows(rawData, start, end, parseFloat) ::
              x.filename != "" && !IsWhiteSpace(x.filename[0]) &&
              !IsWhiteSpace(x.filename[|x.filename| - 1])
    decreases end
  {
    if end > start {
      KeptRowsAreClean(rawData, start, end - 1, parseFloat);
      var row := rawData[end - 1];
      if RowAcceptable(row, parseFloat) {
        TrimFacts(row[0]);
      }
    }
  }

  // ---------------------------------------------------------------- duplicates

  function Filenames(rows: seq<CsvRow>): set<string> {
    set r <- rows :: r.filename
  }

  /** The names that occur again after their first occurrence, each listed once, in the
      order their second occurrences appear (the insertion order of a JavaScript Set). */
  function Duplicates(rows: seq<CsvRow>): seq<string>
  {
    if rows == [] then []
    else
      var prev := Duplicates(rows[..|rows| - 1]);
      var name := rows[|rows| - 1].filename;
      if name in Filenames(rows[..|rows| - 1]) && name !in prev then prev + [name] else prev
  }

  /** A name occurs twice in `rows` (the comparison is exact and case-sensitive). */
  predicate Repeated(rows: seq<CsvRow>, name: string) {
    exists i, j :: 0 <= i < j < |rows| && rows[i].filename == name && rows[j].filename == name
  }

  /** The duplicate list names exactly the repeated file names, each of them once. */
  lemma {:induction false} DuplicatesAreRepeatedNames(rows: seq<CsvRow>)
    ensures forall name :: name in Duplicates(rows) <==> Repeated(rows, name)
    ensures forall i, j :: 0 <= i < j < |Duplicates(rows)| ==> Duplicates(rows)[i] != Duplicates(rows)[j]
    decreases |rows|
  {
    if rows != [] {
      var init := rows[..|rows| - 1];
      DuplicatesAreRepeatedNames(init);
      var last := rows[|rows| - 1];
      forall name ensures name in Duplicates(rows) <==> Repeated(rows, name) {
        if Repeated(init, name) {
          var i, j :| 0 <= i < j < |init| && init[i].filename == name && init[j].filename == name;
          assert rows[i] == init[i] && rows[j] == init[j];
        }
        if name == last.filename && name in Filenames(init) {
          var r :| r in init && r.filename == name;
          var i :| 0 <= i < |init| && init[i] == r;
          assert rows[i] == init[i];
          assert Repeated(rows, name);
        }
        if Repeated(rows, name) {
          var i, j :| 0 <= i < j < |rows| && rows[i].filename == name && rows[j].filename == name;
          if j < |rows| - 1 {
            assert init[i] == rows[i] && init[j] == rows[j];
            assert Repeated(init, name);
          } else {
            assert init[i] in init;
          }
        }
      }
    }
  }

  /** The names and the duplicates after one more row. */
  lemma DuplicatesNext(rows: seq<CsvRow>, i: nat)
    requires i < |rows|
    ensures Filenames(rows[..i + 1]) == Filenames(rows[..i]) + {rows[i].filename}
    ensures Duplicates(rows[..i + 1]) ==
      var name := rows[i].filename;
      var prev := Duplicates(rows[..i]);
      if name in Filenames(rows[..i]) && name !in prev then prev + [name] else prev
  {
    assert rows[..i + 1][..i] == rows[..i];
    assert rows[..i + 1] == rows[..i] + [rows[i]];
  }

  /** Collects the repeated names the way the code does, with a set of names seen so far
      and an insertion-ordered set of duplicates. */
  method FindDuplicateFilenames(rows: seq<CsvRow>) returns (duplicates: seq<string>)
    ensures duplicates == Duplicates(rows)
  {
    var filenameSet: set<string> := {};
    duplicates := [];
    for i := 0 to |rows|
      invariant filenameSet == Filenames(rows[..i])
      invariant duplicates == Duplicates(rows[..i])
    {
      var name := rows[i].filename;
      DuplicatesNext(rows, i);
      if name in filenameSet {
        if name !in duplicates {
          duplicates := duplicates + [name];
        }
      } else {
        filenameSet := filenameSet + {name};
      }
    }
    assert rows[..|rows|] == rows;
  }

  // ---------------------------------------------------------------- the parser

  /** The index of the first data row: 1 when the first row is a header, else 0. */
  function FirstDataRow(rawData: seq<seq<string>>): (start: nat)
    requires rawData != []
    ensures start <= |rawData|
  {
    if IsHeaderRow(rawData[0]) then 1 else 0
  }

  /** The warnings issued before any data row: one when the header row is skipped. */
  function HeaderWarnings(rawData: seq<seq<string>>): seq<string>
    requires rawData != []
  {
    if IsHeaderRow(rawData[0]) then [HeaderWarning] else []
  }

  /** The body of the row loop for the row numbered `n`: trims the first three cells and
      applies the checks in order, stopping at the first that fails (the code's
      `continue`). Exactly one of `kept` and `error` is present. */
  method CheckRow(row: seq<string>, n: nat, parseFloat: string -> Option<real>,
                  numberText: real -> string)
    returns (kept: Option<CsvRow>, error: Option<string>, warnings: seq<string>)
    ensures kept.Some? <==> RowAcceptable(row, parseFloat)
    ensures error.Some? <==> !RowAcceptable(row, parseFloat)
    ensures kept.Some? ==> kept.value == RowOf(row, parseFloat)
    ensures error.Some? ==> error.value == RowError(row, n, parseFloat)
    ensures warnings == RowWarnings(row, n, parseFloat, numberText)
  {
    if |row| < 3 {
      return None, Some(MissingColumnsError(n)), [];
    }
    kept, error, warnings := CheckCells(Trim(row[0]), Trim(row[1]), Trim(row[2]), n,
                                        parseFloat, numberText);
  }

  /** The checks on the trimmed cells of one row, in the order the code applies them. */
  method CheckCells(filename: string, lengthText: string, widthText: string, n: nat,
                    parseFloat: string -> Option<real>, numberText: real -> string)
    returns (kept: Option<CsvRow>, error: Option<string>, warnings: seq<string>)
    ensures kept.Some? <==> CellsAcceptable(filename, lengthText, widthText, parseFloat)
    ensures error.Some? <==> !CellsAcceptable(filename, lengthText, widthText, parseFloat)
    ensures kept.Some? ==> kept.value == CsvRow(filename, parseFloat(lengthText).value,
                                                parseFloat(widthText).value)
    ensures error.Some? ==>
      error.value == CellsError(filename, lengthText, widthText, n, parseFloat)
    ensures warnings == CellsWarnings(filename, lengthText, widthText, n, parseFloat, numberText)
  {
    kept, error, warnings := None, None, [];
    if filename == "" {
      error := Some(EmptyFilenameError(n));
      return;
    }
    if !IsImageFile(filename) {
      warnings := warnings + [NotImageWarning(n, filename)];
    }
    var length := parseFloat(lengthText);
    if length.None? || length.value <= 0.0 {
      error := Some(BadLengthError(n, lengthText));
      return;
    }
    if length.value > 100.0 {
      warnings := warnings + [LargeLengthWarning(n, length.value, numberText)];
    }
    var width := parseFloat(widthText);
    if width.None? || width.value <= 0.0 {
      error := Some(BadWidthError(n, widthText));
      return;
    }
    if width.value > 100.0 {
      warnings := warnings + [LargeWidthWarning(n, width.value, numberText)];
    }
    kept := Some(CsvRow(filename, length.value, width.value));
  }

  /** The row loop of `validateAndProcessCSV`: every row from `start` on is checked in
      order, its warnings appended to `issued`, its error or its kept row recorded. */
  method CheckRows(rawData: seq<seq<string>>, start: nat, issued: seq<string>,
                   parseFloat: string -> Option<real>, numberText: real -> string)
    returns (validRows: seq<CsvRow>, errors: seq<string>, warnings: seq<string>)
    requires start <= |rawData|
    ensures validRows == KeptRows(rawData, start, |rawData|, parseFloat)
    ensures errors == RowErrors(rawData, start, |rawData|, parseFloat)
    ensures warnings == WarningsAfter(issued, rawData, start, |rawData|, parseFloat, numberText)
  {
    validRows, errors, warnings := [], [], issued;
    for i := start to |rawData|
      invariant validRows == KeptRows(rawData, start, i, parseFloat)
      invariant errors == RowErrors(rawData, start, i, parseFloat)
      invariant warnings == WarningsAfter(issued, rawData, start, i, parseFloat, numberText)
    {
      validRows, errors, warnings :=
        CheckNextRow(rawData, start, i, issued, validRows, errors, warnings, parseFloat, numberText);
    }
  }

  /** One pass of the row loop: the row at index `i` (numbered `i + 1`) is checked, its
      warnings appended, its error or its kept row recorded, extending the lists for the
      rows before it to those for the rows up to it. */
  method CheckNextRow(rawData: seq<seq<string>>, start: nat, i: nat, issued: seq<string>,
                      validRows: seq<CsvRow>, errors: seq<string>, warnings: seq<string>,
                      parseFloat: string -> Option<real>, numberText: real -> string)
    returns (validRows': seq<CsvRow>, errors': seq<string>, warnings': seq<string>)
    requires start <= i < |rawData|
    requires validRows == KeptRows(rawData, start, i, parseFloat)
    requires errors == RowErrors(rawData, start, i, parseFloat)
    requires warnings == WarningsAfter(issued, rawData, start, i, parseFloat, numberText)
    ensures validRows' == KeptRows(rawData, start, i + 1, parseFloat)
    ensures errors' == RowErrors(rawData, start, i + 1, parseFloat)
    ensures warnings' == WarningsAfter(issued, rawData, start, i + 1, parseFloat, numberText)
  {
    var kept, error, rowWarnings := CheckRow(rawData[i], i + 1, parseFloat, numberText);
    validRows', errors', warnings' := validRows, errors, warnings + rowWarnings;
    if error.Some? {
      errors' := errors' + [error.value];
    } else {
      validRows' := validRows' + [kept.value];
    }
  }

  /** `validateAndProcessCSV`. An empty input gives the single error "CSV file is empty".
      Otherwise the header row, if detected, is skipped with one warning; every other
      row is checked in order; then one warning lists the duplicate file names, if any.
      The result is successful exactly when no error was reported. */
  method ValidateAndProcessCsv(rawData: seq<seq<string>>, parseFloat: string -> Option<real>,
                               numberText: real -> string)
    returns (r: CsvParseResult)
    ensures r.success <==> r.errors == []
    ensures rawData == [] ==> r == CsvParseResult(false, [], [EmptyError], [])
    ensures rawData != [] ==>
      var start := FirstDataRow(rawData);
      var data := KeptRows(rawData, start, |rawData|, parseFloat);
      var dups := Duplicates(data);
      && r.data == data
      && r.errors == RowErrors(rawData, start, |rawData|, parseFloat)
      && r.warnings == WarningsAfter(HeaderWarnings(rawData), rawData, start, |rawData|,
                                     parseFloat, numberText) +
                       (if dups == [] then [] else [DuplicateWarning(dups)])
  {
    if |rawData| == 0 {
      return CsvParseResult(false, [], [EmptyError], []);
    }
    var errors: seq<string>;
    var warnings: seq<string> := [];
    var validRows: seq<CsvRow>;

    var startIndex := 0;
    if IsHeaderRow(rawData[0]) {
      startIndex := 1;
      warnings := warnings + [HeaderWarning];
    }
    assert startIndex == FirstDataRow(rawData) && warnings == HeaderWarnings(rawData);

    validRows, errors, warnings := CheckRows(rawData, startIndex, warnings, parseFloat, numberText);

    var duplicates := FindDuplicateFilenames(validRows);
    if |duplicates| > 0 {
      warnings := warnings + [DuplicateWarning(duplicates)];
    }
    r := CsvParseResult(|errors| == 0, validRows, errors, warnings);
  }
}
