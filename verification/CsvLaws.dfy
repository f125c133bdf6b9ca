/** Printing a table and reading it back, line endings, and the order of the columns. */
module CsvLaws {
  import opened Common
  import opened CsvSplit
  import opened CsvReading

  // ----- tables of fields -----

  ghost predicate NonEmptyRows(rows: seq<seq<string>>) {
    forall i :: 0 <= i < |rows| ==> |rows[i]| > 0
  }

  /** A header and rows, one line each, every field in quotes. */
  function PrintTable(header: seq<string>, rows: seq<seq<string>>): seq<string>
    requires |header| > 0 && NonEmptyRows(rows)
  {
    [PrintRow(QuoteAll(header))] + seq(|rows|, i requires 0 <= i < |rows| => PrintRow(QuoteAll(rows[i])))
  }

  /** What a table of fields means: no splitting, trimming of lines or blank lines left. */
  function FieldRows(number: NumberParser, columns: seq<nat>, rows: seq<seq<string>>, from: nat,
      samples: seq<RawSample>): Result<seq<RawSample>, ReadError>
    requires |columns| == |COLUMN_NAMES| && from <= |rows|
    decreases |rows| - from
  {
    if from == |rows| then (if samples == [] then Err(NoDataRows) else Ok(samples))
    else
      match RowSample(number, rows[from], columns, |samples|)
      case Err(name) => Err(NumberInvalid(name, from + 2))
      case Ok(sample) => FieldRows(number, columns, rows, from + 1, samples + [sample])
  }

  function ReadFields(number: NumberParser, header: seq<string>,
      rows: seq<seq<string>>): Result<seq<RawSample>, ReadError> {
    match Locate(header)
    case Err(e) => Err(e)
    case Ok(columns) => FieldRows(number, columns, rows, 0, [])
  }

  /** A printed row begins and ends with a quote. */
  lemma {:induction false} PrintedRowIsQuoted(texts: seq<string>)
    requires |texts| > 0
    ensures var line := PrintRow(QuoteAll(texts));
      |line| >= 2 && line[0] == '"' && line[|line| - 1] == '"'
  {
    var cells := QuoteAll(texts);
    assert PrintCell(cells[0]) == "" + ['"'] + Escaped(texts[0]) + ['"'];
    if |texts| > 1 {
      PrintedRowIsQuoted(texts[1..]);
      assert QuoteAll(texts[1..]) == cells[1..];
    }
  }

  lemma PrintedLineIsKept(texts: seq<string>)
    requires |texts| > 0
    ensures var line := PrintRow(QuoteAll(texts));
      && StripCarriageReturn(line) == line && StripByteOrderMark(line) == line && Trim(line) != ""
      && Split(line) == Ok(texts)
  {
    var line := PrintRow(QuoteAll(texts));
    PrintedRowIsQuoted(texts);
    TrimEmpty(line);
    assert !IsBlank(line[0]);
    SplitQuotedRow(texts);
  }

  lemma {:induction false} PrintedRowsReadBack(number: NumberParser, columns: seq<nat>, header: seq<string>,
      rows: seq<seq<string>>, from: nat, samples: seq<RawSample>)
    requires |header| > 0 && NonEmptyRows(rows) && |columns| == |COLUMN_NAMES| && from <= |rows|
    ensures ReadRows(number, columns, PrintTable(header, rows), from + 1, samples)
         == FieldRows(number, columns, rows, from, samples)
    decreases |rows| - from
  {
    if from < |rows| {
      PrintedLineIsKept(rows[from]);
      assert PrintTable(header, rows)[from + 1] == PrintRow(QuoteAll(rows[from]));
      match RowSample(number, rows[from], columns, |samples|)
      case Err(_) =>
      case Ok(sample) => PrintedRowsReadBack(number, columns, header, rows, from + 1, samples + [sample]);
    }
  }

  /** Reading a printed table gives what its fields mean, errors and line numbers included. */
  lemma PrintedTableReadsBack(number: NumberParser, header: seq<string>, rows: seq<seq<string>>)
    requires |header| > 0 && NonEmptyRows(rows)
    ensures ReadTable(number, PrintTable(header, rows)) == ReadFields(number, header, rows)
  {
    PrintedLineIsKept(header);
    match Locate(header)
    case Err(_) =>
    case Ok(columns) => PrintedRowsReadBack(number, columns, header, rows, 0, []);
  }

  // ----- line endings -----

  /** The same line with or without a carriage return at its end. */
  ghost predicate SameButForEnding(line: string, other: string) {
    StripCarriageReturn(line) == line && (other == line || other == line + "\r")
  }

  lemma {:induction false} RowEndingsDoNotMatter(number: NumberParser, columns: seq<nat>, lines: seq<string>,
      others: seq<string>, from: nat, samples: seq<RawSample>)
    requires |columns| == |COLUMN_NAMES| && from <= |lines| == |others|
    requires forall i :: from <= i < |lines| ==> SameButForEnding(lines[i], others[i])
    ensures ReadRows(number, columns, others, from, samples) == ReadRows(number, columns, lines, from, samples)
    decreases |lines| - from
  {
    if from < |lines| {
      var line := lines[from];
      assert SameButForEnding(line, others[from]);
      EndingIsStripped(line, others[from]);
      if Trim(line) == "" {
        RowEndingsDoNotMatter(number, columns, lines, others, from + 1, samples);
      } else if Split(line).Ok? {
        match RowSample(number, Split(line).value, columns, |samples|)
        case Err(_) =>
        case Ok(sample) => RowEndingsDoNotMatter(number, columns, lines, others, from + 1, samples + [sample]);
      }
    }
  }

  lemma EndingIsStripped(line: string, other: string)
    requires SameButForEnding(line, other)
    ensures StripCarriageReturn(other) == line
  {
    if other != line {
      assert other[|other| - 1] == '\r' && other[..|other| - 1] == line;
    }
  }

  const BYTE_ORDER_MARK := "\U{EF}\U{BB}\U{BF}"

  /** Carriage returns at line ends and a byte order mark before the header change nothing:
      a file reads alike with Unix and with DOS line ends, or any mixture. */
  lemma LineEndingsDoNotMatter(number: NumberParser, lines: seq<string>, others: seq<string>, marked: bool)
    requires |lines| == |others| > 0
    requires forall i :: 1 <= i < |lines| ==> SameButForEnding(lines[i], others[i])
    requires SameButForEnding(lines[0], lines[0]) && StripByteOrderMark(lines[0]) == lines[0]
    requires SameButForEnding(if marked then BYTE_ORDER_MARK + lines[0] else lines[0], others[0])
    ensures ReadTable(number, others) == ReadTable(number, lines)
  {
    EndingIsStripped(if marked then BYTE_ORDER_MARK + lines[0] else lines[0], others[0]);
    assert StripByteOrderMark(StripCarriageReturn(others[0])) == lines[0] by {
      assert (BYTE_ORDER_MARK + lines[0])[3..] == lines[0];
    }
    if Split(lines[0]).Ok? && Locate(Split(lines[0]).value).Ok? {
      RowEndingsDoNotMatter(number, Locate(Split(lines[0]).value).value, lines, others, 1, []);
    }
  }

  // ----- reordering columns -----

  /** p is a permutation of 0..n-1 and q undoes it. */
  ghost predicate Inverse(p: seq<nat>, q: seq<nat>, n: nat) {
    && |p| == |q| == n
    && (forall i :: 0 <= i < n ==> p[i] < n && q[i] < n)
    && (forall i :: 0 <= i < n ==> q[p[i]] == i && p[q[i]] == i)
  }

  function Permuted(row: seq<string>, p: seq<nat>): (out: seq<string>)
    requires forall i :: 0 <= i < |p| ==> p[i] < |row|
    ensures |out| == |p|
  {
    seq(|p|, i requires 0 <= i < |p| => row[p[i]])
  }

  ghost predicate DistinctNames(header: seq<string>) {
    forall i, j :: 0 <= i < j < |header| ==> Trim(header[i]) != Trim(header[j])
  }

  lemma {:induction false} ColumnOfFinds(header: seq<string>, j: nat)
    requires DistinctNames(header) && j < |header|
    ensures ColumnOf(header, Trim(header[j])) == Some(j)
  {
    if j < |header| - 1 {
      ColumnOfFinds(header[..|header| - 1], j);
    }
  }

  lemma {:induction false} ColumnOfMisses(header: seq<string>, name: string)
    requires ColumnOf(header, name).None?
    ensures forall j :: 0 <= j < |header| ==> Trim(header[j]) != name
  {
    if |header| > 0 {
      ColumnOfMisses(header[..|header| - 1], name);
    }
  }

  /** A name is found in the permuted header exactly when it is in the original, at the place
      the permutation sends back. */
  lemma ColumnOfPermuted(header: seq<string>, p: seq<nat>, q: seq<nat>, name: string)
    requires DistinctNames(header) && Inverse(p, q, |header|)
    ensures ColumnOf(header, name) ==
      match ColumnOf(Permuted(header, p), name)
      case None => None
      case Some(i) => Some(p[i])
  {
    var permuted := Permuted(header, p);
    match ColumnOf(permuted, name)
    case Some(i) =>
      assert permuted[i] == header[p[i]];
      ColumnOfFinds(header, p[i]);
    case None =>
      ColumnOfMisses(permuted, name);
      forall j: nat | j < |header| ensures Trim(header[j]) != name {
        assert permuted[q[j]] == header[j];
      }
  }

  /** Column by column, `found` in the permuted header is `columns` in the original. */
  ghost predicate Corresponds(found: seq<nat>, columns: seq<nat>, p: seq<nat>) {
    && |found| == |columns|
    && forall i :: 0 <= i < |found| ==> found[i] < |p| && columns[i] == p[found[i]]
  }

  lemma CorrespondsAppend(found: seq<nat>, columns: seq<nat>, p: seq<nat>, i: nat)
    requires Corresponds(found, columns, p) && i < |p|
    ensures Corresponds(found + [i], columns + [p[i]], p)
  {
  }

  /** Both lookups fail alike, or what they find corresponds. */
  ghost predicate FoundAlike(permuted: Result<seq<nat>, ReadError>, original: Result<seq<nat>, ReadError>,
      p: seq<nat>) {
    match permuted
    case Err(e) => original == Err(e)
    case Ok(found) => original.Ok? && Corresponds(found, original.value, p)
  }

  lemma FoundAlikeStep(headers: seq<string>, header: seq<string>, names: seq<string>, p: seq<nat>, k: nat)
    requires 0 < k <= |names| && |headers| == |p|
    requires FoundAlike(LocateFirst(headers, names, k - 1), LocateFirst(header, names, k - 1), p)
    requires ColumnOf(header, names[k - 1]) ==
      match ColumnOf(headers, names[k - 1])
      case None => None
      case Some(i) => Some(p[i])
    ensures FoundAlike(LocateFirst(headers, names, k), LocateFirst(header, names, k), p)
  {
    if LocateFirst(headers, names, k - 1).Ok? && ColumnOf(headers, names[k - 1]).Some? {
      CorrespondsAppend(LocateFirst(headers, names, k - 1).value, LocateFirst(header, names, k - 1).value, p,
        ColumnOf(headers, names[k - 1]).value);
    }
  }

  lemma {:induction false} LocatePermuted(header: seq<string>, names: seq<string>, p: seq<nat>, q: seq<nat>, k: nat)
    requires DistinctNames(header) && Inverse(p, q, |header|) && k <= |names|
    ensures FoundAlike(LocateFirst(Permuted(header, p), names, k), LocateFirst(header, names, k), p)
  {
    if k > 0 {
      LocatePermuted(header, names, p, q, k - 1);
      ColumnOfPermuted(header, p, q, names[k - 1]);
      FoundAlikeStep(Permuted(header, p), header, names, p, k);
    }
  }

  lemma {:induction false} ParsePermuted(number: NumberParser, row: seq<string>, p: seq<nat>, found: seq<nat>,
      columns: seq<nat>, k: nat)
    requires |found| == |columns| == |COLUMN_NAMES| && k <= |columns| && |row| == |p|
    requires forall i :: 0 <= i < |p| ==> p[i] < |p|
    requires Corresponds(found, columns, p)
    ensures ParseColumns(number, Permuted(row, p), found, k) == ParseColumns(number, row, columns, k)
  {
    if k > 0 {
      ParsePermuted(number, row, p, found, columns, k - 1);
      assert FieldAt(Permuted(row, p), found[k - 1]) == FieldAt(row, columns[k - 1]);
    }
  }

  /** Two data lines with the same fields in another order; or both blank; or both malformed
      in the same way. */
  ghost predicate LinesAgree(a: string, b: string, p: seq<nat>)
    requires forall i :: 0 <= i < |p| ==> p[i] < |p|
  {
    var x, y := StripCarriageReturn(a), StripCarriageReturn(b);
    if Trim(x) == "" then Trim(y) == ""
    else
      Trim(y) != "" &&
      match Split(x)
      case Err(e) => Split(y) == Err(e)
      case Ok(fields) => |fields| == |p| && Split(y) == Ok(Permuted(fields, p))
  }

  lemma SamplePermuted(number: NumberParser, fields: seq<string>, p: seq<nat>, found: seq<nat>, columns: seq<nat>,
      timestamp: nat)
    requires |found| == |columns| == |COLUMN_NAMES| && |fields| == |p|
    requires forall i :: 0 <= i < |p| ==> p[i] < |p|
    requires Corresponds(found, columns, p)
    ensures RowSample(number, Permuted(fields, p), found, timestamp) == RowSample(number, fields, columns, timestamp)
  {
    ParsePermuted(number, fields, p, found, columns, |COLUMN_NAMES|);
  }

  lemma {:induction false} RowsPermuted(number: NumberParser, a: seq<string>, b: seq<string>, p: seq<nat>,
      found: seq<nat>, columns: seq<nat>, from: nat, samples: seq<RawSample>)
    requires |found| == |columns| == |COLUMN_NAMES| && from <= |a| == |b|
    requires forall i :: 0 <= i < |p| ==> p[i] < |p|
    requires Corresponds(found, columns, p)
    requires forall i :: from <= i < |a| ==> LinesAgree(a[i], b[i], p)
    ensures ReadRows(number, found, b, from, samples) == ReadRows(number, columns, a, from, samples)
    decreases |a| - from
  {
    if from < |a| {
      assert LinesAgree(a[from], b[from], p);
      var x := StripCarriageReturn(a[from]);
      if Trim(x) == "" {
        RowsPermuted(number, a, b, p, found, columns, from + 1, samples);
      } else if Split(x).Ok? {
        var fields := Split(x).value;
        SamplePermuted(number, fields, p, found, columns, |samples|);
        match RowSample(number, fields, columns, |samples|)
        case Err(_) =>
        case Ok(sample) => RowsPermuted(number, a, b, p, found, columns, from + 1, samples + [sample]);
      }
    }
  }

  /** The order of the columns does not matter: if one permutation of distinct columns turns
      the header and every data line of one file into those of the other, however they are
      quoted, the two read as the same samples or fail with the same error. */
  lemma ReadingIgnoresColumnOrder(number: NumberParser, a: seq<string>, b: seq<string>, header: seq<string>,
      p: seq<nat>, q: seq<nat>)
    requires DistinctNames(header) && Inverse(p, q, |header|) && |a| == |b| > 0
    requires Split(StripByteOrderMark(StripCarriageReturn(a[0]))) == Ok(header)
    requires Split(StripByteOrderMark(StripCarriageReturn(b[0]))) == Ok(Permuted(header, p))
    requires forall i :: 1 <= i < |a| ==> LinesAgree(a[i], b[i], p)
    ensures ReadTable(number, b) == ReadTable(number, a)
  {
    LocatePermuted(header, COLUMN_NAMES, p, q, |COLUMN_NAMES|);
    match Locate(Permuted(header, p))
    case Err(_) =>
    case Ok(found) => RowsPermuted(number, a, b, p, found, Locate(header).value, 1, []);
  }
}
