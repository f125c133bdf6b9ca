/** What the samples read from a table are, in terms of the table's own text. */
module CsvMeaning {
  import opened Common
  import opened CsvSplit
  import opened CsvReading

  // ----- line ends -----

  /** One carriage return is cut from the end of a line, and nothing else. */
  lemma CarriageReturnMeaning(line: string)
    ensures StripCarriageReturn(line + "\r") == line
    ensures (|line| == 0 || line[|line| - 1] != '\r') ==> StripCarriageReturn(line) == line
  {
    assert (line + "\r")[..|line|] == line;
  }

  /** One byte order mark is cut from the front, and nothing else. */
  lemma ByteOrderMarkMeaning(line: string)
    ensures StripByteOrderMark("\U{EF}\U{BB}\U{BF}" + line) == line
    ensures !("\U{EF}\U{BB}\U{BF}" <= line) ==> StripByteOrderMark(line) == line
  {
    assert ("\U{EF}\U{BB}\U{BF}" + line)[3..] == line;
  }

  // ----- one field -----

  /** What the text of a field reads as: NaN if it is blank, otherwise what the number parser
      makes of the text between its blanks. */
  ghost predicate TextReads(number: NumberParser, text: string, x: Reading) {
    if forall c :: c in text ==> c in " \t\n\r" then x == NaN else number(Trim(text)) == Some(x)
  }

  /** The field of a row under a column; a row that is too short has an empty one. */
  function FieldUnder(fields: seq<string>, j: nat): string {
    if j < |fields| then fields[j] else ""
  }

  ghost predicate FieldReads(number: NumberParser, header: seq<string>, fields: seq<string>, name: string, x: Reading) {
    exists j: nat :: IsColumn(header, name, j) && TextReads(number, FieldUnder(fields, j), x)
  }

  ghost predicate FieldFails(number: NumberParser, header: seq<string>, fields: seq<string>, name: string) {
    exists j: nat :: IsColumn(header, name, j) && number(Trim(FieldUnder(fields, j))) == None
  }

  lemma ParsedTextReads(number: NumberParser, text: string)
    ensures ParseFloat(number, text).Some? ==> TextReads(number, text, ParseFloat(number, text).value)
    ensures ParseFloat(number, text).None? ==> number(Trim(text)) == None
  {
    TrimEmpty(text);
  }

  // ----- one row -----

  /** The named columns fill the sample in this order. */
  ghost predicate RowReads(number: NumberParser, header: seq<string>, fields: seq<string>, x: RawSample) {
    && FieldReads(number, header, fields, "D1", x.radar[0])
    && FieldReads(number, header, fields, "D2", x.radar[1])
    && FieldReads(number, header, fields, "D3", x.radar[2])
    && FieldReads(number, header, fields, "D4", x.radar[3])
    && FieldReads(number, header, fields, "D5", x.radar[4])
    && FieldReads(number, header, fields, "D6", x.radar[5])
    && FieldReads(number, header, fields, "D7", x.radar[6])
    && FieldReads(number, header, fields, "D8", x.radar[7])
    && FieldReads(number, header, fields, "IMU", x.imu)
  }

  lemma {:induction false} LocatedAt(headers: seq<string>, names: seq<string>, k: nat, i: nat)
    requires i < k <= |names| && LocateFirst(headers, names, k).Ok?
    ensures IsColumn(headers, names[i], LocateFirst(headers, names, k).value[i])
  {
    if i == k - 1 {
      ColumnOfMeaning(headers, names[i]);
    } else {
      LocatedAt(headers, names, k - 1, i);
    }
  }

  lemma {:induction false} ParsedAt(number: NumberParser, fields: seq<string>, columns: seq<nat>, k: nat, i: nat)
    requires i < k <= |columns| == |COLUMN_NAMES| && ParseColumns(number, fields, columns, k).Ok?
    ensures TextReads(number, FieldUnder(fields, columns[i]), ParseColumns(number, fields, columns, k).value[i])
  {
    if i == k - 1 {
      ParsedTextReads(number, FieldUnder(fields, columns[i]));
    } else {
      ParsedAt(number, fields, columns, k - 1, i);
    }
  }

  lemma ReadingAt(number: NumberParser, header: seq<string>, columns: seq<nat>, fields: seq<string>, i: nat,
      readings: seq<Reading>)
    requires Locate(header) == Ok(columns) && i < 9
    requires ParseColumns(number, fields, columns, 9) == Ok(readings)
    ensures FieldReads(number, header, fields, COLUMN_NAMES[i], readings[i])
  {
    LocatedAt(header, COLUMN_NAMES, 9, i);
    ParsedAt(number, fields, columns, 9, i);
    assert IsColumn(header, COLUMN_NAMES[i], columns[i]);
  }

  /** A row that reads gives each named column its own place in the sample. */
  lemma RowMeaning(number: NumberParser, header: seq<string>, columns: seq<nat>, fields: seq<string>, timestamp: nat)
    requires Locate(header) == Ok(columns) && RowSample(number, fields, columns, timestamp).Ok?
    ensures var x := RowSample(number, fields, columns, timestamp).value;
      RowReads(number, header, fields, x) && x.timestamp == timestamp
  {
    var readings := ParseColumns(number, fields, columns, 9).value;
    ReadingAt(number, header, columns, fields, 0, readings);
    ReadingAt(number, header, columns, fields, 1, readings);
    ReadingAt(number, header, columns, fields, 2, readings);
    ReadingAt(number, header, columns, fields, 3, readings);
    ReadingAt(number, header, columns, fields, 4, readings);
    ReadingAt(number, header, columns, fields, 5, readings);
    ReadingAt(number, header, columns, fields, 6, readings);
    ReadingAt(number, header, columns, fields, 7, readings);
    ReadingAt(number, header, columns, fields, 8, readings);
  }

  lemma {:induction false} FailedColumn(number: NumberParser, header: seq<string>, columns: seq<nat>,
      fields: seq<string>, k: nat)
    requires Locate(header) == Ok(columns) && k <= 9 && ParseColumns(number, fields, columns, k).Err?
    ensures FieldFails(number, header, fields, ParseColumns(number, fields, columns, k).error)
  {
    if ParseColumns(number, fields, columns, k - 1).Err? {
      FailedColumn(number, header, columns, fields, k - 1);
    } else {
      LocatedAt(header, COLUMN_NAMES, 9, k - 1);
      ParsedTextReads(number, FieldUnder(fields, columns[k - 1]));
      assert IsColumn(header, COLUMN_NAMES[k - 1], columns[k - 1]);
    }
  }

  // ----- the header -----

  /** The nine columns a table must have, in the order they are missed. */
  function Required(): seq<string> {
    ["D1", "D2", "D3", "D4", "D5", "D6", "D7", "D8", "IMU"]
  }

  ghost predicate Has(header: seq<string>, name: string) {
    exists j :: 0 <= j < |header| && Trim(header[j]) == name
  }

  lemma {:induction false} LocateFirstMeaning(header: seq<string>, k: nat)
    requires k <= 9
    ensures LocateFirst(header, COLUMN_NAMES, k).Ok? ==> forall i :: 0 <= i < k ==> Has(header, Required()[i])
    ensures LocateFirst(header, COLUMN_NAMES, k).Err? ==>
      exists i :: 0 <= i < k && !Has(header, Required()[i])
        && LocateFirst(header, COLUMN_NAMES, k).error == ColumnMissing(Required()[i])
        && forall h :: 0 <= h < i ==> Has(header, Required()[h])
  {
    if k > 0 {
      LocateFirstMeaning(header, k - 1);
      ColumnOfMeaning(header, COLUMN_NAMES[k - 1]);
      assert COLUMN_NAMES[k - 1] == Required()[k - 1];
    }
  }

  /** A header is understood if and only if it has all nine columns; otherwise the first of
      them that is missing is reported. */
  lemma HeaderMeaning(header: seq<string>)
    ensures Locate(header).Ok? <==> forall i :: 0 <= i < 9 ==> Has(header, Required()[i])
    ensures Locate(header).Err? ==>
      exists i :: 0 <= i < 9 && !Has(header, Required()[i]) && Locate(header).error == ColumnMissing(Required()[i])
        && forall h :: 0 <= h < i ==> Has(header, Required()[h])
  {
    LocateFirstMeaning(header, 9);
  }

  // ----- the table -----

  /** The lines below n, after the header, that are not blank. */
  function DataLines(lines: seq<string>, n: nat): (rows: seq<nat>)
    requires n <= |lines|
    ensures forall i :: 0 <= i < |rows| ==> 1 <= rows[i] < n
  {
    if n <= 1 then []
    else
      DataLines(lines, n - 1) + if forall c :: c in lines[n - 1] ==> c in " \t\n\r" then [] else [n - 1]
  }

  /** Sample i comes from data line i: its fields are that line's, its timestamp is i. */
  ghost predicate SampleReads(number: NumberParser, header: seq<string>, line: string, i: nat, x: RawSample) {
    && x.timestamp == i
    && match Split(StripCarriageReturn(line))
       case Err(_) => false
       case Ok(fields) => RowReads(number, header, fields, x)
  }

  ghost predicate SamplesRead(number: NumberParser, header: seq<string>, lines: seq<string>, rows: seq<nat>,
      samples: seq<RawSample>)
  {
    && |samples| == |rows|
    && forall i :: 0 <= i < |rows| ==>
         rows[i] < |lines| && SampleReads(number, header, lines[rows[i]], i, samples[i])
  }

  lemma BlankLine(line: string)
    ensures Trim(StripCarriageReturn(line)) == "" <==> forall c :: c in line ==> c in " \t\n\r"
  {
    var s := StripCarriageReturn(line);
    TrimEmpty(s);
    if s != line {
      assert line == s + "\r";
    }
  }

  // Sample by sample, for any relation p between a line, a number and a sample.

  ghost predicate Match(p: (string, nat, RawSample) -> bool, lines: seq<string>, rows: seq<nat>,
      samples: seq<RawSample>) {
    && |samples| == |rows|
    && forall i :: 0 <= i < |rows| ==> rows[i] < |lines| && p(lines[rows[i]], i, samples[i])
  }

  lemma OneMoreMatch(p: (string, nat, RawSample) -> bool, lines: seq<string>, from: nat, samples: seq<RawSample>,
      sample: RawSample)
    requires 1 <= from < |lines| && Trim(StripCarriageReturn(lines[from])) != ""
    requires Match(p, lines, DataLines(lines, from), samples) && p(lines[from], |samples|, sample)
    ensures Match(p, lines, DataLines(lines, from + 1), samples + [sample])
  {
    BlankLine(lines[from]);
    assert DataLines(lines, from + 1) == DataLines(lines, from) + [from];
  }

  function SampleOf(number: NumberParser, columns: seq<nat>, line: string, timestamp: nat): Option<RawSample>
    requires |columns| == |COLUMN_NAMES|
  {
    match Split(StripCarriageReturn(line))
    case Err(_) => None
    case Ok(fields) =>
      match RowSample(number, fields, columns, timestamp)
      case Err(_) => None
      case Ok(sample) => Some(sample)
  }

  /** p holds of whatever sample a line gives. */
  ghost predicate HoldsOfRows(number: NumberParser, columns: seq<nat>, p: (string, nat, RawSample) -> bool)
    requires |columns| == |COLUMN_NAMES|
  {
    forall line: string, timestamp: nat ::
      SampleOf(number, columns, line, timestamp).Some? ==>
        p(line, timestamp, SampleOf(number, columns, line, timestamp).value)
  }

  lemma OneLine(number: NumberParser, columns: seq<nat>, lines: seq<string>, from: nat, samples: seq<RawSample>)
    requires |columns| == |COLUMN_NAMES| && from < |lines|
    ensures var all, x := ReadRows(number, columns, lines, from, samples),
      SampleOf(number, columns, lines[from], |samples|);
      if Trim(StripCarriageReturn(lines[from])) == "" then
        all == ReadRows(number, columns, lines, from + 1, samples)
      else if x.Some? then all == ReadRows(number, columns, lines, from + 1, samples + [x.value])
      else all.Err? && all != Err(NoDataRows)
  {
  }

  ghost predicate AllMatch(p: (string, nat, RawSample) -> bool, lines: seq<string>,
      r: Result<seq<RawSample>, ReadError>)
  {
    match r
    case Ok(all) => Match(p, lines, DataLines(lines, |lines|), all)
    case Err(NoDataRows) => DataLines(lines, |lines|) == []
    case _ => true
  }

  lemma {:induction false} RowsMatch(number: NumberParser, columns: seq<nat>, lines: seq<string>, from: nat,
      samples: seq<RawSample>, p: (string, nat, RawSample) -> bool)
    requires |columns| == |COLUMN_NAMES| && HoldsOfRows(number, columns, p) && 1 <= from <= |lines|
    requires Match(p, lines, DataLines(lines, from), samples)
    ensures AllMatch(p, lines, ReadRows(number, columns, lines, from, samples))
    decreases |lines| - from
  {
    if from < |lines| {
      OneLine(number, columns, lines, from, samples);
      if Trim(StripCarriageReturn(lines[from])) == "" {
        BlankLine(lines[from]);
        RowsMatch(number, columns, lines, from + 1, samples, p);
      } else {
        var x := SampleOf(number, columns, lines[from], |samples|);
        if x.Some? {
          OneMoreMatch(p, lines, from, samples, x.value);
          RowsMatch(number, columns, lines, from + 1, samples + [x.value], p);
        }
      }
    }
  }

  lemma SampleOfReads(number: NumberParser, header: seq<string>, columns: seq<nat>, line: string, timestamp: nat)
    requires Locate(header) == Ok(columns) && SampleOf(number, columns, line, timestamp).Some?
    ensures SampleReads(number, header, line, timestamp, SampleOf(number, columns, line, timestamp).value)
  {
    RowMeaning(number, header, columns, Split(StripCarriageReturn(line)).value, timestamp);
  }

  lemma SamplesMeaning(number: NumberParser, header: seq<string>, columns: seq<nat>, lines: seq<string>)
    requires Locate(header) == Ok(columns) && |lines| > 0
    ensures match ReadRows(number, columns, lines, 1, [])
      case Ok(all) => SamplesRead(number, header, lines, DataLines(lines, |lines|), all)
      case Err(NoDataRows) => DataLines(lines, |lines|) == []
      case _ => true
  {
    var p := (line: string, i: nat, x: RawSample) => SampleReads(number, header, line, i, x);
    forall line: string, timestamp: nat | SampleOf(number, columns, line, timestamp).Some?
      ensures p(line, timestamp, SampleOf(number, columns, line, timestamp).value)
    {
      SampleOfReads(number, header, columns, line, timestamp);
    }
    RowsMatch(number, columns, lines, 1, [], p);
  }

  /** A failed line, and the error that reports it. */
  ghost predicate LineFails(number: NumberParser, header: seq<string>, line: string, name: string) {
    match Split(StripCarriageReturn(line))
    case Err(_) => false
    case Ok(fields) => FieldFails(number, header, fields, name)
  }

  /** What an error in a row says about the lines. */
  ghost predicate ErrorMeans(number: NumberParser, header: seq<string>, lines: seq<string>,
      r: Result<seq<RawSample>, ReadError>)
  {
    match r
    case Err(NumberInvalid(name, lineNo)) =>
      2 <= lineNo <= |lines| && LineFails(number, header, lines[lineNo - 1], name)
    case Err(RowMalformed(e, lineNo)) =>
      2 <= lineNo <= |lines| && Split(StripCarriageReturn(lines[lineNo - 1])) == Err(e)
    case Err(NoDataRows) => true
    case Err(_) => false
    case Ok(_) => true
  }

  /** What the result of reading says about the lines. */
  ghost predicate ResultMeans(number: NumberParser, header: seq<string>, lines: seq<string>,
      r: Result<seq<RawSample>, ReadError>)
  {
    match r
    case Ok(samples) => SamplesRead(number, header, lines, DataLines(lines, |lines|), samples)
    case Err(ColumnMissing(name)) => name in Required() && !Has(header, name)
    case Err(NoDataRows) => DataLines(lines, |lines|) == []
    case Err(_) => ErrorMeans(number, header, lines, r)
  }

  lemma {:induction false} ErrorsMeaning(number: NumberParser, header: seq<string>, columns: seq<nat>,
      lines: seq<string>, from: nat, samples: seq<RawSample>)
    requires Locate(header) == Ok(columns) && 1 <= from <= |lines|
    ensures ErrorMeans(number, header, lines, ReadRows(number, columns, lines, from, samples))
    decreases |lines| - from
  {
    if from < |lines| {
      var line := StripCarriageReturn(lines[from]);
      if Trim(line) == "" {
        ErrorsMeaning(number, header, columns, lines, from + 1, samples);
      } else if Split(line).Ok? {
        match RowSample(number, Split(line).value, columns, |samples|)
        case Err(_) => RowFails(number, header, columns, lines[from], Split(line).value);
        case Ok(sample) => ErrorsMeaning(number, header, columns, lines, from + 1, samples + [sample]);
      }
    }
  }

  lemma RowFails(number: NumberParser, header: seq<string>, columns: seq<nat>, line: string, fields: seq<string>)
    requires Locate(header) == Ok(columns) && Split(StripCarriageReturn(line)) == Ok(fields)
    requires ParseColumns(number, fields, columns, 9).Err?
    ensures LineFails(number, header, line, ParseColumns(number, fields, columns, 9).error)
  {
    FailedColumn(number, header, columns, fields, 9);
  }

  /** What a table that reads means: one sample for each line that is not blank, in order and
      numbered, whose readings are the fields under the columns D1 .. D8 and IMU. And where a
      reading fails: the field under the named column of the named line is no number, or that
      line does not split. */
  lemma TableMeaning(number: NumberParser, lines: seq<string>, header: seq<string>)
    requires |lines| > 0 && Split(StripByteOrderMark(StripCarriageReturn(lines[0]))) == Ok(header)
    ensures ResultMeans(number, header, lines, ReadTable(number, lines))
  {
    HeaderMeaning(header);
    if Locate(header).Ok? {
      SamplesMeaning(number, header, Locate(header).value, lines);
      ErrorsMeaning(number, header, Locate(header).value, lines, 1, []);
    }
  }
}
