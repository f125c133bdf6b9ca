/**
 Reading a table of samples from the lines of a CSV file. Number syntax is a parameter:
 `number` is what strtof makes of a whole trimmed field, or None where it does not parse.
 */
module CsvReading {
  import opened Common
  import opened CsvSplit

  type NumberParser = string -> Option<Reading>

  datatype ReadError =
    | NoHeader
    | HeaderMalformed(split: SplitError)
    | ColumnMissing(name: string)
    | RowMalformed(split: SplitError, lineNo: nat)
    | NumberInvalid(column: string, lineNo: nat)
    | NoDataRows

  /** The columns a sample is made of, in the order they are looked up and parsed. */
  const COLUMN_NAMES: seq<string> := ["D1", "D2", "D3", "D4", "D5", "D6", "D7", "D8", "IMU"]

  function StripCarriageReturn(line: string): string {
    if |line| > 0 && line[|line| - 1] == '\r' then line[..|line| - 1] else line
  }

  /** Bytes EF BB BF at the start of the header. */
  function StripByteOrderMark(line: string): string {
    if |line| >= 3 && line[0] == '\U{EF}' && line[1] == '\U{BB}' && line[2] == '\U{BF}' then line[3..] else line
  }

  /** The last header that trims to the name: later columns overwrite earlier ones. */
  function ColumnOf(headers: seq<string>, name: string): (r: Option<nat>)
    ensures r.Some? ==> r.value < |headers| && Trim(headers[r.value]) == name
  {
    if |headers| == 0 then None
    else if Trim(headers[|headers| - 1]) == name then Some(|headers| - 1)
    else ColumnOf(headers[..|headers| - 1], name)
  }

  /** Column j is the last one whose header trims to the name. */
  ghost predicate IsColumn(headers: seq<string>, name: string, j: nat) {
    && j < |headers| && Trim(headers[j]) == name
    && forall m :: j < m < |headers| ==> Trim(headers[m]) != name
  }

  lemma {:induction false} ColumnOfMeaning(headers: seq<string>, name: string)
    ensures ColumnOf(headers, name).None? ==> forall j :: 0 <= j < |headers| ==> Trim(headers[j]) != name
    ensures ColumnOf(headers, name).Some? ==> IsColumn(headers, name, ColumnOf(headers, name).value)
  {
    if |headers| > 0 {
      ColumnOfMeaning(headers[..|headers| - 1], name);
    }
  }

  /** Where the first k of the named columns are, or the first one that is missing. */
  function LocateFirst(headers: seq<string>, names: seq<string>, k: nat): (r: Result<seq<nat>, ReadError>)
    requires k <= |names|
    ensures r.Ok? ==> |r.value| == k
  {
    if k == 0 then Ok([])
    else
      match LocateFirst(headers, names, k - 1)
      case Err(e) => Err(e)
      case Ok(found) =>
        match ColumnOf(headers, names[k - 1])
        case None => Err(ColumnMissing(names[k - 1]))
        case Some(i) => Ok(found + [i])
  }

  function Locate(headers: seq<string>): (r: Result<seq<nat>, ReadError>)
    ensures r.Ok? ==> |r.value| == |COLUMN_NAMES|
  {
    LocateFirst(headers, COLUMN_NAMES, |COLUMN_NAMES|)
  }

  function ParseFloat(number: NumberParser, text: string): Option<Reading> {
    var s := Trim(text);
    if s == "" then Some(NaN) else number(s)
  }

  function FieldAt(fields: seq<string>, i: nat): string {
    if i < |fields| then fields[i] else ""
  }

  /** The first k readings of a row, or the name of the first column that does not parse. */
  function ParseColumns(number: NumberParser, fields: seq<string>, columns: seq<nat>,
      k: nat): (r: Result<seq<Reading>, string>)
    requires k <= |columns| == |COLUMN_NAMES|
    ensures r.Ok? ==> |r.value| == k
  {
    if k == 0 then Ok([])
    else
      match ParseColumns(number, fields, columns, k - 1)
      case Err(name) => Err(name)
      case Ok(readings) =>
        match ParseFloat(number, FieldAt(fields, columns[k - 1]))
        case None => Err(COLUMN_NAMES[k - 1])
        case Some(x) => Ok(readings + [x])
  }

  /** One row as a sample; its timestamp is the number of samples before it. */
  function RowSample(number: NumberParser, fields: seq<string>, columns: seq<nat>,
      timestamp: nat): Result<RawSample, string>
    requires |columns| == |COLUMN_NAMES|
  {
    match ParseColumns(number, fields, columns, |COLUMN_NAMES|)
    case Err(name) => Err(name)
    case Ok(readings) => Ok(RawSample(timestamp, readings[..RADAR_CHANNELS], readings[RADAR_CHANNELS]))
  }

  /** The samples of lines[from..], appended to those read so far. Line numbers start at 1. */
  function ReadRows(number: NumberParser, columns: seq<nat>, lines: seq<string>, from: nat,
      samples: seq<RawSample>): Result<seq<RawSample>, ReadError>
    requires |columns| == |COLUMN_NAMES| && from <= |lines|
    decreases |lines| - from
  {
    if from == |lines| then (if samples == [] then Err(NoDataRows) else Ok(samples))
    else
      var line := StripCarriageReturn(lines[from]);
      if Trim(line) == "" then ReadRows(number, columns, lines, from + 1, samples)
      else
        match Split(line)
        case Err(e) => Err(RowMalformed(e, from + 1))
        case Ok(fields) =>
          match RowSample(number, fields, columns, |samples|)
          case Err(name) => Err(NumberInvalid(name, from + 1))
          case Ok(sample) => ReadRows(number, columns, lines, from + 1, samples + [sample])
  }

  /** Where the header puts the columns. */
  function HeaderColumns(lines: seq<string>): (r: Result<seq<nat>, ReadError>)
    ensures r.Ok? ==> |r.value| == |COLUMN_NAMES| && |lines| > 0
  {
    if |lines| == 0 then Err(NoHeader)
    else
      match Split(StripByteOrderMark(StripCarriageReturn(lines[0])))
      case Err(e) => Err(HeaderMalformed(e))
      case Ok(headers) => Locate(headers)
  }

  function ReadTable(number: NumberParser, lines: seq<string>): Result<seq<RawSample>, ReadError> {
    match HeaderColumns(lines)
    case Err(e) => Err(e)
    case Ok(columns) => ReadRows(number, columns, lines, 1, [])
  }

  /** The samples read before the first bad line, or all of them. */
  function RowsKept(number: NumberParser, columns: seq<nat>, lines: seq<string>, from: nat, samples: seq<RawSample>)
      : seq<RawSample>
    requires |columns| == |COLUMN_NAMES| && from <= |lines|
    decreases |lines| - from
  {
    if from == |lines| then samples
    else
      var line := StripCarriageReturn(lines[from]);
      if Trim(line) == "" then RowsKept(number, columns, lines, from + 1, samples)
      else
        match Split(line)
        case Err(_) => samples
        case Ok(fields) =>
          match RowSample(number, fields, columns, |samples|)
          case Err(_) => samples
          case Ok(sample) => RowsKept(number, columns, lines, from + 1, samples + [sample])
  }

  /** What is in the caller's list afterwards: it is cleared once the header is understood. */
  function SamplesLeft(number: NumberParser, lines: seq<string>, before: seq<RawSample>): seq<RawSample> {
    match HeaderColumns(lines)
    case Err(_) => before
    case Ok(columns) => RowsKept(number, columns, lines, 1, [])
  }

  ghost predicate ReadsAs(r: Result<seq<RawSample>, ReadError>, samples: seq<RawSample>) {
    r == if samples == [] then Err(NoDataRows) else Ok(samples)
  }

  /** The line at which reading stops: the one the error names, or the end. */
  function StopsAt(r: Result<seq<RawSample>, ReadError>, lines: seq<string>): int {
    match r
    case Err(RowMalformed(_, lineNo)) => lineNo - 1
    case Err(NumberInvalid(_, lineNo)) => lineNo - 1
    case _ => |lines|
  }

  lemma {:induction false} RowsKeptAreThoseBefore(number: NumberParser, columns: seq<nat>, lines: seq<string>,
      from: nat, samples: seq<RawSample>)
    requires |columns| == |COLUMN_NAMES| && from <= |lines|
    ensures var stop := StopsAt(ReadRows(number, columns, lines, from, samples), lines);
      && from <= stop <= |lines|
      && ReadsAs(ReadRows(number, columns, lines[..stop], from, samples),
        RowsKept(number, columns, lines, from, samples))
    decreases |lines| - from
  {
    if from < |lines| {
      var line := StripCarriageReturn(lines[from]);
      if Trim(line) == "" {
        RowsKeptAreThoseBefore(number, columns, lines, from + 1, samples);
      } else if Split(line).Ok? {
        match RowSample(number, Split(line).value, columns, |samples|)
        case Err(_) =>
        case Ok(sample) => RowsKeptAreThoseBefore(number, columns, lines, from + 1, samples + [sample]);
      }
    }
  }

  /** A header error leaves the caller's list alone. After an error in a row it holds exactly
      what reading the lines before that row gives; after success, the result. */
  lemma SamplesLeftAreThoseBefore(number: NumberParser, lines: seq<string>, before: seq<RawSample>)
    ensures HeaderColumns(lines).Err? ==> SamplesLeft(number, lines, before) == before
    ensures HeaderColumns(lines).Ok? ==>
      var stop := StopsAt(ReadTable(number, lines), lines);
      && 1 <= stop <= |lines|
      && ReadsAs(ReadTable(number, lines[..stop]), SamplesLeft(number, lines, before))
  {
    if HeaderColumns(lines).Ok? {
      RowsKeptAreThoseBefore(number, HeaderColumns(lines).value, lines, 1, []);
    }
  }

  // ----- the loops -----

  /** The header map: each trimmed header to its index, later entries winning. */
  method BuildColumnMap(headers: seq<string>) returns (column: map<string, nat>)
    ensures forall name :: name in column <==> ColumnOf(headers, name).Some?
    ensures forall name :: name in column ==> ColumnOf(headers, name) == Some(column[name])
    ensures forall name :: name in column ==> IsColumn(headers, name, column[name])
    ensures forall j :: 0 <= j < |headers| ==> Trim(headers[j]) in column
  {
    column := map[];
    for i := 0 to |headers|
      invariant forall name :: name in column <==> ColumnOf(headers[..i], name).Some?
      invariant forall name :: name in column ==> ColumnOf(headers[..i], name) == Some(column[name])
    {
      assert headers[..i + 1][..i] == headers[..i];
      column := column[Trim(headers[i]) := i];
    }
    assert headers[..|headers|] == headers;
    forall name: string
      ensures name in column ==> IsColumn(headers, name, column[name])
      ensures name !in column ==> forall j :: 0 <= j < |headers| ==> Trim(headers[j]) != name
    {
      ColumnOfMeaning(headers, name);
    }
  }

  method LocateColumns(headers: seq<string>) returns (r: Result<seq<nat>, ReadError>)
    ensures r == Locate(headers)
  {
    var column := BuildColumnMap(headers);
    var columns: seq<nat> := [];
    for k := 0 to |COLUMN_NAMES|
      invariant LocateFirst(headers, COLUMN_NAMES, k) == Ok(columns)
    {
      var name := COLUMN_NAMES[k];
      if name !in column {
        LocateStops(headers, COLUMN_NAMES, k + 1, |COLUMN_NAMES|);
        return Err(ColumnMissing(name));
      }
      columns := columns + [column[name]];
    }
    return Ok(columns);
  }

  lemma {:induction false} LocateStops(headers: seq<string>, names: seq<string>, k: nat, m: nat)
    requires k <= m <= |names| && LocateFirst(headers, names, k).Err?
    ensures LocateFirst(headers, names, m) == LocateFirst(headers, names, k)
  {
    if k < m {
      LocateStops(headers, names, k, m - 1);
    }
  }

  lemma {:induction false} ParseStops(number: NumberParser, fields: seq<string>, columns: seq<nat>, k: nat, m: nat)
    requires k <= m <= |columns| == |COLUMN_NAMES| && ParseColumns(number, fields, columns, k).Err?
    ensures ParseColumns(number, fields, columns, m) == ParseColumns(number, fields, columns, k)
  {
    if k < m {
      ParseStops(number, fields, columns, k, m - 1);
    }
  }

  method ReadRow(number: NumberParser, fields: seq<string>, columns: seq<nat>, timestamp: nat)
      returns (r: Result<RawSample, string>)
    requires |columns| == |COLUMN_NAMES|
    ensures r == RowSample(number, fields, columns, timestamp)
  {
    var readings: seq<Reading> := [];
    for k := 0 to |COLUMN_NAMES|
      invariant ParseColumns(number, fields, columns, k) == Ok(readings)
    {
      var text := if columns[k] < |fields| then fields[columns[k]] else "";
      var value := ParseFloat(number, text);
      if value.None? {
        ParseStops(number, fields, columns, k + 1, |COLUMN_NAMES|);
        return Err(COLUMN_NAMES[k]);
      }
      readings := readings + [value.value];
    }
    return Ok(RawSample(timestamp, readings[..RADAR_CHANNELS], readings[RADAR_CHANNELS]));
  }

  /** CsvReader::read, from the lines of the file and the caller's list. */
  method Read(number: NumberParser, lines: seq<string>, before: seq<RawSample>)
      returns (r: Result<seq<RawSample>, ReadError>, samples: seq<RawSample>)
    ensures r == ReadTable(number, lines)
    ensures samples == SamplesLeft(number, lines, before)
  {
    samples := before;
    if |lines| == 0 {
      return Err(NoHeader), samples;
    }
    var split := SplitLine(StripByteOrderMark(StripCarriageReturn(lines[0])));
    if split.Err? {
      return Err(HeaderMalformed(split.error)), samples;
    }
    var located := LocateColumns(split.value);
    if located.Err? {
      return Err(located.error), samples;
    }
    var columns := located.value;
    samples := [];
    var i := 1;
    while i < |lines|
      invariant 1 <= i <= |lines|
      invariant ReadRows(number, columns, lines, i, samples) == ReadTable(number, lines)
      invariant RowsKept(number, columns, lines, i, samples) == SamplesLeft(number, lines, before)
    {
      var line := StripCarriageReturn(lines[i]);
      if Trim(line) != "" {
        var fields := SplitLine(line);
        if fields.Err? {
          return Err(RowMalformed(fields.error, i + 1)), samples;
        }
        var row := ReadRow(number, fields.value, columns, |samples|);
        if row.Err? {
          return Err(NumberInvalid(row.error, i + 1)), samples;
        }
        samples := samples + [row.value];
      }
      i := i + 1;
    }
    if samples == [] {
      return Err(NoDataRows), samples;
    }
    return Ok(samples), samples;
  }
}
