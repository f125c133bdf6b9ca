/**
 The quoting automaton of the CSV reader. A line is a sequence of characters without its line
 break. The automaton looks one character ahead to tell a doubled quote from a closing one.
 */
module CsvSplit {
  import opened Common

  datatype SplitError = UnexpectedQuote | UnterminatedQuote

  predicate IsBlank(c: char) {
    c == ' ' || c == '\t' || c == '\n' || c == '\r'
  }

  predicate AllBlank(s: string) {
    forall i :: 0 <= i < |s| ==> IsBlank(s[i])
  }

  function TrimLeft(s: string): string {
    if |s| > 0 && IsBlank(s[0]) then TrimLeft(s[1..]) else s
  }

  function TrimRight(s: string): string {
    if |s| > 0 && IsBlank(s[|s| - 1]) then TrimRight(s[..|s| - 1]) else s
  }

  function Trim(s: string): string {
    TrimRight(TrimLeft(s))
  }

  lemma TrimLeftEmpty(s: string)
    ensures TrimLeft(s) == "" <==> AllBlank(s)
    ensures TrimLeft(s) != "" ==> !IsBlank(TrimLeft(s)[0])
  {
    if |s| > 0 && IsBlank(s[0]) {
      TrimLeftEmpty(s[1..]);
      assert AllBlank(s) <==> AllBlank(s[1..]) by {
        assert forall i :: 1 <= i < |s| ==> s[i] == s[1..][i - 1];
      }
    }
  }

  lemma TrimRightKeepsFirst(s: string)
    requires |s| > 0 && !IsBlank(s[0])
    ensures TrimRight(s) != ""
  {
  }

  lemma BlankMeaning(s: string)
    ensures AllBlank(s) <==> forall c :: c in s ==> c in " \t\n\r"
  {
    if forall c :: c in s ==> c in " \t\n\r" {
      forall i | 0 <= i < |s| ensures IsBlank(s[i]) {
        assert s[i] in s;
      }
    }
  }

  /** Nothing is left exactly when there was nothing but blanks. */
  lemma TrimEmpty(s: string)
    ensures Trim(s) == "" <==> AllBlank(s)
    ensures Trim(s) == "" <==> forall c :: c in s ==> c in " \t\n\r"
  {
    BlankMeaning(s);
    TrimLeftEmpty(s);
    if TrimLeft(s) != "" {
      TrimRightKeepsFirst(TrimLeft(s));
    }
  }

  lemma {:induction false} BlanksLeft(s: string) returns (left: string)
    ensures s == left + TrimLeft(s) && AllBlank(left)
    ensures TrimLeft(s) != "" ==> !IsBlank(TrimLeft(s)[0])
  {
    left := "";
    if |s| > 0 && IsBlank(s[0]) {
      var rest := BlanksLeft(s[1..]);
      left := [s[0]] + rest;
      assert s == [s[0]] + s[1..];
    }
  }

  lemma {:induction false} BlanksRight(s: string) returns (right: string)
    ensures s == TrimRight(s) + right && AllBlank(right)
    ensures TrimRight(s) != "" ==> !IsBlank(TrimRight(s)[|TrimRight(s)| - 1])
  {
    right := "";
    if |s| > 0 && IsBlank(s[|s| - 1]) {
      var rest := BlanksRight(s[..|s| - 1]);
      right := rest + [s[|s| - 1]];
      assert s == s[..|s| - 1] + [s[|s| - 1]];
    }
  }

  /** Only blanks are cut, on both sides, and no blank is left at either end. */
  lemma TrimIsCore(s: string) returns (left: string, right: string)
    ensures s == left + Trim(s) + right
    ensures forall c :: c in left || c in right ==> c in " \t\n\r"
    ensures Trim(s) != "" ==> Trim(s)[0] !in " \t\n\r" && Trim(s)[|Trim(s)| - 1] !in " \t\n\r"
  {
    left := BlanksLeft(s);
    right := BlanksRight(TrimLeft(s));
    if Trim(s) != "" {
      assert TrimLeft(s)[0] == Trim(s)[0];
    }
  }

  // ----- the automaton -----

  /** The rest of the line, given what has been read: whether inside quotes, the field so far
      and the fields before it. */
  function Scan(s: string, quoted: bool, field: string, fields: seq<string>): Result<seq<string>, SplitError>
    decreases |s|
  {
    if |s| == 0 then (if quoted then Err(UnterminatedQuote) else Ok(fields + [field]))
    else if quoted then
      if s[0] == '"' then
        if |s| > 1 && s[1] == '"' then Scan(s[2..], true, field + ['"'], fields)
        else Scan(s[1..], false, field, fields)
      else Scan(s[1..], true, field + [s[0]], fields)
    else
      if s[0] == ',' then Scan(s[1..], false, "", fields + [field])
      else if s[0] == '"' then
        if !AllBlank(field) then Err(UnexpectedQuote) else Scan(s[1..], true, "", fields)
      else Scan(s[1..], false, field + [s[0]], fields)
  }

  function Split(line: string): Result<seq<string>, SplitError> {
    Scan(line, false, "", [])
  }

  function Quotes(s: string): nat {
    if |s| == 0 then 0 else Quotes(s[..|s| - 1]) + if s[|s| - 1] == '"' then 1 else 0
  }

  /** split_line. The quoted flag is the parity of the quotes consumed. */
  method SplitLine(line: string) returns (r: Result<seq<string>, SplitError>)
    ensures r == Split(line)
  {
    var fields: seq<string> := [];
    var field := "";
    var quoted := false;
    var i := 0;
    while i < |line|
      invariant 0 <= i <= |line|
      invariant Scan(line[i..], quoted, field, fields) == Split(line)
      invariant quoted <==> Quotes(line[..i]) % 2 == 1
    {
      var c := line[i];
      assert line[i..][0] == c && line[i..][1..] == line[i + 1..];
      assert line[..i + 1][..i] == line[..i];
      if quoted {
        if c == '"' {
          if i + 1 < |line| && line[i + 1] == '"' {
            assert line[i..][2..] == line[i + 2..] && line[i..][1] == line[i + 1];
            assert line[..i + 2][..i + 1] == line[..i + 1];
            field := field + ['"'];
            i := i + 1;
          } else {
            quoted := false;
          }
        } else {
          field := field + [c];
        }
      } else {
        if c == ',' {
          fields := fields + [field];
          field := "";
        } else if c == '"' {
          TrimEmpty(field);
          if Trim(field) != "" {
            return Err(UnexpectedQuote);
          }
          field := "";
          quoted := true;
        } else {
          field := field + [c];
        }
      }
      i := i + 1;
    }
    if quoted {
      return Err(UnterminatedQuote);
    }
    return Ok(fields + [field]);
  }

  // ----- parity -----

  /** Quotes from the left; the same count as Quotes. */
  function QuotesAhead(s: string): nat {
    if |s| == 0 then 0 else QuotesAhead(s[1..]) + if s[0] == '"' then 1 else 0
  }

  lemma {:induction false} QuotesFromEitherEnd(s: string)
    ensures QuotesAhead(s) == Quotes(s)
  {
    if |s| > 1 {
      QuotesFromEitherEnd(s[1..]);
      QuotesFromEitherEnd(s[..|s| - 1]);
      QuotesFromEitherEnd(s[1..|s| - 1]);
      assert s[1..][..|s| - 2] == s[1..|s| - 1] == s[..|s| - 1][1..];
    } else if |s| == 1 {
      assert s[1..] == [] == s[..0];
    }
  }

  /** Commas preceded by an even number of quotes, starting inside quotes or not. */
  function TopCommas(s: string, quoted: bool): nat {
    if |s| == 0 then 0
    else if s[0] == '"' then TopCommas(s[1..], !quoted)
    else TopCommas(s[1..], quoted) + if s[0] == ',' && !quoted then 1 else 0
  }

  lemma {:induction false} ScanParity(s: string, quoted: bool, field: string, fields: seq<string>)
    requires Scan(s, quoted, field, fields).Ok?
    ensures (QuotesAhead(s) + if quoted then 1 else 0) % 2 == 0
    ensures |Scan(s, quoted, field, fields).value| == |fields| + 1 + TopCommas(s, quoted)
    decreases |s|
  {
    if |s| > 0 {
      var t := s[1..];
      if quoted {
        if s[0] == '"' {
          if |s| > 1 && s[1] == '"' {
            assert t[0] == '"' && t[1..] == s[2..];
            ScanParity(s[2..], true, field + ['"'], fields);
          } else {
            ScanParity(t, false, field, fields);
          }
        } else {
          ScanParity(t, true, field + [s[0]], fields);
        }
      } else if s[0] == ',' {
        ScanParity(t, false, "", fields + [field]);
      } else if s[0] == '"' {
        ScanParity(t, true, "", fields);
      } else {
        ScanParity(t, false, field + [s[0]], fields);
      }
    }
  }

  /** Success means balanced quotes, and one field more than there are commas outside them. */
  lemma SplitParity(line: string)
    requires Split(line).Ok?
    ensures Quotes(line) % 2 == 0
    ensures |Split(line).value| == 1 + TopCommas(line, false)
  {
    ScanParity(line, false, "", []);
    QuotesFromEitherEnd(line);
  }

  /** An unterminated quote is reported only for an odd number of quotes. */
  lemma {:induction false} UnterminatedMeansOdd(s: string, quoted: bool, field: string, fields: seq<string>)
    requires Scan(s, quoted, field, fields) == Err(UnterminatedQuote)
    ensures (QuotesAhead(s) + if quoted then 1 else 0) % 2 == 1
    decreases |s|
  {
    if |s| > 0 {
      var t := s[1..];
      if quoted {
        if s[0] == '"' {
          if |s| > 1 && s[1] == '"' {
            assert t[0] == '"' && t[1..] == s[2..];
            assert QuotesAhead(s) == QuotesAhead(s[2..]) + 2;
            UnterminatedMeansOdd(s[2..], true, field + ['"'], fields);
          } else {
            UnterminatedMeansOdd(t, false, field, fields);
          }
        } else {
          UnterminatedMeansOdd(t, true, field + [s[0]], fields);
        }
      } else if s[0] == ',' {
        UnterminatedMeansOdd(t, false, "", fields + [field]);
      } else if s[0] == '"' {
        UnterminatedMeansOdd(t, true, "", fields);
      } else {
        UnterminatedMeansOdd(t, false, field + [s[0]], fields);
      }
    }
  }

  /** A quote after text that is not all blank is an error, whatever follows and whatever
      fields came before. */
  lemma QuoteInsideFieldIsRefused(text: string, rest: string, fields: seq<string>)
    requires forall c :: c in text ==> c != ',' && c != '"'
    requires exists c :: c in text && c !in " \t\n\r"
    ensures Scan(text + ['"'] + rest, false, "", fields) == Err(UnexpectedQuote)
  {
    ScanPlainText(text, ['"'] + rest, "", fields);
    assert text + (['"'] + rest) == text + ['"'] + rest;
    assert "" + text == text;
    TrimEmpty(text);
  }

  // ----- an automaton without look-ahead -----

  datatype Mode = Plain | InQuotes | JustClosed

  /** Every quote toggles; a quote right after a closing one reopens and stands for itself. */
  function Online(s: string, mode: Mode, field: string, fields: seq<string>): Result<seq<string>, SplitError> {
    if |s| == 0 then (if mode.InQuotes? then Err(UnterminatedQuote) else Ok(fields + [field]))
    else if mode.InQuotes? then
      if s[0] == '"' then Online(s[1..], JustClosed, field, fields)
      else Online(s[1..], InQuotes, field + [s[0]], fields)
    else if mode.JustClosed? && s[0] == '"' then Online(s[1..], InQuotes, field + ['"'], fields)
    else if s[0] == ',' then Online(s[1..], Plain, "", fields + [field])
    else if s[0] == '"' then
      if AllBlank(field) then Online(s[1..], InQuotes, "", fields) else Err(UnexpectedQuote)
    else Online(s[1..], Plain, field + [s[0]], fields)
  }

  lemma {:induction false} ScanIsOnline(s: string, quoted: bool, field: string, fields: seq<string>)
    ensures Scan(s, quoted, field, fields) == Online(s, if quoted then InQuotes else Plain, field, fields)
    decreases |s|
  {
    if |s| > 0 {
      var t := s[1..];
      if quoted {
        if s[0] != '"' {
          ScanIsOnline(t, true, field + [s[0]], fields);
        } else if |s| > 1 && s[1] == '"' {
          assert t[0] == '"' && t[1..] == s[2..];
          ScanIsOnline(s[2..], true, field + ['"'], fields);
        } else {
          ScanIsOnline(t, false, field, fields);
          JustClosedIsPlain(t, field, fields);
        }
      } else if s[0] == ',' {
        ScanIsOnline(t, false, "", fields + [field]);
      } else if s[0] == '"' {
        ScanIsOnline(t, true, "", fields);
      } else {
        ScanIsOnline(t, false, field + [s[0]], fields);
      }
    }
  }

  lemma JustClosedIsPlain(s: string, field: string, fields: seq<string>)
    requires |s| == 0 || s[0] != '"'
    ensures Online(s, JustClosed, field, fields) == Online(s, Plain, field, fields)
  {
  }

  // ----- printing and reading back -----

  /** How a field is written: as it is, or in quotes after some blanks (section 2 of RFC 4180
      has no blanks there). */
  datatype Cell = Bare(text: string) | Quoted(text: string, blanks: string)

  predicate Printable(cell: Cell) {
    match cell
    case Bare(text) => ',' !in text && '"' !in text
    case Quoted(_, blanks) => AllBlank(blanks)
  }

  /** Every quote doubled. */
  function Escaped(text: string): string {
    if |text| == 0 then ""
    else (if text[0] == '"' then ['"', '"'] else [text[0]]) + Escaped(text[1..])
  }

  function PrintCell(cell: Cell): string {
    match cell
    case Bare(text) => text
    case Quoted(text, blanks) => blanks + ['"'] + Escaped(text) + ['"']
  }

  function PrintRow(cells: seq<Cell>): string
    requires |cells| > 0
  {
    if |cells| == 1 then PrintCell(cells[0])
    else PrintCell(cells[0]) + [','] + PrintRow(cells[1..])
  }

  function Texts(cells: seq<Cell>): seq<string> {
    seq(|cells|, i requires 0 <= i < |cells| => cells[i].text)
  }

  lemma {:induction false} ScanPlainText(text: string, rest: string, field: string, fields: seq<string>)
    requires ',' !in text && '"' !in text
    ensures Scan(text + rest, false, field, fields) == Scan(rest, false, field + text, fields)
    decreases |text|
  {
    if |text| == 0 {
      assert text + rest == rest && field + text == field;
    } else {
      var s := text + rest;
      assert s[0] == text[0] && s[1..] == text[1..] + rest;
      ScanPlainText(text[1..], rest, field + [text[0]], fields);
      assert field + [text[0]] + text[1..] == field + text;
    }
  }

  /** After the opening quote, the escaped text and the closing quote yield the text. */
  lemma {:induction false} ScanEscapedText(text: string, rest: string, field: string, fields: seq<string>)
    requires |rest| == 0 || rest[0] != '"'
    ensures Scan(Escaped(text) + ['"'] + rest, true, field, fields) == Scan(rest, false, field + text, fields)
    decreases |text|
  {
    var s := Escaped(text) + ['"'] + rest;
    if |text| == 0 {
      assert s[0] == '"' && s[1..] == rest && field + text == field;
    } else {
      var tail := Escaped(text[1..]) + ['"'] + rest;
      ScanEscapedText(text[1..], rest, field + [text[0]], fields);
      assert field + [text[0]] + text[1..] == field + text;
      if text[0] == '"' {
        assert s == ['"', '"'] + tail;
        assert s[0] == '"' && s[1] == '"' && s[2..] == tail;
      } else {
        assert s == [text[0]] + tail;
        assert s[0] == text[0] && s[1..] == tail;
      }
    }
  }

  lemma ScanCell(cell: Cell, rest: string, fields: seq<string>)
    requires Printable(cell) && (|rest| == 0 || rest[0] == ',')
    ensures Scan(PrintCell(cell) + rest, false, "", fields) == Scan(rest, false, cell.text, fields)
  {
    match cell
    case Bare(text) =>
      ScanPlainText(text, rest, "", fields);
      assert "" + text == text;
    case Quoted(text, blanks) =>
      var body := Escaped(text) + ['"'] + rest;
      assert PrintCell(cell) + rest == blanks + (['"'] + body);
      assert ',' !in blanks && '"' !in blanks;
      ScanPlainText(blanks, ['"'] + body, "", fields);
      assert "" + blanks == blanks;
      assert (['"'] + body)[1..] == body;
      ScanEscapedText(text, rest, "", fields);
      assert "" + text == text;
  }

  lemma {:induction false} ScanRow(cells: seq<Cell>, fields: seq<string>)
    requires |cells| > 0 && forall i :: 0 <= i < |cells| ==> Printable(cells[i])
    ensures Scan(PrintRow(cells), false, "", fields) == Ok(fields + Texts(cells))
    decreases |cells|
  {
    var first := cells[0];
    if |cells| == 1 {
      ScanCell(first, "", fields);
      assert PrintCell(first) + "" == PrintCell(first);
      assert Texts(cells) == [first.text];
    } else {
      var rest := [','] + PrintRow(cells[1..]);
      assert PrintRow(cells) == PrintCell(first) + rest;
      ScanCell(first, rest, fields);
      assert rest[1..] == PrintRow(cells[1..]);
      ScanRow(cells[1..], fields + [first.text]);
      assert fields + [first.text] + Texts(cells[1..]) == fields + Texts(cells);
    }
  }

  /** Round trip: any non-empty list of fields, printed in any of the permitted ways, is read
      back exactly. */
  lemma SplitPrintedRow(cells: seq<Cell>)
    requires |cells| > 0 && forall i :: 0 <= i < |cells| ==> Printable(cells[i])
    ensures Split(PrintRow(cells)) == Ok(Texts(cells))
  {
    ScanRow(cells, []);
    assert [] + Texts(cells) == Texts(cells);
  }

  /** Every list of fields can be printed: quoting is always permitted. */
  function QuoteAll(texts: seq<string>): seq<Cell> {
    seq(|texts|, i requires 0 <= i < |texts| => Quoted(texts[i], ""))
  }

  lemma SplitQuotedRow(texts: seq<string>)
    requires |texts| > 0
    ensures Split(PrintRow(QuoteAll(texts))) == Ok(texts)
  {
    SplitPrintedRow(QuoteAll(texts));
    assert Texts(QuoteAll(texts)) == texts;
  }
}
