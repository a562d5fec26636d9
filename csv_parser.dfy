/**
 * The CSV reader of the enrichment upload (client/src/lib/csvParser.ts):
 * the quote-aware line splitter, the table builder and the column analyzer.
 */
module CsvParser {
  import opened Wrappers
  import opened Text

  /** One data row: column header to cell value. */
  type Row = map<string, string>

  /** `ParsedCSV`: the header in order, the data rows, and their number. */
  datatype ParsedCSV = ParsedCSV(columns: seq<string>, rows: seq<Row>, rowCount: nat)

  /** The two errors `parseCSV` can throw: "CSV file is empty" and "CSV file has no columns". */
  datatype ParseError = EmptyFile | NoColumns

  // ---------------------------------------------------------------------------
  // Splitting one line into fields
  // ---------------------------------------------------------------------------

  /**
   * The fields the state machine of `parseCSVLine` still produces from
   * position `i` on, given the quote flag and the field being accumulated.
   */
  function Scan(line: string, i: nat, inQuotes: bool, current: string): (r: seq<string>)
    requires i <= |line|
    ensures |r| >= 1
    decreases |line| - i
  {
    if i == |line| then [Trim(current)]
    else if line[i] == '"' then
      if inQuotes && i + 1 < |line| && line[i + 1] == '"' then
        Scan(line, i + 2, inQuotes, current + "\"")
      else
        Scan(line, i + 1, !inQuotes, current)
    else if line[i] == ',' && !inQuotes then
      [Trim(current)] + Scan(line, i + 1, inQuotes, "")
    else
      Scan(line, i + 1, inQuotes, current + [line[i]])
  }

  /** Every field the state machine completes is trimmed. */
  lemma {:induction false} ScanTrimmed(line: string, i: nat, inQuotes: bool, current: string)
    requires i <= |line|
    ensures forall k | 0 <= k < |Scan(line, i, inQuotes, current)| :: IsTrimmed(Scan(line, i, inQuotes, current)[k])
    decreases |line| - i
  {
    if i < |line| {
      if line[i] == '"' {
        if inQuotes && i + 1 < |line| && line[i + 1] == '"' {
          ScanTrimmed(line, i + 2, inQuotes, current + "\"");
        } else {
          ScanTrimmed(line, i + 1, !inQuotes, current);
        }
      } else if line[i] == ',' && !inQuotes {
        ScanTrimmed(line, i + 1, inQuotes, "");
        var rest := Scan(line, i + 1, inQuotes, "");
        assert Scan(line, i, inQuotes, current) == [Trim(current)] + rest;
        assert forall k | 1 <= k < |rest| + 1 :: ([Trim(current)] + rest)[k] == rest[k - 1];
      } else {
        ScanTrimmed(line, i + 1, inQuotes, current + [line[i]]);
      }
    }
  }

  /** The fields `parseCSVLine` returns for `line`: never none, each one trimmed. */
  function Fields(line: string): (r: seq<string>)
    ensures |r| >= 1
    ensures forall k | 0 <= k < |r| :: IsTrimmed(r[k])
  {
    ScanTrimmed(line, 0, false, "");
    Scan(line, 0, false, "")
  }

  /** `parseCSVLine`: one pass over the characters with a quote flag and an accumulator. */
  method ParseLine(line: string) returns (result: seq<string>)
    ensures result == Fields(line)
  {
    result := [];
    var current := "";
    var inQuotes := false;
    var i := 0;
    while i < |line|
      invariant 0 <= i <= |line|
      invariant result + Scan(line, i, inQuotes, current) == Fields(line)
      decreases |line| - i
    {
      var c := line[i];
      if c == '"' {
        if inQuotes && i + 1 < |line| && line[i + 1] == '"' {
          ScanEscapedQuote(line, i, inQuotes, current);
          current := current + "\"";   // an escaped quote
          i := i + 1;                  // skip its second half
        } else {
          ScanToggle(line, i, inQuotes, current);
          inQuotes := !inQuotes;
        }
      } else if c == ',' && !inQuotes {
        ScanComma(line, i, inQuotes, current);
        AppendAssoc(result, [Trim(current)], Scan(line, i + 1, inQuotes, ""));
        result := result + [Trim(current)];
        current := "";
      } else {
        ScanChar(line, i, inQuotes, current);
        current := current + [c];
      }
      i := i + 1;
    }
    result := result + [Trim(current)];
  }

  // One step of the state machine, case by case.

  /** Inside quotes, a doubled quote is one literal quote. */
  lemma ScanEscapedQuote(line: string, i: nat, inQuotes: bool, current: string)
    requires i + 1 < |line| && line[i] == '"' && line[i + 1] == '"' && inQuotes
    ensures Scan(line, i, inQuotes, current) == Scan(line, i + 2, inQuotes, current + "\"")
  {
  }

  /** Any other quote character toggles the quote state and is dropped. */
  lemma ScanToggle(line: string, i: nat, inQuotes: bool, current: string)
    requires i < |line| && line[i] == '"' && !(inQuotes && i + 1 < |line| && line[i + 1] == '"')
    ensures Scan(line, i, inQuotes, current) == Scan(line, i + 1, !inQuotes, current)
  {
  }

  /** A comma outside quotes completes the field. */
  lemma ScanComma(line: string, i: nat, inQuotes: bool, current: string)
    requires i < |line| && line[i] == ',' && !inQuotes
    ensures Scan(line, i, inQuotes, current) == [Trim(current)] + Scan(line, i + 1, inQuotes, "")
  {
  }

  /** Every other character is added to the field. */
  lemma ScanChar(line: string, i: nat, inQuotes: bool, current: string)
    requires i < |line| && line[i] != '"' && !(line[i] == ',' && !inQuotes)
    ensures Scan(line, i, inQuotes, current) == Scan(line, i + 1, inQuotes, current + [line[i]])
  {
  }

  lemma AppendAssoc<T>(a: seq<T>, b: seq<T>, c: seq<T>)
    ensures a + (b + c) == (a + b) + c
  {
  }

  /** The number of commas the splitter reads as field separators, i.e. while outside quotes. */
  function Separators(line: string, i: nat, inQuotes: bool): nat
    requires i <= |line|
    decreases |line| - i
  {
    if i == |line| then 0
    else if line[i] == '"' then
      if inQuotes && i + 1 < |line| && line[i + 1] == '"' then Separators(line, i + 2, inQuotes)
      else Separators(line, i + 1, !inQuotes)
    else if line[i] == ',' && !inQuotes then 1 + Separators(line, i + 1, inQuotes)
    else Separators(line, i + 1, inQuotes)
  }

  lemma {:induction false} ScanLength(line: string, i: nat, inQuotes: bool, current: string)
    requires i <= |line|
    ensures |Scan(line, i, inQuotes, current)| == 1 + Separators(line, i, inQuotes)
    decreases |line| - i
  {
    if i < |line| {
      if line[i] == '"' {
        if inQuotes && i + 1 < |line| && line[i + 1] == '"' {
          ScanLength(line, i + 2, inQuotes, current + "\"");
        } else {
          ScanLength(line, i + 1, !inQuotes, current);
        }
      } else if line[i] == ',' && !inQuotes {
        ScanLength(line, i + 1, inQuotes, "");
      } else {
        ScanLength(line, i + 1, inQuotes, current + [line[i]]);
      }
    }
  }

  /** A line has exactly one more field than it has commas outside quotes. */
  lemma FieldCount(line: string)
    ensures |Fields(line)| == 1 + Separators(line, 0, false)
  {
    ScanLength(line, 0, false, "");
  }

  /** `[cur + ps[0]] + ps[1..]`: glue what is already accumulated onto the first piece. */
  function Prepend(cur: string, ps: seq<string>): seq<string>
    requires |ps| >= 1
  {
    [cur + ps[0]] + ps[1..]
  }

  /** `ps.map(p => p.trim())`. */
  function TrimAll(ps: seq<string>): (r: seq<string>)
    ensures |r| == |ps|
    decreases |ps|
  {
    if |ps| == 0 then [] else [Trim(ps[0])] + TrimAll(ps[1..])
  }

  lemma {:induction false} ScanWithoutQuotes(line: string, i: nat, current: string)
    requires i <= |line|
    requires '"' !in line[i..]
    ensures Scan(line, i, false, current) == TrimAll(Prepend(current, Split(line[i..], ',')))
    decreases |line| - i
  {
    var rest := line[i..];
    if i == |line| {
      assert Prepend(current, Split(rest, ',')) == [current] by {
        assert rest == [];
        assert current + "" == current;
      }
    } else {
      assert rest[1..] == line[i + 1..] && line[i] == rest[0];
      if line[i] == ',' {
        ScanWithoutQuotes(line, i + 1, "");
        PrependAtComma(current, rest);
      } else {
        ScanWithoutQuotes(line, i + 1, current + [line[i]]);
        PrependAtChar(current, rest);
      }
    }
  }

  lemma PrependAtComma(current: string, rest: string)
    requires |rest| > 0 && rest[0] == ','
    ensures TrimAll(Prepend(current, Split(rest, ','))) == [Trim(current)] + TrimAll(Prepend("", Split(rest[1..], ',')))
  {
    var tail := Split(rest[1..], ',');
    assert Prepend("", tail) == tail by {
      assert "" + tail[0] == tail[0];
    }
    var glued := Prepend(current, Split(rest, ','));
    assert glued == [current] + tail by {
      assert Split(rest, ',') == [""] + tail;
      assert current + "" == current;
    }
    assert glued[0] == current && glued[1..] == tail;
  }

  lemma PrependAtChar(current: string, rest: string)
    requires |rest| > 0 && rest[0] != ','
    ensures Prepend(current, Split(rest, ',')) == Prepend(current + [rest[0]], Split(rest[1..], ','))
  {
    GlueChar(current, rest[0], Split(rest, ','), Split(rest[1..], ','));
  }

  /** Moving one character from the first piece onto the accumulator. */
  lemma GlueChar(current: string, c: char, ps: seq<string>, tail: seq<string>)
    requires |tail| >= 1 && ps == [[c] + tail[0]] + tail[1..]
    ensures Prepend(current, ps) == Prepend(current + [c], tail)
  {
    assert ps[0] == [c] + tail[0] && ps[1..] == tail[1..];
    assert current + ps[0] == (current + [c]) + tail[0];
  }

  /** On a line without quote characters the splitter is a plain `split(',')` followed by trimming. */
  lemma FieldsWithoutQuotes(line: string)
    requires '"' !in line
    ensures Fields(line) == TrimAll(Split(line, ','))
  {
    assert line[0..] == line;
    ScanWithoutQuotes(line, 0, "");
    var ps := Split(line, ',');
    assert "" + ps[0] == ps[0];
    assert Prepend("", ps) == ps;
  }

  // ---------------------------------------------------------------------------
  // Building the table
  // ---------------------------------------------------------------------------

  /** `values[index]?.trim() || ''`: the cell for header position `k`. */
  function ValueAt(values: seq<string>, k: nat): (r: string)
    ensures IsTrimmed(r)
    ensures k >= |values| ==> r == ""
    ensures k < |values| && IsTrimmed(values[k]) ==> r == values[k]
  {
    if k < |values| then Trim(values[k]) else ""
  }

  /**
   * The row object `headers.forEach((header, index) => row[header] = ...)`
   * builds: written in header order, so a repeated header keeps its last cell.
   */
  function RowOf(headers: seq<string>, values: seq<string>): (row: Row)
    ensures row.Keys == set h | h in headers
    decreases |headers|
  {
    if |headers| == 0 then map[]
    else
      var init := headers[..|headers| - 1];
      assert (set h | h in headers) == (set h | h in init) + {headers[|headers| - 1]} by {
        assert headers == init + [headers[|headers| - 1]];
      }
      RowOf(init, values)[headers[|headers| - 1] := ValueAt(values, |headers| - 1)]
  }

  /** Each header holds the cell of its last occurrence; missing cells are `""`, extra cells are dropped. */
  lemma {:induction false} RowOfAt(headers: seq<string>, values: seq<string>, k: nat)
    requires k < |headers|
    requires forall j | k < j < |headers| :: headers[j] != headers[k]
    ensures RowOf(headers, values)[headers[k]] == ValueAt(values, k)
    decreases |headers|
  {
    if k < |headers| - 1 {
      var init := headers[..|headers| - 1];
      RowOfAt(init, values, k);
    }
  }

  /** The rows one data line contributes: none when the trimmed line is blank. */
  function LineRows(headers: seq<string>, line: string): seq<Row> {
    var t := Trim(line);
    if t == "" then [] else [RowOf(headers, Fields(t))]
  }

  /** The rows of the data lines, in order. */
  function DataRows(headers: seq<string>, lines: seq<string>): seq<Row>
    decreases |lines|
  {
    if |lines| == 0 then []
    else DataRows(headers, lines[..|lines| - 1]) + LineRows(headers, lines[|lines| - 1])
  }

  lemma DataRowsSnoc(headers: seq<string>, lines: seq<string>, line: string)
    ensures DataRows(headers, lines + [line]) == DataRows(headers, lines) + LineRows(headers, line)
  {
    assert (lines + [line])[..|lines|] == lines;
  }

  lemma DataRowsExtend(headers: seq<string>, lines: seq<string>, i: nat)
    requires 1 <= i < |lines|
    ensures DataRows(headers, lines[1..i + 1]) == DataRows(headers, lines[1..i]) + LineRows(headers, lines[i])
  {
    assert lines[1..i + 1] == lines[1..i] + [lines[i]];
    DataRowsSnoc(headers, lines[1..i], lines[i]);
  }

  /** `parseCSV` as the source writes it, with its two error branches. */
  function Parse(text: string): Result<ParsedCSV, ParseError> {
    var lines := Split(Trim(text), '\n');
    if |lines| == 0 then Failure(EmptyFile)
    else
      var headers := Fields(lines[0]);
      if |headers| == 0 then Failure(NoColumns)
      else
        var rows := DataRows(headers, lines[1..]);
        Success(ParsedCSV(headers, rows, |rows|))
  }

  /** `headers.forEach((header, index) => { row[header] = values[index]?.trim() || ''; })`. */
  method BuildRow(headers: seq<string>, values: seq<string>) returns (row: Row)
    ensures row == RowOf(headers, values)
  {
    row := map[];
    var k := 0;
    while k < |headers|
      invariant 0 <= k <= |headers|
      invariant row == RowOf(headers[..k], values)
    {
      assert headers[..k + 1][..k] == headers[..k];
      row := row[headers[k] := ValueAt(values, k)];
      k := k + 1;
    }
    assert headers[..|headers|] == headers;
  }

  /** One pass of the data-line loop: a blank line is skipped, any other becomes one row. */
  method ParseDataLine(headers: seq<string>, raw: string) returns (lineRows: seq<Row>)
    ensures lineRows == LineRows(headers, raw)
  {
    var line := Trim(raw);
    if line == "" {
      lineRows := [];
    } else {
      var values := ParseLine(line);
      var row := BuildRow(headers, values);
      lineRows := [row];
    }
  }

  /** The `for` loop of `parseCSV` over the data lines `lines[1..]`. */
  method ParseDataLines(headers: seq<string>, lines: seq<string>) returns (rows: seq<Row>)
    requires |lines| >= 1
    ensures rows == DataRows(headers, lines[1..])
  {
    rows := [];
    var i := 1;
    while i < |lines|
      invariant 1 <= i <= |lines|
      invariant rows == DataRows(headers, lines[1..i])
    {
      var lineRows := ParseDataLine(headers, lines[i]);
      DataRowsExtend(headers, lines, i);
      rows := rows + lineRows;
      i := i + 1;
    }
    assert lines[1..|lines|] == lines[1..];
  }

  /** `parseCSV`: the header, then one row per non-blank data line. It never throws. */
  method ParseCSV(text: string) returns (parsed: ParsedCSV)
    ensures Parse(text) == Success(parsed)
  {
    var lines := Split(Trim(text), '\n');
    var headers := ParseLine(lines[0]);
    var rows := ParseDataLines(headers, lines);
    parsed := ParsedCSV(headers, rows, |rows|);
  }

  /** The number of lines that are not blank once trimmed. */
  function NonBlankLines(lines: seq<string>): nat
    decreases |lines|
  {
    if |lines| == 0 then 0
    else NonBlankLines(lines[..|lines| - 1]) + (if Trim(lines[|lines| - 1]) == "" then 0 else 1)
  }

  /** Blank lines produce no row, every other data line exactly one, and each row has exactly the header's keys. */
  lemma {:induction false} DataRowsShape(headers: seq<string>, lines: seq<string>)
    ensures |DataRows(headers, lines)| == NonBlankLines(lines)
    ensures forall j | 0 <= j < |DataRows(headers, lines)| :: DataRows(headers, lines)[j].Keys == set h | h in headers
    decreases |lines|
  {
    if |lines| > 0 {
      var init := lines[..|lines| - 1];
      var last := lines[|lines| - 1];
      DataRowsShape(headers, init);
      LineRowsShape(headers, last);
      var a: seq<Row> := DataRows(headers, init);
      var b: seq<Row> := LineRows(headers, last);
      assert DataRows(headers, lines) == a + b;
      forall j | 0 <= j < |a + b| ensures (a + b)[j].Keys == (set h | h in headers) {
        if j < |a| {
          assert (a + b)[j] == a[j];
        } else {
          assert (a + b)[j] == b[j - |a|];
        }
      }
    }
  }

  /** One data line gives no row when blank and one row with the header's keys otherwise. */
  lemma LineRowsShape(headers: seq<string>, line: string)
    ensures |LineRows(headers, line)| == if Trim(line) == "" then 0 else 1
    ensures forall j | 0 <= j < |LineRows(headers, line)| :: LineRows(headers, line)[j].Keys == set h | h in headers
  {
  }

  /** `parseCSV` never reaches its error branches; its rows match its header and its count. */
  lemma ParseShape(text: string)
    ensures Parse(text).Success?
    ensures var p := Parse(text).value;
      var lines := Split(Trim(text), '\n');
      && p.columns == Fields(lines[0])
      && |p.columns| >= 1
      && p.rowCount == |p.rows| == NonBlankLines(lines[1..])
      && forall j | 0 <= j < |p.rows| :: p.rows[j].Keys == set h | h in p.columns
  {
    var lines := Split(Trim(text), '\n');
    DataRowsShape(Fields(lines[0]), lines[1..]);
  }

  /** Text that is empty or all white space parses to a single empty column and no rows. */
  lemma ParseBlankText(text: string)
    requires AllSpace(text)
    ensures Parse(text) == Success(ParsedCSV([""], [], 0))
  {
    TrimEmpty(text);
    assert Split("", '\n') == [""];
    assert Fields("") == Scan("", 0, false, "") == [Trim("")];
  }

  // ---------------------------------------------------------------------------
  // Column analysis
  // ---------------------------------------------------------------------------

  /** `ColumnData`: statistics of one column. */
  datatype ColumnData = ColumnData(name: string, values: seq<string>, nonEmptyCount: nat, completeness: nat, samples: seq<string>)

  /** `row[columnName] || ''`. */
  function Lookup(row: Row, key: string): string {
    if key in row then row[key] else ""
  }

  /** `values.filter(v => v.trim() !== '')`, in order. */
  function NonBlank(values: seq<string>): (r: seq<string>)
    ensures |r| <= |values|
    ensures forall k | 0 <= k < |r| :: !IsBlank(r[k])
    ensures forall x | x in r :: x in values
    decreases |values|
  {
    if |values| == 0 then []
    else
      var rest := NonBlank(values[1..]);
      if IsBlank(values[0]) then rest else [values[0]] + rest
  }

  /** The filter keeps every non-blank value. */
  lemma {:induction false} NonBlankKeeps(values: seq<string>, k: nat)
    requires k < |values| && !IsBlank(values[k])
    ensures values[k] in NonBlank(values)
    decreases |values|
  {
    if k > 0 {
      assert values[1..][k - 1] == values[k];
      NonBlankKeeps(values[1..], k - 1);
    }
  }

  /** The filter drops nothing exactly when no value is blank. */
  lemma {:induction false} NonBlankAll(values: seq<string>)
    ensures |NonBlank(values)| == |values| <==> forall k | 0 <= k < |values| :: !IsBlank(values[k])
    decreases |values|
  {
    if |values| > 0 {
      NonBlankAll(values[1..]);
      assert forall k | 1 <= k < |values| :: values[1..][k - 1] == values[k];
    }
  }

  /** Filtering distributes over concatenation: the order of rows is kept. */
  lemma {:induction false} NonBlankAppend(a: seq<string>, b: seq<string>)
    ensures NonBlank(a + b) == NonBlank(a) + NonBlank(b)
    decreases |a|
  {
    if |a| > 0 {
      assert (a + b)[1..] == a[1..] + b;
      NonBlankAppend(a[1..], b);
    } else {
      assert a + b == b;
    }
  }

  /** `Math.round(count / total * 100)` as integer round-half-up: the nearest whole percentage, ties upward. */
  function Percent(count: nat, total: nat): (p: nat)
    requires total > 0
    ensures -(total as int) <= 200 * count - 2 * (total * p) < total
    ensures count <= total ==> p <= 100
    ensures count == total ==> p == 100
    ensures count == 0 ==> p == 0
  {
    var a := 200 * count + total;
    var d := 2 * total;
    var p := a / d;
    DivMod(a, d);
    PercentBounds(count, total, p, a % d);
    p
  }

  lemma DivMod(a: int, d: int)
    requires d > 0
    ensures a == d * (a / d) + a % d && 0 <= a % d < d
  {
  }

  lemma PercentBounds(count: nat, total: nat, p: int, r: int)
    requires total > 0 && 0 <= r < 2 * total
    requires 200 * count + total == 2 * total * p + r
    ensures -(total as int) <= 200 * count - 2 * (total * p) < total
    ensures count <= total ==> p <= 100
    ensures count == total ==> p == 100
    ensures count == 0 ==> p == 0
  {
    var tp := total * p;
    assert 2 * total * p == 2 * tp;
    if p >= 101 {
      MulMonotone(total, 101, p);
    }
    if p <= 99 {
      MulMonotone(total, p, 99);
    }
    if p >= 1 {
      MulMonotone(total, 1, p);
    }
  }

  lemma MulMonotone(t: nat, a: int, b: int)
    requires a <= b
    ensures t * a <= t * b
  {
    var d := b - a;
    assert t * b == t * a + t * d;
  }

  function Min(a: nat, b: nat): nat {
    if a <= b then a else b
  }

  /** `rows.map(row => row[columnName] || '')`. */
  function ColumnValues(columnName: string, rows: seq<Row>): (values: seq<string>)
    ensures |values| == |rows|
    ensures forall i | 0 <= i < |rows| :: values[i] == Lookup(rows[i], columnName)
    decreases |rows|
  {
    if |rows| == 0 then []
    else [Lookup(rows[0], columnName)] + ColumnValues(columnName, rows[1..])
  }

  /** `nonEmptyValues.slice(0, 4)`: the first four non-blank values, in order. */
  function Samples(values: seq<string>): (r: seq<string>)
    ensures |r| == Min(4, |NonBlank(values)|)
    ensures r <= NonBlank(values)
  {
    var nonEmpty := NonBlank(values);
    nonEmpty[..Min(4, |nonEmpty|)]
  }

  /** `analyzeColumn`: the column's cells, how many are not blank, the completeness percentage, the first samples. */
  function AnalyzeColumn(columnName: string, rows: seq<Row>): (c: ColumnData)
    ensures c.name == columnName
    ensures c.values == ColumnValues(columnName, rows)
    ensures c.nonEmptyCount == |NonBlank(c.values)| <= |rows|
    ensures c.samples == Samples(c.values)
    ensures c.completeness <= 100
    ensures |rows| == 0 ==> c.completeness == 0
    ensures c.nonEmptyCount == 0 ==> c.completeness == 0
    ensures |rows| > 0 && c.nonEmptyCount == |rows| ==> c.completeness == 100
    ensures |rows| > 0 ==> -|rows| <= 200 * c.nonEmptyCount - 2 * (|rows| * c.completeness) < |rows|
  {
    var values := ColumnValues(columnName, rows);
    var nonEmpty := NonBlank(values);
    ColumnData(
      columnName,
      values,
      |nonEmpty|,
      if |rows| > 0 then Percent(|nonEmpty|, |rows|) else 0,
      Samples(values))
  }

  /** Every cell of the column is filled exactly when the non-blank count is the row count, and then completeness is 100. */
  lemma FullColumn(columnName: string, rows: seq<Row>)
    ensures var c := AnalyzeColumn(columnName, rows);
      (c.nonEmptyCount == |rows| <==> forall i | 0 <= i < |rows| :: !IsBlank(Lookup(rows[i], columnName)))
  {
    NonBlankAll(ColumnValues(columnName, rows));
  }

  /** The samples are non-blank, and there are fewer than four only when the column has fewer non-blank cells. */
  lemma SamplesShape(values: seq<string>)
    ensures forall k | 0 <= k < |Samples(values)| :: !IsBlank(Samples(values)[k])
    ensures |Samples(values)| < 4 ==> Samples(values) == NonBlank(values)
  {
    var s := Samples(values);
    var nb := NonBlank(values);
    forall k | 0 <= k < |s| ensures !IsBlank(s[k]) {
      assert s[k] == nb[k];
    }
  }

  /** The cells of a column split along any split of the rows. */
  lemma {:induction false} ColumnValuesAppend(columnName: string, a: seq<Row>, b: seq<Row>)
    ensures ColumnValues(columnName, a + b) == ColumnValues(columnName, a) + ColumnValues(columnName, b)
    decreases |a|
  {
    if |a| == 0 {
      assert a + b == b;
    } else {
      assert (a + b)[1..] == a[1..] + b;
      ColumnValuesAppend(columnName, a[1..], b);
    }
  }

  /** The samples depend only on the earliest rows: once a prefix holds four non-blank cells, the rest is ignored. */
  lemma SamplesFromFirstRows(columnName: string, rows: seq<Row>, n: nat)
    requires n <= |rows|
    requires |NonBlank(ColumnValues(columnName, rows[..n]))| >= 4
    ensures Samples(ColumnValues(columnName, rows)) == Samples(ColumnValues(columnName, rows[..n]))
  {
    var pre := ColumnValues(columnName, rows[..n]);
    var post := ColumnValues(columnName, rows[n..]);
    assert rows == rows[..n] + rows[n..];
    ColumnValuesAppend(columnName, rows[..n], rows[n..]);
    NonBlankAppend(pre, post);
    PrefixOfAppend(NonBlank(pre), NonBlank(post), 4);
  }

  lemma PrefixOfAppend(a: seq<string>, b: seq<string>, n: nat)
    requires n <= |a|
    ensures (a + b)[..n] == a[..n]
  {
  }

  /** The example of the test suite: cells a, b, a blank one and c give three non-blank, 75 percent, samples a, b, c. */
  lemma AnalyzeColumnExample(name: string, a: string, b: string, e: string, c: string)
    requires !IsBlank(a) && !IsBlank(b) && IsBlank(e) && !IsBlank(c)
    ensures var col := AnalyzeColumn(name, [map[name := a], map[name := b], map[name := e], map[name := c]]);
      col.nonEmptyCount == 3 && col.completeness == 75 && col.samples == [a, b, c]
  {
    var rows := [map[name := a], map[name := b], map[name := e], map[name := c]];
    ExampleValues(name, a, b, e, c);
    ExampleSamples(a, b, e, c);
    PercentExample();
    var col := AnalyzeColumn(name, rows);
    assert col.values == [a, b, e, c];
    assert col.nonEmptyCount == 3;
  }

  lemma ExampleSamples(a: string, b: string, e: string, c: string)
    requires !IsBlank(a) && !IsBlank(b) && IsBlank(e) && !IsBlank(c)
    ensures |NonBlank([a, b, e, c])| == 3
    ensures Samples([a, b, e, c]) == [a, b, c]
  {
    ExampleNonBlank(a, b, e, c);
    assert [a, b, c][..3] == [a, b, c];
  }

  lemma PercentExample()
    ensures Percent(3, 4) == 75
  {
  }

  lemma ExampleValues(name: string, a: string, b: string, e: string, c: string)
    ensures ColumnValues(name, [map[name := a], map[name := b], map[name := e], map[name := c]]) == [a, b, e, c]
  {
    var rows := [map[name := a], map[name := b], map[name := e], map[name := c]];
    assert rows[1..][1..][1..][1..] == [];
  }

  lemma ExampleNonBlank(a: string, b: string, e: string, c: string)
    requires !IsBlank(a) && !IsBlank(b) && IsBlank(e) && !IsBlank(c)
    ensures NonBlank([a, b, e, c]) == [a, b, c]
  {
    NonBlankCons(c, []);
    NonBlankCons(e, [c]);
    NonBlankCons(b, [e, c]);
    NonBlankCons(a, [b, e, c]);
  }

  lemma NonBlankCons(v: string, rest: seq<string>)
    ensures NonBlank([v] + rest) == if IsBlank(v) then NonBlank(rest) else [v] + NonBlank(rest)
  {
    assert ([v] + rest)[1..] == rest;
  }

  /** `analyzeAllColumns`: one analysis per column, in column order. */
  function AnalyzeAllColumns(parsed: ParsedCSV): (r: seq<ColumnData>)
    ensures |r| == |parsed.columns|
    ensures forall i | 0 <= i < |r| :: r[i].name == parsed.columns[i] && |r[i].values| == |parsed.rows|
    ensures forall i | 0 <= i < |r| :: r[i] == AnalyzeColumn(parsed.columns[i], parsed.rows)
  {
    seq(|parsed.columns|, i requires 0 <= i < |parsed.columns| => AnalyzeColumn(parsed.columns[i], parsed.rows))
  }
}
