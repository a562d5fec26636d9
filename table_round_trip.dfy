/**
 * The whole-table round trip between the writer and the reader: parsing
 * what `arrayToCSV` writes gives back the first record's keys as the columns
 * and one row per record, provided no line comes out blank (the reader
 * skips blank lines and trims the whole text) and trimming changes no value.
 */
module TableRoundTrip {
  import opened Wrappers
  import opened Text
  import opened CsvParser
  import opened CsvExport
  import opened RoundTrip

  /** The text of a record's cell as the reader sees it: a missing value is the empty field. */
  function CellValue(rec: Record, key: string): string {
    if key in rec.fields then rec.fields[key] else ""
  }

  /** The cells of one record, one per header, as text. */
  function CellValues(headers: seq<string>, rec: Record): (r: seq<string>)
    ensures |r| == |headers|
    ensures forall k | 0 <= k < |headers| :: r[k] == CellValue(rec, headers[k])
  {
    seq(|headers|, k requires 0 <= k < |headers| => CellValue(rec, headers[k]))
  }

  /** A missing value and an empty one are written alike, so a data line is the escaped cell texts. */
  lemma CellsEscaped(headers: seq<string>, rec: Record)
    ensures Cells(headers, rec) == Escapes(CellValues(headers, rec))
  {
    assert Escape(Some("")) == "";
  }

  predicate Distinct(s: seq<string>) {
    forall i, j | 0 <= i < j < |s| :: s[i] != s[j]
  }

  /**
   * What the round trip needs: at least one record and one header, distinct
   * headers (as `Object.keys` gives them), no line breaks, headers and values
   * that trimming leaves alone, and, for a single column, no empty header and
   * no empty cell (that would make a blank line).
   */
  predicate Exportable(data: seq<Record>) {
    && |data| > 0
    && NoLineBreaks(data)
    && |data[0].keys| >= 1
    && Distinct(data[0].keys)
    && (forall k | 0 <= k < |data[0].keys| :: IsTrimmed(data[0].keys[k]))
    && (forall i, key | 0 <= i < |data| && key in data[i].fields :: IsTrimmed(data[i].fields[key]))
    && (|data[0].keys| == 1 ==>
          data[0].keys[0] != "" && forall i | 0 <= i < |data| :: CellValue(data[i], data[0].keys[0]) != "")
  }

  /** An escaped trimmed value is trimmed, and empty only when the value is. */
  lemma EscapeTrimmed(v: string)
    requires IsTrimmed(v)
    ensures IsTrimmed(Escape(Some(v)))
    ensures Escape(Some(v)) == "" <==> v == ""
  {
    EscapeCases(v);
  }

  /** Gluing two trimmed strings around a visible separator gives a trimmed string. */
  lemma GlueTrimmed(a: string, sep: char, b: string)
    requires IsTrimmed(a) && IsTrimmed(b) && !IsSpace(sep)
    ensures IsTrimmed(a + [sep] + b)
  {
    var s := a + [sep] + b;
    assert s[0] == if |a| > 0 then a[0] else sep;
    assert s[|s| - 1] == if |b| > 0 then b[|b| - 1] else sep;
  }

  lemma {:induction false} JoinTrimmed(parts: seq<string>, sep: char)
    requires !IsSpace(sep)
    requires forall k | 0 <= k < |parts| :: IsTrimmed(parts[k])
    ensures IsTrimmed(Join(parts, sep))
    decreases |parts|
  {
    if |parts| > 1 {
      JoinTrimmed(parts[1..], sep);
      GlueTrimmed(parts[0], sep, Join(parts[1..], sep));
    }
  }

  /** Non-empty trimmed lines joined by any separator, even white space, give a non-empty trimmed text. */
  lemma {:induction false} JoinLinesTrimmed(parts: seq<string>, sep: char)
    requires |parts| >= 1
    requires forall k | 0 <= k < |parts| :: parts[k] != "" && IsTrimmed(parts[k])
    ensures Join(parts, sep) != "" && IsTrimmed(Join(parts, sep))
    decreases |parts|
  {
    if |parts| > 1 {
      JoinLinesTrimmed(parts[1..], sep);
      var rest := Join(parts[1..], sep);
      var s := Join(parts, sep);
      assert s == parts[0] + [sep] + rest;
      assert s[0] == parts[0][0];
      assert s[|s| - 1] == rest[|rest| - 1];
    }
  }

  /** A line of escaped trimmed values is trimmed, and not empty when it has a comma or a non-empty value. */
  lemma LineTrimmed(values: seq<string>)
    requires |values| >= 1
    requires forall k | 0 <= k < |values| :: IsTrimmed(values[k])
    requires |values| == 1 ==> values[0] != ""
    ensures Join(Escapes(values), ',') != ""
    ensures IsTrimmed(Join(Escapes(values), ','))
  {
    var cells := Escapes(values);
    forall k | 0 <= k < |cells| ensures IsTrimmed(cells[k]) {
      EscapeTrimmed(values[k]);
    }
    JoinTrimmed(cells, ',');
    if |values| == 1 {
      EscapeTrimmed(values[0]);
    } else {
      assert Join(cells, ',') == cells[0] + [','] + Join(cells[1..], ',');
    }
  }

  /** Under `Exportable`, data line `i` is a non-empty trimmed line whose fields are the record's cell texts. */
  lemma DataLineShape(data: seq<Record>, i: nat)
    requires Exportable(data) && i < |data|
    ensures DataLines(data[0].keys, data)[i] != ""
    ensures IsTrimmed(DataLines(data[0].keys, data)[i])
    ensures Fields(DataLines(data[0].keys, data)[i]) == CellValues(data[0].keys, data[i])
  {
    var headers := data[0].keys;
    var values := CellValues(headers, data[i]);
    CellsEscaped(headers, data[i]);
    assert DataLines(headers, data)[i] == Join(Escapes(values), ',');
    forall k | 0 <= k < |values| ensures IsTrimmed(values[k]) {
      assert values[k] == CellValue(data[i], headers[k]);
    }
    LineTrimmed(values);
    RoundTripTrimmed(values);
  }

  /** A non-empty trimmed line gives exactly one row, built from its fields. */
  lemma LineRowOne(headers: seq<string>, line: string)
    requires line != "" && IsTrimmed(line)
    ensures LineRows(headers, line) == [RowOf(headers, Fields(line))]
  {
  }

  /** The rows of data lines none of which is blank: one per line, from its fields. */
  function LinesRows(headers: seq<string>, lines: seq<string>): seq<Row>
    decreases |lines|
  {
    if |lines| == 0 then []
    else LinesRows(headers, lines[..|lines| - 1]) + [RowOf(headers, Fields(lines[|lines| - 1]))]
  }

  /** Data lines that are non-empty and trimmed each give exactly one row. */
  lemma {:induction false} DataRowsOfSolidLines(headers: seq<string>, lines: seq<string>)
    requires forall i | 0 <= i < |lines| :: lines[i] != "" && IsTrimmed(lines[i])
    ensures DataRows(headers, lines) == LinesRows(headers, lines)
    decreases |lines|
  {
    if |lines| > 0 {
      var n := |lines|;
      var init := lines[..n - 1];
      assert forall i | 0 <= i < n - 1 :: init[i] == lines[i];
      DataRowsOfSolidLines(headers, init);
      LineRowOne(headers, lines[n - 1]);
    }
  }

  /** The rows the reader should build for these records: each record's cell texts under the headers. */
  function RecordRows(headers: seq<string>, recs: seq<Record>): seq<Row>
    decreases |recs|
  {
    if |recs| == 0 then []
    else RecordRows(headers, recs[..|recs| - 1]) + [RowOf(headers, CellValues(headers, recs[|recs| - 1]))]
  }

  /** Lines whose fields are the records' cell texts give the records' rows. */
  lemma {:induction false} LinesRowsOfRecords(headers: seq<string>, lines: seq<string>, recs: seq<Record>)
    requires |lines| == |recs|
    requires forall i | 0 <= i < |lines| :: Fields(lines[i]) == CellValues(headers, recs[i])
    ensures LinesRows(headers, lines) == RecordRows(headers, recs)
    decreases |lines|
  {
    if |lines| > 0 {
      var n := |lines|;
      assert forall i | 0 <= i < n - 1 :: lines[..n - 1][i] == lines[i] && recs[..n - 1][i] == recs[i];
      LinesRowsOfRecords(headers, lines[..n - 1], recs[..n - 1]);
      assert Fields(lines[n - 1]) == CellValues(headers, recs[n - 1]);
    }
  }

  lemma {:induction false} RecordRowsAt(headers: seq<string>, recs: seq<Record>)
    ensures |RecordRows(headers, recs)| == |recs|
    ensures forall i | 0 <= i < |recs| :: RecordRows(headers, recs)[i] == RowOf(headers, CellValues(headers, recs[i]))
    decreases |recs|
  {
    if |recs| > 0 {
      var n := |recs|;
      var init := recs[..n - 1];
      RecordRowsAt(headers, init);
      var a: seq<Row> := RecordRows(headers, init);
      var b: seq<Row> := [RowOf(headers, CellValues(headers, recs[n - 1]))];
      assert RecordRows(headers, recs) == a + b;
      forall i | 0 <= i < n ensures (a + b)[i] == RowOf(headers, CellValues(headers, recs[i])) {
        if i < n - 1 {
          assert (a + b)[i] == a[i] && init[i] == recs[i];
        } else {
          assert (a + b)[i] == b[0];
        }
      }
    }
  }

  /** `parseCSV` on a trimmed text whose first line has the given fields. */
  lemma ParseLines(text: string, header: string, lines: seq<string>, headers: seq<string>)
    requires Trim(text) == text && Split(text, '\n') == [header] + lines
    requires Fields(header) == headers
    ensures Parse(text) == Success(ParsedCSV(headers, DataRows(headers, lines), |DataRows(headers, lines)|))
  {
    assert ([header] + lines)[1..] == lines;
  }

  /** With distinct headers, each header of a row built from trimmed cells holds its own cell. */
  lemma RowOfTrimmed(headers: seq<string>, values: seq<string>, k: nat)
    requires Distinct(headers) && |values| == |headers| && k < |headers|
    requires IsTrimmed(values[k])
    ensures headers[k] in RowOf(headers, values)
    ensures RowOf(headers, values)[headers[k]] == values[k]
  {
    RowOfAt(headers, values, k);
  }

  /** The lines of the written text: all non-empty and trimmed. */
  lemma LinesShape(data: seq<Record>)
    requires Exportable(data)
    ensures forall k | 0 <= k < |data| + 1 ::
      ([Join(Escapes(data[0].keys), ',')] + DataLines(data[0].keys, data))[k] != ""
      && IsTrimmed(([Join(Escapes(data[0].keys), ',')] + DataLines(data[0].keys, data))[k])
  {
    var headers := data[0].keys;
    var lines := [Join(Escapes(headers), ',')] + DataLines(headers, data);
    LineTrimmed(headers);
    forall k | 0 <= k < |lines| ensures lines[k] != "" && IsTrimmed(lines[k]) {
      if k > 0 {
        assert lines[k] == DataLines(headers, data)[k - 1];
        DataLineShape(data, k - 1);
      }
    }
  }

  /**
   * `parseCSV(arrayToCSV(data))` under `Exportable`: the columns are the
   * first record's keys, there is one row per record, and every row holds
   * the record's value under each column, or `""` where the value is missing.
   */
  lemma ParseArrayToCSV(data: seq<Record>)
    requires Exportable(data)
    ensures Parse(ArrayToCSV(data)).Success?
    ensures Parse(ArrayToCSV(data)).value.columns == data[0].keys
    ensures Parse(ArrayToCSV(data)).value.rowCount == |Parse(ArrayToCSV(data)).value.rows| == |data|
    ensures forall i | 0 <= i < |data| ::
      Parse(ArrayToCSV(data)).value.rows[i] == RowOf(data[0].keys, CellValues(data[0].keys, data[i]))
  {
    var headers := data[0].keys;
    var body := DataLines(headers, data);
    TextTrimmed(data);
    ArrayToCSVLines(data);
    RoundTripTrimmed(headers);
    forall i | 0 <= i < |data|
      ensures body[i] != "" && IsTrimmed(body[i]) && Fields(body[i]) == CellValues(headers, data[i])
    {
      DataLineShape(data, i);
    }
    DataRowsOfSolidLines(headers, body);
    LinesRowsOfRecords(headers, body, data);
    RecordRowsAt(headers, data);
    ParseLines(ArrayToCSV(data), Join(Escapes(headers), ','), body, headers);
  }

  /** The written text is its own trim: its first and last lines are non-empty and trimmed. */
  lemma TextTrimmed(data: seq<Record>)
    requires Exportable(data)
    ensures Trim(ArrayToCSV(data)) == ArrayToCSV(data)
  {
    var headers := data[0].keys;
    var lines := [Join(Escapes(headers), ',')] + DataLines(headers, data);
    LinesShape(data);
    JoinLinesTrimmed(lines, '\n');
  }

  /** Each cell comes back: the value of the record under that header, or `""` where it has none. */
  lemma ParseArrayToCSVCell(data: seq<Record>, i: nat, k: nat)
    requires Exportable(data) && i < |data| && k < |data[0].keys|
    ensures Parse(ArrayToCSV(data)).Success?
    ensures i < |Parse(ArrayToCSV(data)).value.rows|
    ensures data[0].keys[k] in Parse(ArrayToCSV(data)).value.rows[i]
    ensures Parse(ArrayToCSV(data)).value.rows[i][data[0].keys[k]] == CellValue(data[i], data[0].keys[k])
  {
    ParseArrayToCSV(data);
    var headers := data[0].keys;
    assert IsTrimmed(CellValue(data[i], headers[k]));
    RowCell(headers, data[i], Parse(ArrayToCSV(data)).value.rows[i], k);
  }

  lemma RowCell(headers: seq<string>, rec: Record, row: Row, k: nat)
    requires Distinct(headers) && k < |headers|
    requires row == RowOf(headers, CellValues(headers, rec))
    requires IsTrimmed(CellValue(rec, headers[k]))
    ensures headers[k] in row && row[headers[k]] == CellValue(rec, headers[k])
  {
    RowOfTrimmed(headers, CellValues(headers, rec), k);
  }

  /**
   * Outside `Exportable` the trip is lossy: with one column, a record whose
   * value is empty writes a blank last line, which the reader trims away,
   * so two records come back as one row.
   */
  lemma BlankLastRecordLost()
    ensures ArrayToCSV([Record(["a"], map["a" := "x"]), Record(["a"], map["a" := ""])]) == "a\nx\n"
    ensures Parse("a\nx\n").Success? && Parse("a\nx\n").value.rowCount == 1
  {
    BlankLastWritten();
    BlankLastParse();
  }

  lemma BlankLastWritten()
    ensures ArrayToCSV([Record(["a"], map["a" := "x"]), Record(["a"], map["a" := ""])]) == "a\nx\n"
  {
    var data := [Record(["a"], map["a" := "x"]), Record(["a"], map["a" := ""])];
    BlankLastCells(data);
    assert Join(["a", "x", ""], '\n') == "a\nx\n";
  }

  lemma BlankLastCells(data: seq<Record>)
    requires data == [Record(["a"], map["a" := "x"]), Record(["a"], map["a" := ""])]
    ensures Escapes(["a"]) == ["a"] && Join(["a"], ',') == "a"
    ensures DataLines(["a"], data) == ["x", ""]
  {
    assert Cells(["a"], data[0]) == ["x"];
    assert Cells(["a"], data[1]) == [""];
  }

  lemma BlankLastParse()
    ensures Parse("a\nx\n").Success? && Parse("a\nx\n").value.rowCount == 1
  {
    BlankLastTrim();
    BlankLastSplit();
    BlankLastFields();
    assert DataRows(["a"], ["x"]) == LineRows(["a"], "x");
  }

  lemma BlankLastTrim()
    ensures Trim("a\nx\n") == "a\nx"
  {
    assert "a\nx\n" == "a\nx" + "\n";
    TrimTrailingBreak("a\nx");
  }

  /** The reader's `trim` drops a line break after a trimmed text. */
  lemma TrimTrailingBreak(s: string)
    requires s != "" && IsTrimmed(s)
    ensures Trim(s + "\n") == s
  {
    var t := s + "\n";
    assert TrimStart(t) == t;
    assert t[..|t| - 1] == s;
    assert TrimEnd(t) == TrimEnd(s);
  }

  lemma BlankLastSplit()
    ensures Split("a\nx", '\n') == ["a", "x"]
  {
    assert "a\nx" == Join(["a", "x"], '\n');
    SplitJoin(["a", "x"], '\n');
  }

  lemma BlankLastFields()
    ensures Fields("a") == ["a"]
  {
    assert Escapes(["a"]) == ["a"];
    RoundTripTrimmed(["a"]);
  }
}
