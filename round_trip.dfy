/**
 * How the writer of client/src/lib/csv.ts and the line splitter of
 * client/src/lib/csvParser.ts fit together: splitting a line of escaped
 * values gives back the values, trimmed.
 */
module RoundTrip {
  import opened Wrappers
  import opened Text
  import opened CsvParser
  import opened CsvExport

  /** `line` holds `piece` from position `i` on. */
  predicate PieceAt(line: string, i: nat, piece: string) {
    i + |piece| <= |line| && forall k | 0 <= k < |piece| :: line[i + k] == piece[k]
  }

  /** `line` ends with `rest`, which starts at position `i`. */
  predicate RestIs(line: string, i: nat, rest: string) {
    PieceAt(line, i, rest) && i + |rest| == |line|
  }

  lemma PieceTail(line: string, i: nat, piece: string, n: nat)
    requires PieceAt(line, i, piece) && n <= |piece|
    ensures PieceAt(line, i + n, piece[n..])
    ensures forall k | 0 <= k < n :: line[i + k] == piece[k]
  {
    forall k | 0 <= k < |piece| - n ensures line[i + n + k] == piece[n..][k] {
      assert line[i + (n + k)] == piece[n + k];
    }
  }

  /** The first character of a plain piece, and what is left of it. */
  lemma PlainHead(line: string, i: nat, v: string, current: string)
    requires PieceAt(line, i, v) && |v| > 0
    requires ',' !in v && '"' !in v
    ensures i < |line| && line[i] == v[0] && v[0] != ',' && v[0] != '"'
    ensures PieceAt(line, i + 1, v[1..]) && ',' !in v[1..] && '"' !in v[1..]
    ensures (current + [v[0]]) + v[1..] == current + v
  {
    PieceTail(line, i, v, 1);
    assert v[0] in v;
    assert forall c | c in v[1..] :: c in v;
  }

  /** Outside quotes, a value with neither comma nor quote is read into the field as it stands. */
  lemma {:induction false} ScanPlain(line: string, i: nat, v: string, current: string)
    requires PieceAt(line, i, v)
    requires ',' !in v && '"' !in v
    ensures Scan(line, i, false, current) == Scan(line, i + |v|, false, current + v)
    decreases |v|
  {
    if |v| == 0 {
      assert current + v == current;
    } else {
      PlainHead(line, i, v, current);
      ScanChar(line, i, false, current);
      ScanPlain(line, i + 1, v[1..], current + [v[0]]);
    }
  }

  /** A piece made of two parts holds each part at its own position. */
  lemma PieceSplit(line: string, i: nat, a: string, b: string)
    requires PieceAt(line, i, a + b)
    ensures PieceAt(line, i, a) && PieceAt(line, i + |a|, b)
    ensures forall k | 0 <= k < |a| :: line[i + k] == a[k]
    ensures |a| > 0 ==> line[i] == a[0]
    ensures |a| > 1 ==> line[i + 1] == a[1]
    ensures |b| > 0 ==> line[i + |a|] == b[0]
  {
    forall k | 0 <= k < |a| ensures line[i + k] == a[k] {
      assert line[i + k] == (a + b)[k];
    }
    forall k | 0 <= k < |b| ensures line[i + |a| + k] == b[k] {
      assert line[i + (|a| + k)] == (a + b)[|a| + k];
    }
    if |a| > 1 {
      assert line[i + 1] == (a + b)[1];
    }
    if |b| > 0 {
      assert line[i + |a| + 0] == b[0];
    }
  }

  /** The doubled-quote form of a value starting with a quote starts with two quotes. */
  lemma DoubleQuotesHead(v: string)
    requires |v| > 0
    ensures v[0] == '"' ==> DoubleQuotes(v) + "\"" == "\"\"" + (DoubleQuotes(v[1..]) + "\"")
    ensures v[0] != '"' ==> DoubleQuotes(v) + "\"" == [v[0]] + (DoubleQuotes(v[1..]) + "\"")
  {
  }

  /** Position just after the closing quote of the quoted form of `v` that starts at `i`. */
  function QuotedEnd(i: nat, v: string): nat {
    i + |DoubleQuotes(v)| + 1
  }

  /**
   * From position `i` the line holds the doubled-quote form of `v` and one
   * closing quote, and no further quote follows that one.
   */
  predicate QuotedAt(line: string, i: nat, v: string) {
    PieceAt(line, i, DoubleQuotes(v) + "\"")
    && (QuotedEnd(i, v) == |line| || line[QuotedEnd(i, v)] != '"')
  }

  /**
   * Inside quotes, the doubled-quote form of `v` followed by one closing
   * quote is read into the field as `v`, and the quotes are closed.
   */
  lemma {:induction false} ScanQuoted(line: string, i: nat, v: string, current: string)
    requires QuotedAt(line, i, v)
    ensures Scan(line, i, true, current) == Scan(line, QuotedEnd(i, v), false, current + v)
    decreases |v|, 1
  {
    if |v| == 0 {
      QuotedClose(line, i, v, current);
    } else if v[0] == '"' {
      QuotedEscape(line, i, v, current);
    } else {
      QuotedChar(line, i, v, current);
    }
  }

  lemma QuotedClose(line: string, i: nat, v: string, current: string)
    requires |v| == 0 && QuotedAt(line, i, v)
    ensures Scan(line, i, true, current) == Scan(line, QuotedEnd(i, v), false, current + v)
  {
    ClosePieces(line, i, v);
    assert current + v == current;
    ScanToggle(line, i, true, current);
  }

  /** The quoted form of the empty value is the closing quote alone. */
  lemma ClosePieces(line: string, i: nat, v: string)
    requires |v| == 0 && QuotedAt(line, i, v)
    ensures i < |line| && line[i] == '"' && QuotedEnd(i, v) == i + 1
    ensures !(i + 1 < |line| && line[i + 1] == '"')
  {
    assert DoubleQuotes(v) + "\"" == "\"";
    PieceSplit(line, i, "\"", "");
  }

  lemma {:induction false} QuotedEscape(line: string, i: nat, v: string, current: string)
    requires |v| > 0 && v[0] == '"' && QuotedAt(line, i, v)
    ensures Scan(line, i, true, current) == Scan(line, QuotedEnd(i, v), false, current + v)
    decreases |v|, 0
  {
    EscapePieces(line, i, v);
    assert (current + "\"") + v[1..] == current + v;
    ScanEscapedQuote(line, i, true, current);
    ScanQuoted(line, i + 2, v[1..], current + "\"");
  }

  /** Where a quote of the value stands, the line holds two quotes, then the quoted form of the rest. */
  lemma EscapePieces(line: string, i: nat, v: string)
    requires |v| > 0 && v[0] == '"' && QuotedAt(line, i, v)
    ensures i + 1 < |line| && line[i] == '"' && line[i + 1] == '"'
    ensures QuotedAt(line, i + 2, v[1..]) && QuotedEnd(i + 2, v[1..]) == QuotedEnd(i, v)
  {
    DoubleQuotesHead(v);
    PieceSplit(line, i, "\"\"", DoubleQuotes(v[1..]) + "\"");
  }

  lemma {:induction false} QuotedChar(line: string, i: nat, v: string, current: string)
    requires |v| > 0 && v[0] != '"' && QuotedAt(line, i, v)
    ensures Scan(line, i, true, current) == Scan(line, QuotedEnd(i, v), false, current + v)
    decreases |v|, 0
  {
    CharPieces(line, i, v);
    assert (current + [v[0]]) + v[1..] == current + v;
    ScanChar(line, i, true, current);
    ScanQuoted(line, i + 1, v[1..], current + [v[0]]);
  }

  /** Where another character of the value stands, the line holds it, then the quoted form of the rest. */
  lemma CharPieces(line: string, i: nat, v: string)
    requires |v| > 0 && v[0] != '"' && QuotedAt(line, i, v)
    ensures i < |line| && line[i] == v[0]
    ensures QuotedAt(line, i + 1, v[1..]) && QuotedEnd(i + 1, v[1..]) == QuotedEnd(i, v)
  {
    DoubleQuotesHead(v);
    PieceSplit(line, i, [v[0]], DoubleQuotes(v[1..]) + "\"");
  }

  /** Position just after the escaped form of `v` that starts at `i`. */
  function FieldEnd(i: nat, v: string): nat {
    i + |Escape(Some(v))|
  }

  /** From position `i` the line holds the escaped form of `v`, which ends the line or is followed by a comma. */
  predicate FieldAt(line: string, i: nat, v: string) {
    PieceAt(line, i, Escape(Some(v)))
    && (FieldEnd(i, v) == |line| || line[FieldEnd(i, v)] == ',')
  }

  /** An escaped value is read back, from an empty accumulator, as the value itself. */
  lemma ScanField(line: string, i: nat, v: string)
    requires FieldAt(line, i, v)
    ensures Scan(line, i, false, "") == Scan(line, FieldEnd(i, v), false, v)
  {
    if NeedsQuoting(v) {
      FieldQuoted(line, i, v);
    } else {
      FieldPlain(line, i, v);
    }
  }

  lemma FieldPlain(line: string, i: nat, v: string)
    requires !NeedsQuoting(v) && FieldAt(line, i, v)
    ensures Scan(line, i, false, "") == Scan(line, FieldEnd(i, v), false, v)
  {
    PlainPieces(line, i, v);
    ScanPlain(line, i, v, "");
    assert "" + v == v;
  }

  /** A plain escape is the value itself, free of commas and quotes. */
  lemma PlainPieces(line: string, i: nat, v: string)
    requires !NeedsQuoting(v) && FieldAt(line, i, v)
    ensures PieceAt(line, i, v) && ',' !in v && '"' !in v && FieldEnd(i, v) == i + |v|
  {
    assert Escape(Some(v)) == v;
  }

  lemma FieldQuoted(line: string, i: nat, v: string)
    requires NeedsQuoting(v) && FieldAt(line, i, v)
    ensures Scan(line, i, false, "") == Scan(line, FieldEnd(i, v), false, v)
  {
    FieldPieces(line, i, v);
    ScanToggle(line, i, false, "");
    ScanQuoted(line, i + 1, v, "");
    assert "" + v == v;
  }

  /** A quoted escape is an opening quote and the quoted form of the value. */
  lemma FieldPieces(line: string, i: nat, v: string)
    requires NeedsQuoting(v) && FieldAt(line, i, v)
    ensures i < |line| && line[i] == '"'
    ensures QuotedAt(line, i + 1, v) && QuotedEnd(i + 1, v) == FieldEnd(i, v)
  {
    QuotedForm(v);
    PieceSplit(line, i, "\"", DoubleQuotes(v) + "\"");
  }

  /** The quoted escape of a value, as an opening quote followed by its quoted form. */
  lemma QuotedForm(v: string)
    requires NeedsQuoting(v)
    ensures Escape(Some(v)) == "\"" + (DoubleQuotes(v) + "\"")
    ensures |Escape(Some(v))| == |DoubleQuotes(v)| + 2
  {
  }

  /** A line joined from cells starts with the first cell, then a comma and the join of the rest, if any. */
  lemma JoinHead(line: string, i: nat, cells: seq<string>)
    requires |cells| >= 1
    requires RestIs(line, i, Join(cells, ','))
    ensures PieceAt(line, i, cells[0])
    ensures |cells| == 1 ==> i + |cells[0]| == |line|
    ensures |cells| > 1 ==>
      i + |cells[0]| < |line| && line[i + |cells[0]|] == ',' && RestIs(line, i + |cells[0]| + 1, Join(cells[1..], ','))
  {
    var e := cells[0];
    if |cells| > 1 {
      var tail := Join(cells[1..], ',');
      assert Join(cells, ',') == e + ([','] + tail);
      PieceSplit(line, i, e, [','] + tail);
      PieceSplit(line, i + |e|, [','], tail);
    }
  }

  /** The first value of a line of escaped values is read back up to position `j`. */
  lemma JoinedField(line: string, i: nat, values: seq<string>) returns (j: nat)
    requires |values| >= 1
    requires RestIs(line, i, Join(Escapes(values), ','))
    ensures i <= j <= |line|
    ensures Scan(line, i, false, "") == Scan(line, j, false, values[0])
    ensures |values| == 1 ==> j == |line|
    ensures |values| > 1 ==> j < |line| && line[j] == ',' && RestIs(line, j + 1, Join(Escapes(values[1..]), ','))
  {
    var cells := Escapes(values);
    JoinHead(line, i, cells);
    assert cells[1..] == Escapes(values[1..]);
    j := FieldEnd(i, values[0]);
    ScanField(line, i, values[0]);
  }

  /** Splitting a line of escaped values from position `i` gives back the values, trimmed. */
  lemma {:induction false} ScanJoined(line: string, i: nat, values: seq<string>)
    requires |values| >= 1
    requires RestIs(line, i, Join(Escapes(values), ','))
    ensures Scan(line, i, false, "") == TrimAll(values)
    decreases |values|, 1
  {
    if |values| == 1 {
      var j := JoinedField(line, i, values);
      TrimAllHead(values);
      ScanEnd(line, j, values[0]);
    } else {
      ScanJoinedMore(line, i, values);
    }
  }

  lemma {:induction false} ScanJoinedMore(line: string, i: nat, values: seq<string>)
    requires |values| > 1
    requires RestIs(line, i, Join(Escapes(values), ','))
    ensures Scan(line, i, false, "") == TrimAll(values)
    decreases |values|, 0
  {
    var j := JoinedComma(line, i, values);
    ScanJoined(line, j, values[1..]);
    TrimAllHead(values);
  }

  /** The first value and its comma are read back as the first field; the rest of the line starts at `j`. */
  lemma JoinedComma(line: string, i: nat, values: seq<string>) returns (j: nat)
    requires |values| > 1
    requires RestIs(line, i, Join(Escapes(values), ','))
    ensures RestIs(line, j, Join(Escapes(values[1..]), ','))
    ensures Scan(line, i, false, "") == [Trim(values[0])] + Scan(line, j, false, "")
  {
    var k := JoinedField(line, i, values);
    ScanComma(line, k, false, values[0]);
    j := k + 1;
  }

  lemma ScanEnd(line: string, j: nat, current: string)
    requires j == |line|
    ensures Scan(line, j, false, current) == [Trim(current)]
  {
  }

  lemma TrimAllHead(values: seq<string>)
    requires |values| >= 1
    ensures TrimAll(values) == [Trim(values[0])] + TrimAll(values[1..])
    ensures |values| == 1 ==> TrimAll(values) == [Trim(values[0])]
  {
  }

  /**
   * The splitter inverts the escaper up to trimming: `parseCSVLine` of the
   * comma-joined escaped values gives each value back, trimmed. Commas,
   * quotes and line breaks inside values survive.
   */
  lemma FieldsOfEscaped(values: seq<string>)
    requires |values| >= 1
    ensures Fields(Join(Escapes(values), ',')) == TrimAll(values)
  {
    var line := Join(Escapes(values), ',');
    assert RestIs(line, 0, line);
    ScanJoined(line, 0, values);
  }

  lemma {:induction false} TrimAllTrimmed(values: seq<string>)
    requires forall k | 0 <= k < |values| :: IsTrimmed(values[k])
    ensures TrimAll(values) == values
    decreases |values|
  {
    if |values| > 0 {
      TrimAllTrimmed(values[1..]);
      assert values == [values[0]] + values[1..];
    }
  }

  /** For trimmed values the round trip is exact. */
  lemma RoundTripTrimmed(values: seq<string>)
    requires |values| >= 1
    requires forall k | 0 <= k < |values| :: IsTrimmed(values[k])
    ensures Fields(Join(Escapes(values), ',')) == values
  {
    FieldsOfEscaped(values);
    TrimAllTrimmed(values);
  }

  /** A value with white space at an end is not given back as written, even when quoted. */
  lemma UntrimmedLost(v: string)
    requires !IsTrimmed(v)
    ensures Fields(Escape(Some(v))) != [v]
  {
    FieldsOfEscaped([v]);
    assert Join(Escapes([v]), ',') == Escape(Some(v));
  }

  /** A quoted field without inner quotes is read as its inner text: commas inside it stay text. */
  lemma QuotedField(v: string)
    requires '"' !in v
    ensures Fields("\"" + v + "\"") == [Trim(v)]
  {
    var line := "\"" + v + "\"";
    DoubleQuotesPlain(v);
    assert QuotedAt(line, 1, v) && QuotedEnd(1, v) == |line| by {
      forall k | 0 <= k < |v| + 1 ensures line[1 + k] == (v + "\"")[k] {
      }
    }
    ScanToggle(line, 0, false, "");
    ScanQuoted(line, 1, v, "");
    assert "" + v == v;
  }

  lemma {:induction false} DoubleQuotesPlain(v: string)
    requires '"' !in v
    ensures DoubleQuotes(v) == v
    decreases |v|
  {
    if |v| > 0 {
      assert v[0] in v;
      assert forall c | c in v[1..] :: c in v;
      DoubleQuotesPlain(v[1..]);
      assert v == [v[0]] + v[1..];
    }
  }
}
