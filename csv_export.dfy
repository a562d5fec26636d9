/**
 * The CSV writer of the enrichment export (client/src/lib/csv.ts): value
 * escaping, the table serializer and the download file name.
 */
module CsvExport {
  import opened Wrappers
  import opened Text

  // ---------------------------------------------------------------------------
  // Escaping one value
  // ---------------------------------------------------------------------------

  /**
   * `v.includes(',') || v.includes('"') || v.includes('\n')`, stated by
   * membership: a one-character `includes` is a membership test.
   */
  predicate NeedsQuoting(v: string) {
    ',' in v || '"' in v || '\n' in v
  }

  /** The membership form agrees with the `includes` tests of the source. */
  lemma NeedsQuotingIncludes(v: string)
    ensures NeedsQuoting(v) <==> Contains(v, ",") || Contains(v, "\"") || Contains(v, "\n")
  {
    ContainsChar(v, ',');
    ContainsChar(v, '"');
    ContainsChar(v, '\n');
  }

  /** `v.replace(/"/g, '""')`. */
  function DoubleQuotes(v: string): (r: string)
    ensures |r| == |v| + Count(v, '"')
    decreases |v|
  {
    if |v| == 0 then ""
    else (if v[0] == '"' then "\"\"" else [v[0]]) + DoubleQuotes(v[1..])
  }

  /** Doubling quotes adds no other character. */
  lemma {:induction false} DoubleQuotesKeeps(v: string, c: char)
    requires c != '"'
    ensures c in DoubleQuotes(v) <==> c in v
    decreases |v|
  {
    if |v| > 0 {
      DoubleQuotesKeeps(v[1..], c);
      var head := if v[0] == '"' then "\"\"" else [v[0]];
      assert DoubleQuotes(v) == head + DoubleQuotes(v[1..]);
      assert v == [v[0]] + v[1..];
    }
  }

  /**
   * `escapeCSVValue`: `null` and `undefined` (here `None`) become the
   * empty field; a value holding a comma, a quote or a line break is
   * wrapped in quotes with its quotes doubled; any other value is kept.
   */
  function Escape(value: Option<string>): string {
    match value
    case None => ""
    case Some(v) => if NeedsQuoting(v) then "\"" + DoubleQuotes(v) + "\"" else v
  }

  /** What `escapeCSVValue` returns for a present value, stated per case. */
  lemma EscapeCases(v: string)
    ensures ',' !in v && '"' !in v && '\n' !in v ==> Escape(Some(v)) == v
    ensures ',' in v || '"' in v || '\n' in v ==>
      |Escape(Some(v))| == |v| + Count(v, '"') + 2
      && Escape(Some(v))[0] == '"' && Escape(Some(v))[|Escape(Some(v))| - 1] == '"'
    ensures '\n' in Escape(Some(v)) <==> '\n' in v
  {
    DoubleQuotesKeeps(v, '\n');
  }

  // ---------------------------------------------------------------------------
  // The table
  // ---------------------------------------------------------------------------

  /**
   * One object of the exported array: its own keys in `Object.keys` order
   * and the values that are present. A key listed in `keys` but missing
   * from `fields` holds `null` or `undefined`.
   */
  datatype Record = Record(keys: seq<string>, fields: map<string, string>)

  /** `row[header]`, with `None` for `null` and `undefined`. */
  function Get(rec: Record, key: string): (r: Option<string>)
    ensures r.Some? <==> key in rec.fields
  {
    if key in rec.fields then Some(rec.fields[key]) else None
  }

  /** `headers.map(h => escapeCSVValue(row[h]))`. */
  function Cells(headers: seq<string>, rec: Record): (r: seq<string>)
    ensures |r| == |headers|
    ensures forall k | 0 <= k < |headers| :: r[k] == Escape(Get(rec, headers[k]))
  {
    seq(|headers|, k requires 0 <= k < |headers| => Escape(Get(rec, headers[k])))
  }

  /** `values.map(escapeCSVValue)`, as the header row applies it to the keys. */
  function Escapes(values: seq<string>): (r: seq<string>)
    ensures |r| == |values|
    ensures forall k | 0 <= k < |values| :: r[k] == Escape(Some(values[k]))
  {
    seq(|values|, k requires 0 <= k < |values| => Escape(Some(values[k])))
  }

  /** The data lines: one per record, each listing the headers' cells in header order. */
  function DataLines(headers: seq<string>, data: seq<Record>): (r: seq<string>)
    ensures |r| == |data|
    ensures forall i | 0 <= i < |data| :: r[i] == Join(Cells(headers, data[i]), ',')
  {
    seq(|data|, i requires 0 <= i < |data| => Join(Cells(headers, data[i]), ','))
  }

  /** `arrayToCSV`: the header line from the first record's keys, then one line per record, joined by `\n`. */
  function ArrayToCSV(data: seq<Record>): (csv: string)
    ensures |data| == 0 ==> csv == ""
  {
    if |data| == 0 then ""
    else
      var headers := data[0].keys;
      Join([Join(Escapes(headers), ',')] + DataLines(headers, data), '\n')
  }

  /** No character other than the separator appears in a join unless it is in some part. */
  lemma {:induction false} JoinFree(parts: seq<string>, sep: char, c: char)
    requires c != sep
    requires forall k | 0 <= k < |parts| :: c !in parts[k]
    ensures c !in Join(parts, sep)
    decreases |parts|
  {
    if |parts| > 1 {
      JoinFree(parts[1..], sep, c);
      assert c !in parts[0] + [sep];
    }
  }

  /** A line of escaped cells holds a line break only where a value does. */
  lemma LineFree(cells: seq<string>, values: seq<Option<string>>)
    requires |cells| == |values|
    requires forall k | 0 <= k < |cells| :: cells[k] == Escape(values[k])
    requires forall k | 0 <= k < |values| :: values[k].Some? ==> '\n' !in values[k].value
    ensures '\n' !in Join(cells, ',')
  {
    forall k | 0 <= k < |cells| ensures '\n' !in cells[k] {
      if values[k].Some? {
        EscapeCases(values[k].value);
      }
    }
    JoinFree(cells, ',', '\n');
  }

  /** No header and no exported value holds a line break. */
  predicate NoLineBreaks(data: seq<Record>) {
    |data| > 0 ==>
      (forall k | 0 <= k < |data[0].keys| :: '\n' !in data[0].keys[k])
      && (forall i, key | 0 <= i < |data| && key in data[i].fields :: '\n' !in data[i].fields[key])
  }

  /**
   * When no header and no value holds a line break, splitting the output on
   * `\n` gives back the header line followed by one line per record: that
   * is `data.length + 1` lines.
   */
  lemma ArrayToCSVLines(data: seq<Record>)
    requires |data| > 0 && NoLineBreaks(data)
    ensures Split(ArrayToCSV(data), '\n') == [Join(Escapes(data[0].keys), ',')] + DataLines(data[0].keys, data)
    ensures |Split(ArrayToCSV(data), '\n')| == |data| + 1
  {
    var headers := data[0].keys;
    var lines := [Join(Escapes(headers), ',')] + DataLines(headers, data);
    LinesFree(data);
    SplitJoin(lines, '\n');
  }

  /** Under `NoLineBreaks`, neither the header line nor any data line holds a line break. */
  lemma LinesFree(data: seq<Record>)
    requires |data| > 0 && NoLineBreaks(data)
    ensures forall k | 0 <= k < |data| + 1 ::
      '\n' !in ([Join(Escapes(data[0].keys), ',')] + DataLines(data[0].keys, data))[k]
  {
    var headers := data[0].keys;
    var lines := [Join(Escapes(headers), ',')] + DataLines(headers, data);
    HeaderFree(headers);
    forall k | 0 <= k < |lines| ensures '\n' !in lines[k] {
      if k > 0 {
        assert lines[k] == DataLines(headers, data)[k - 1];
        RowFree(data, k - 1);
      }
    }
  }

  lemma HeaderFree(headers: seq<string>)
    requires forall k | 0 <= k < |headers| :: '\n' !in headers[k]
    ensures '\n' !in Join(Escapes(headers), ',')
  {
    LineFree(Escapes(headers), seq(|headers|, k requires 0 <= k < |headers| => Some(headers[k])));
  }

  lemma RowFree(data: seq<Record>, i: nat)
    requires i < |data| && |data| > 0 && NoLineBreaks(data)
    ensures '\n' !in DataLines(data[0].keys, data)[i]
  {
    var headers := data[0].keys;
    LineFree(Cells(headers, data[i]), seq(|headers|, k requires 0 <= k < |headers| => Get(data[i], headers[k])));
  }

  // ---------------------------------------------------------------------------
  // The file name
  // ---------------------------------------------------------------------------

  predicate IsAlphanumeric(c: char) {
    IsLetter(c) || IsDigit(c)
  }

  /** A character of the class `[a-z0-9_]`. */
  predicate IsSafeChar(c: char) {
    'a' <= c <= 'z' || IsDigit(c) || c == '_'
  }

  /** `name.replace(/[^a-z0-9]/gi, '_').toLowerCase()`. */
  function Sanitize(name: string): (r: string)
    ensures |r| == |name|
    ensures forall k | 0 <= k < |r| :: IsSafeChar(r[k])
    ensures forall k | 0 <= k < |r| :: (r[k] == '_' <==> !IsAlphanumeric(name[k]))
  {
    ToLower(seq(|name|, k requires 0 <= k < |name| => if IsAlphanumeric(name[k]) then name[k] else '_'))
  }

  /** Each character outside `[A-Za-z0-9]` becomes its own underscore: runs are not collapsed. */
  lemma SanitizeKeepsLetters(name: string, k: nat)
    requires k < |name| && IsAlphanumeric(name[k])
    ensures Sanitize(name)[k] == LowerChar(name[k])
  {
  }

  /** Sanitising a sanitised name changes nothing. */
  lemma SanitizeIdempotent(name: string)
    ensures Sanitize(Sanitize(name)) == Sanitize(name)
  {
    var s := Sanitize(name);
    forall k | 0 <= k < |s| ensures Sanitize(s)[k] == s[k] {
      if s[k] != '_' {
        assert IsAlphanumeric(s[k]);
      }
    }
  }

  /**
   * `generateEnrichmentFilename`, with `new Date().toISOString()` passed in
   * as `isoTimestamp`: its part before the first `T` is the date.
   */
  function EnrichmentFilename(enrichmentName: string, isoTimestamp: string): string {
    "enrichment_" + Sanitize(enrichmentName) + "_" + Split(isoTimestamp, 'T')[0] + ".csv"
  }

  /** For an ISO timestamp `date` + `T` + time, the name is `enrichment_` + the sanitised name + `_` + the date + `.csv`. */
  lemma EnrichmentFilenameShape(enrichmentName: string, date: string, time: string)
    requires 'T' !in date
    ensures EnrichmentFilename(enrichmentName, date + "T" + time)
      == "enrichment_" + Sanitize(enrichmentName) + "_" + date + ".csv"
    ensures |EnrichmentFilename(enrichmentName, date + "T" + time)| == 16 + |enrichmentName| + |date|
  {
    SplitAfterPiece(date, 'T', time);
  }
}
