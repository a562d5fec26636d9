/**
 * The parts of the enrichment upload page (client/src/pages/EnrichmentUploadPage.tsx)
 * that decide what is sent for enrichment: the per-column override of a
 * mapping, the "DO NOT IMPORT ALL" action, the validation gate in front of
 * the submit button, and the transformation of the parsed rows into the
 * column list and the records of the enrichment job.
 */
module EnrichmentUpload {
  import opened Wrappers
  import opened Text
  import opened CsvParser
  import opened FieldMapping

  // ---------------------------------------------------------------------------
  // Changing the mappings
  // ---------------------------------------------------------------------------

  /**
   * `prev.map(m => m.csvColumn === csvColumn ? { ...m, mappedField: newField, isAutoMapped: false } : m)`:
   * the mappings of `csvColumn` now send it to `newField` and count as set
   * by hand; all other mappings are kept as they were.
   */
  function Override(mappings: seq<FieldMapping>, csvColumn: string, newField: string): (r: seq<FieldMapping>)
    ensures |r| == |mappings|
    ensures forall k | 0 <= k < |r| && mappings[k].csvColumn != csvColumn :: r[k] == mappings[k]
    ensures forall k | 0 <= k < |r| && mappings[k].csvColumn == csvColumn ::
      r[k] == mappings[k].(mappedField := Some(newField), isAutoMapped := false)
  {
    seq(|mappings|, k requires 0 <= k < |mappings| =>
      if mappings[k].csvColumn == csvColumn then mappings[k].(mappedField := Some(newField), isAutoMapped := false)
      else mappings[k])
  }

  /**
   * An override never leaves a mapping marked as automatic, even when the
   * chosen field is the one detection had picked; columns, confidences,
   * completeness and samples are untouched.
   */
  lemma OverrideShape(mappings: seq<FieldMapping>, csvColumn: string, newField: string, k: nat)
    requires k < |mappings| && mappings[k].csvColumn == csvColumn
    ensures var m := Override(mappings, csvColumn, newField)[k];
      && !m.isAutoMapped
      && m.mappedField == Some(newField)
      && m.csvColumn == mappings[k].csvColumn
      && m.confidence == mappings[k].confidence
      && m.completeness == mappings[k].completeness
      && m.samples == mappings[k].samples
  {
  }

  /** Choosing a field twice for one column is choosing it once. */
  lemma OverrideIdempotent(mappings: seq<FieldMapping>, csvColumn: string, newField: string)
    ensures Override(Override(mappings, csvColumn, newField), csvColumn, newField) == Override(mappings, csvColumn, newField)
  {
  }

  /** The last choice for a column wins. */
  lemma OverrideLastWins(mappings: seq<FieldMapping>, csvColumn: string, first: string, second: string)
    ensures Override(Override(mappings, csvColumn, first), csvColumn, second) == Override(mappings, csvColumn, second)
  {
  }

  /** Choices for two different columns do not interfere, in either order. */
  lemma OverrideCommutes(mappings: seq<FieldMapping>, c1: string, f1: string, c2: string, f2: string)
    requires c1 != c2
    ensures Override(Override(mappings, c1, f1), c2, f2) == Override(Override(mappings, c2, f2), c1, f1)
  {
  }

  /** Sending a column that is present to a real field makes the mappings valid. */
  lemma OverrideToFieldValid(mappings: seq<FieldMapping>, csvColumn: string, newField: string, k: nat)
    requires k < |mappings| && mappings[k].csvColumn == csvColumn
    requires newField != "" && newField != DoNotImportValue
    ensures ValidateMappings(Override(mappings, csvColumn, newField)).isValid
  {
    assert IsImported(Override(mappings, csvColumn, newField)[k]);
  }

  /** "DO NOT IMPORT ALL": every mapping is sent to `DO_NOT_IMPORT` and counts as set by hand. */
  function DoNotImportAll(mappings: seq<FieldMapping>): (r: seq<FieldMapping>)
    ensures |r| == |mappings|
    ensures forall k | 0 <= k < |r| ::
      r[k] == mappings[k].(mappedField := Some(DoNotImportValue), isAutoMapped := false)
  {
    seq(|mappings|, k requires 0 <= k < |mappings| =>
      mappings[k].(mappedField := Some(DoNotImportValue), isAutoMapped := false))
  }

  /** After "DO NOT IMPORT ALL" validation fails with its one message, so submitting is disabled. */
  lemma DoNotImportAllRejected(csvData: Option<ParsedCSV>, mappings: seq<FieldMapping>)
    ensures ValidateMappings(DoNotImportAll(mappings)) == Validation(false, [NoFieldMapped])
    ensures !SubmitEnabled(csvData, DoNotImportAll(mappings))
  {
    NothingImportedRejected(DoNotImportAll(mappings));
  }

  /** "DO NOT IMPORT ALL" twice is "DO NOT IMPORT ALL" once, and it overrides every earlier choice. */
  lemma DoNotImportAllAbsorbs(mappings: seq<FieldMapping>, csvColumn: string, newField: string)
    ensures DoNotImportAll(DoNotImportAll(mappings)) == DoNotImportAll(mappings)
    ensures DoNotImportAll(Override(mappings, csvColumn, newField)) == DoNotImportAll(mappings)
  {
  }

  // ---------------------------------------------------------------------------
  // The submit gate
  // ---------------------------------------------------------------------------

  /** `csvData && validateMappings(fieldMappings).isValid`: whether the submit button is enabled. */
  function SubmitEnabled(csvData: Option<ParsedCSV>, mappings: seq<FieldMapping>): (b: bool)
    ensures b <==> csvData.Some? && exists k | 0 <= k < |mappings| :: IsImported(mappings[k])
  {
    csvData.Some? && ValidateMappings(mappings).isValid
  }

  /** What a click on submit leads to: an error notice, or the dialog asking for a name and an operator. */
  datatype SubmitOutcome = Rejected(message: string) | OpenModal(mappedCount: nat)

  const NoFileUploaded := "No CSV file uploaded"

  /**
   * `handleSubmitClick`: invalid mappings stop the submission with the first
   * validation error; a missing file stops it next; otherwise the number of
   * imported mappings is counted and the dialog opens.
   */
  function SubmitClick(mappings: seq<FieldMapping>, csvData: Option<ParsedCSV>, hasFile: bool): (r: SubmitOutcome)
    ensures !ValidateMappings(mappings).isValid ==> r == Rejected(NoFieldMapped)
    ensures ValidateMappings(mappings).isValid && (csvData.None? || !hasFile) ==> r == Rejected(NoFileUploaded)
    ensures r.OpenModal? <==> SubmitEnabled(csvData, mappings) && hasFile
    ensures r.OpenModal? ==> r.mappedCount == |Imported(mappings)| && r.mappedCount >= 1
  {
    var validation := ValidateMappings(mappings);
    if !validation.isValid then Rejected(validation.errors[0])
    else if csvData.None? || !hasFile then Rejected(NoFileUploaded)
    else OpenModal(|Imported(mappings)|)
  }

  // ---------------------------------------------------------------------------
  // The job sent for enrichment
  // ---------------------------------------------------------------------------

  /** `.filter(isImported).map(m => m.mappedField)`: the target fields, in mapping order, duplicates kept. */
  function MappedColumns(mappings: seq<FieldMapping>): (r: seq<string>)
    ensures |r| == |Imported(mappings)|
    ensures forall k | 0 <= k < |r| :: r[k] == Imported(mappings)[k].mappedField.value
  {
    var imported := Imported(mappings);
    seq(|imported|, k requires 0 <= k < |imported| => imported[k].mappedField.value)
  }

  /** The columns of a concatenation are the columns of each part, in order. */
  lemma MappedColumnsAppend(a: seq<FieldMapping>, b: seq<FieldMapping>)
    ensures MappedColumns(a + b) == MappedColumns(a) + MappedColumns(b)
  {
    ImportedAppend(a, b);
  }

  /** Each imported mapping contributes its field, so two columns sent to one field give it twice. */
  lemma MappedColumnsOf(m: FieldMapping)
    ensures MappedColumns([m]) == if IsImported(m) then [m.mappedField.value] else []
  {
    assert [m][1..] == [];
  }

  /** A field is listed exactly when some imported mapping targets it; no listed field is empty or `DO_NOT_IMPORT`. */
  lemma {:induction false} MappedColumnsMembers(mappings: seq<FieldMapping>, f: string)
    ensures f in MappedColumns(mappings) <==>
      exists k | 0 <= k < |mappings| :: IsImported(mappings[k]) && mappings[k].mappedField == Some(f)
    ensures f in MappedColumns(mappings) ==> f != "" && f != DoNotImportValue
    decreases |mappings|
  {
    if |mappings| > 0 {
      MappedColumnsMembers(mappings[1..], f);
      assert mappings == [mappings[0]] + mappings[1..];
      MappedColumnsAppend([mappings[0]], mappings[1..]);
      MappedColumnsOf(mappings[0]);
      if exists k | 0 <= k < |mappings| :: IsImported(mappings[k]) && mappings[k].mappedField == Some(f) {
        var k :| 0 <= k < |mappings| && IsImported(mappings[k]) && mappings[k].mappedField == Some(f);
        if k > 0 {
          assert mappings[1..][k - 1] == mappings[k];
        }
      }
      if exists k | 0 <= k < |mappings[1..]| :: IsImported(mappings[1..][k]) && mappings[1..][k].mappedField == Some(f) {
        var k :| 0 <= k < |mappings[1..]| && IsImported(mappings[1..][k]) && mappings[1..][k].mappedField == Some(f);
        assert mappings[k + 1] == mappings[1..][k];
      }
    } else {
      assert MappedColumns(mappings) == [];
    }
  }

  /** Freshly detected mappings pass validation exactly when detection mapped at least one column. */
  lemma DetectedValid(columns: seq<string>, rows: seq<Row>)
    ensures ValidateMappings(DetectFields(columns, rows)).isValid <==>
      exists i | 0 <= i < |columns| :: DetectFields(columns, rows)[i].isAutoMapped
  {
    var ms := DetectFields(columns, rows);
    assert forall i | 0 <= i < |ms| :: IsImported(ms[i]) <==> ms[i].isAutoMapped;
  }

  /** Every column detection sends for enrichment is a catalog field other than `DO_NOT_IMPORT`. */
  lemma DetectedColumnsInCatalog(columns: seq<string>, rows: seq<Row>, f: string)
    requires f in MappedColumns(DetectFields(columns, rows))
    ensures f in CatalogValues() && f != DoNotImportValue
  {
    var ms := DetectFields(columns, rows);
    MappedColumnsMembers(ms, f);
    var k :| 0 <= k < |ms| && IsImported(ms[k]) && ms[k].mappedField == Some(f);
  }

  /** One record of the job: API field name to value. */
  type Record = map<string, string>

  /**
   * Whether `mapping` writes into the record of `row` under `key`: it is
   * imported, the row holds a non-blank value for its column (`value &&
   * value.trim() !== ''`), and its field in lower case is `key`.
   */
  predicate Writes(mapping: FieldMapping, row: Row, key: string) {
    IsImported(mapping) && mapping.csvColumn in row && !IsBlank(row[mapping.csvColumn])
    && ToLower(mapping.mappedField.value) == key
  }

  /** One pass of the `forEach`: an imported mapping with a non-blank value stores that value, trimmed, under its lower-cased field. */
  function Put(record: Record, mapping: FieldMapping, row: Row): Record {
    if IsImported(mapping) && mapping.csvColumn in row && !IsBlank(row[mapping.csvColumn]) then
      record[ToLower(mapping.mappedField.value) := Trim(row[mapping.csvColumn])]
    else record
  }

  /** The record `fieldMappings.forEach(...)` builds for `row`: the mappings applied in order. */
  function RecordOf(mappings: seq<FieldMapping>, row: Row): Record
    decreases |mappings|
  {
    if |mappings| == 0 then map[]
    else Put(RecordOf(mappings[..|mappings| - 1], row), mappings[|mappings| - 1], row)
  }

  /** A key is in the record exactly when some mapping writes it. */
  lemma {:induction false} RecordKeys(mappings: seq<FieldMapping>, row: Row, key: string)
    ensures key in RecordOf(mappings, row) <==> exists k | 0 <= k < |mappings| :: Writes(mappings[k], row, key)
    decreases |mappings|
  {
    if |mappings| > 0 {
      var n := |mappings| - 1;
      var init := mappings[..n];
      RecordKeys(init, row, key);
      assert forall k | 0 <= k < n :: init[k] == mappings[k];
      if exists k | 0 <= k < |mappings| :: Writes(mappings[k], row, key) {
        var k :| 0 <= k < |mappings| && Writes(mappings[k], row, key);
        if k < n {
          assert Writes(init[k], row, key);
        }
      }
    }
  }

  /**
   * The value under `key` comes from the last mapping that writes it, trimmed:
   * a later mapping to the same field overwrites an earlier one, but a blank
   * value never overwrites.
   */
  lemma {:induction false} RecordLastWins(mappings: seq<FieldMapping>, row: Row, key: string, k: nat)
    requires k < |mappings| && Writes(mappings[k], row, key)
    requires forall j | k < j < |mappings| :: !Writes(mappings[j], row, key)
    ensures key in RecordOf(mappings, row)
    ensures RecordOf(mappings, row)[key] == Trim(row[mappings[k].csvColumn])
    decreases |mappings|
  {
    var n := |mappings| - 1;
    var init := mappings[..n];
    if k < n {
      assert forall j | k < j < n :: init[j] == mappings[j];
      RecordLastWins(init, row, key, k);
      assert !Writes(mappings[n], row, key);
    }
  }

  /** Every stored value is trimmed and not empty: blank cells are left out rather than stored as `""`. */
  lemma {:induction false} RecordValues(mappings: seq<FieldMapping>, row: Row, key: string)
    requires key in RecordOf(mappings, row)
    ensures IsTrimmed(RecordOf(mappings, row)[key]) && RecordOf(mappings, row)[key] != ""
    decreases |mappings|
  {
    var n := |mappings| - 1;
    var m := mappings[n];
    if IsImported(m) && m.csvColumn in row && !IsBlank(row[m.csvColumn]) && ToLower(m.mappedField.value) == key {
      TrimEmpty(row[m.csvColumn]);
    } else {
      RecordValues(mappings[..n], row, key);
    }
  }

  /** Mappings none of which is imported give every row an empty record. */
  lemma {:induction false} NothingImportedEmpty(mappings: seq<FieldMapping>, row: Row)
    requires forall k | 0 <= k < |mappings| :: !IsImported(mappings[k])
    ensures RecordOf(mappings, row) == map[]
    decreases |mappings|
  {
    if |mappings| > 0 {
      var n := |mappings| - 1;
      assert forall k | 0 <= k < n :: mappings[..n][k] == mappings[k];
      NothingImportedEmpty(mappings[..n], row);
    }
  }

  /** After "DO NOT IMPORT ALL" every row gives an empty record. */
  lemma DoNotImportAllEmpty(mappings: seq<FieldMapping>, row: Row)
    ensures RecordOf(DoNotImportAll(mappings), row) == map[]
  {
    NothingImportedEmpty(DoNotImportAll(mappings), row);
  }

  /** `record[apiField] = value.trim()` inside `fieldMappings.forEach`. */
  method BuildRecord(mappings: seq<FieldMapping>, row: Row) returns (record: Record)
    ensures record == RecordOf(mappings, row)
  {
    record := map[];
    var k := 0;
    while k < |mappings|
      invariant 0 <= k <= |mappings|
      invariant record == RecordOf(mappings[..k], row)
    {
      var mapping := mappings[k];
      if IsImported(mapping) {
        var apiField := ToLower(mapping.mappedField.value);
        if mapping.csvColumn in row {
          var value := row[mapping.csvColumn];
          if !IsBlank(value) {
            record := record[apiField := Trim(value)];
          }
        }
      }
      assert mappings[..k + 1][..k] == mappings[..k];
      k := k + 1;
    }
    assert mappings[..|mappings|] == mappings;
  }

  /** `csvData.rows.map(row => ...)`: one record per parsed row, in row order. */
  method BuildRecords(mappings: seq<FieldMapping>, rows: seq<Row>) returns (records: seq<Record>)
    ensures |records| == |rows|
    ensures forall i | 0 <= i < |rows| :: records[i] == RecordOf(mappings, rows[i])
  {
    records := [];
    var i := 0;
    while i < |rows|
      invariant 0 <= i <= |rows|
      invariant |records| == i
      invariant forall j | 0 <= j < i :: records[j] == RecordOf(mappings, rows[j])
    {
      var record := BuildRecord(mappings, rows[i]);
      records := records + [record];
      i := i + 1;
    }
  }

  /** `"OR" | "AND"`: how the enrichment combines the submitted fields. */
  datatype Operator = Or | And

  /** The argument of `createJob`. */
  datatype JobRequest = JobRequest(name: string, records: seq<Record>, operator: Operator, columns: seq<string>)

  // ---------------------------------------------------------------------------
  // The page state
  // ---------------------------------------------------------------------------

  /** The state of the upload page that these handlers read and write. */
  class UploadPage {
    var csvData: Option<ParsedCSV>
    var hasFile: bool
    var fieldMappings: seq<FieldMapping>
    var showModal: bool

    constructor()
      ensures csvData == None && !hasFile && fieldMappings == [] && !showModal
    {
      csvData := None;
      hasFile := false;
      fieldMappings := [];
      showModal := false;
    }

    /** `isValid`, which enables the submit button. */
    function IsValid(): bool
      reads this
    {
      SubmitEnabled(csvData, fieldMappings)
    }

    /** After a file is parsed: the data is kept and each column gets its detected mapping. */
    method FileParsed(parsed: ParsedCSV)
      modifies this
      ensures csvData == Some(parsed) && hasFile
      ensures fieldMappings == DetectFields(parsed.columns, parsed.rows)
      ensures showModal == old(showModal)
    {
      hasFile := true;
      csvData := Some(parsed);
      fieldMappings := DetectFields(parsed.columns, parsed.rows);
    }

    /** `handleMappingChange`. */
    method HandleMappingChange(csvColumn: string, newField: string)
      modifies this
      ensures fieldMappings == Override(old(fieldMappings), csvColumn, newField)
      ensures csvData == old(csvData) && hasFile == old(hasFile) && showModal == old(showModal)
    {
      fieldMappings := Override(fieldMappings, csvColumn, newField);
    }

    /** The "DO NOT IMPORT ALL" button: afterwards submitting is disabled. */
    method DoNotImportAllClick()
      modifies this
      ensures fieldMappings == DoNotImportAll(old(fieldMappings))
      ensures csvData == old(csvData) && hasFile == old(hasFile) && showModal == old(showModal)
      ensures !IsValid()
    {
      fieldMappings := DoNotImportAll(fieldMappings);
      DoNotImportAllRejected(csvData, old(fieldMappings));
    }

    /** `handleSubmitClick`: the dialog opens only when the submit gate is passed. */
    method HandleSubmitClick() returns (outcome: SubmitOutcome)
      modifies this
      ensures outcome == SubmitClick(fieldMappings, csvData, hasFile)
      ensures showModal == (old(showModal) || outcome.OpenModal?)
      ensures csvData == old(csvData) && hasFile == old(hasFile) && fieldMappings == old(fieldMappings)
    {
      outcome := SubmitClick(fieldMappings, csvData, hasFile);
      if outcome.OpenModal? {
        showModal := true;
      }
    }

    /**
     * `handleModalSubmit` up to the call of `createJob`: the dialog closes;
     * without data nothing is sent, otherwise the request holds the mapped
     * columns and one record per row.
     */
    method HandleModalSubmit(name: string, operator: Operator) returns (request: Option<JobRequest>)
      modifies this
      ensures !showModal
      ensures csvData == old(csvData) && hasFile == old(hasFile) && fieldMappings == old(fieldMappings)
      ensures request.Some? <==> csvData.Some? && hasFile
      ensures request.Some? ==>
        && request.value.name == name && request.value.operator == operator
        && request.value.columns == MappedColumns(fieldMappings)
        && |request.value.records| == |csvData.value.rows|
        && forall i | 0 <= i < |csvData.value.rows| :: request.value.records[i] == RecordOf(fieldMappings, csvData.value.rows[i])
    {
      showModal := false;
      if csvData.None? || !hasFile {
        request := None;
      } else {
        var mappedColumns := MappedColumns(fieldMappings);
        var records := BuildRecords(fieldMappings, csvData.value.rows);
        request := Some(JobRequest(name, records, operator, mappedColumns));
      }
    }
  }
}
