# CSV ingestion, field mapping and export for AudienceLab enrichments

This project models the client-side pipeline behind an enrichment upload, in Dafny, and proves properties of that model.

The pipeline works like this:

1. A CSV file is read into a header and rows (`parseCSV`, `parseCSVLine`).
2. Each column is analyzed: non-blank count, completeness percentage, samples (`analyzeColumn`).
3. Each column is matched to an AudienceLab field by an ordered rule chain over the normalised column name and the samples (`detectFieldType`, `detectFields`).
4. The user may override mappings one column at a time, or send every column to `DO_NOT_IMPORT`.
5. Submitting is gated by `validateMappings`.
6. The accepted mappings turn the rows into the column list and the lower-case-keyed records of the enrichment job.

The export side (`arrayToCSV`, `escapeCSVValue`, `generateEnrichmentFilename`) is modelled too. So is the round trip from the escaper back through the line splitter, and from the table writer back through `parseCSV`.

Modules:

- `Wrappers`: `Option` and `Result`.
- `Text`: JavaScript's `trim` and `\s` (the ECMAScript white-space and line-terminator set), `toLowerCase` on ASCII letters, `includes`, and `split`/`join` on one character.
- `CsvParser` (client/src/lib/csvParser.ts):
  - `parseCSVLine` is the method `ParseLine`, a `while` loop over the characters. It is proved equal to the function `Fields`.
  - `parseCSV` is the method `ParseCSV`, built from `BuildRow`, `ParseDataLine` and `ParseDataLines`. It is proved equal to `Parse`, which keeps both of the source's error branches.
  - The column analyzer is modelled as functions.
- `FieldMapping` (client/src/lib/fieldMapping.ts):
  - the field catalog;
  - the name normaliser;
  - the three sample regular expressions as character predicates;
  - the first-match-wins detection chain;
  - the validator.
- `CsvExport` (client/src/lib/csv.ts): escaping, the table serializer and the file name.
- `RoundTrip`: splitting a comma-joined line of escaped values gives the values back, trimmed.
- `TableRoundTrip`: parsing what `arrayToCSV` writes gives back the columns and one row per record, under stated conditions, and a counterexample outside them.
- `EnrichmentUpload` (client/src/pages/EnrichmentUploadPage.tsx):
  - the override;
  - "DO NOT IMPORT ALL";
  - the submit gate;
  - `mappedColumns`;
  - the record builder, as `forEach` loops in the methods `BuildRecord` and `BuildRecords`. They are proved against the fold `RecordOf`.
  - a class `UploadPage` holding the page state these handlers update.

Conventions:

- JavaScript `null` or `undefined` is `None`.
- A parsed row is a `map<string, string>`.
- An exported object is its `Object.keys` order plus a map of its present values.

Where the description of the system and the code differ, the model follows the code:

- `parseCSV` cannot reach its two `throw` statements. `split` never returns an empty array, and `parseCSVLine` never returns an empty one. `ParseShape` proves both.
- `validateMappings` rejects the empty string as well as `null`, because `''` is falsy.
- A repeated header keeps the value of its last occurrence.

## Model

| member | source | states |
|---|---|---|
| Text.Trim | client/src/lib/csvParser.ts:84 | the result has no white space at either end, is no longer than the input, and equals an input that was already trimmed |
| Text.TrimEmpty | client/src/lib/csvParser.ts:105 | `v.trim() === ''` holds exactly when every character is white space |
| Text.TrimIdempotent | client/src/lib/csvParser.ts:48 | trimming an already trimmed field changes nothing |
| Text.ToLower | client/src/pages/EnrichmentUploadPage.tsx:162 | lower-casing keeps the length and maps each character on its own; only ASCII letters change (see Left out) |
| Text.ContainsChar | client/src/lib/csv.ts:39 | `includes` of a one-character string is membership of that character |
| Text.Split | client/src/lib/csvParser.ts:24 | `split` on one character never returns an empty array |
| Text.SplitCount | client/src/lib/csvParser.ts:24 | a split has one more piece than the text has separators |
| Text.SplitPiecesFree | client/src/lib/csvParser.ts:24 | no piece of a split holds the separator |
| Text.JoinSplit | client/src/lib/csvParser.ts:24 | joining the pieces of a split with the separator rebuilds the text |
| Text.Join | client/src/lib/csv.ts:25 | `join` with one separator; its contract is carried by `JoinSplit` and `SplitJoin` (a join of separator-free parts splits back into the parts) and `JoinFree` (it adds no character but the separator) |
| Text.SplitJoin | client/src/lib/csv.ts:25 | splitting a join of separator-free parts gives the parts back |
| Text.SplitAfterPiece | client/src/lib/csv.ts:74 | a separator-free prefix followed by the separator splits off as the first piece |
| CsvParser.Scan | client/src/lib/csvParser.ts:69-92 | the state machine from any position, quote state and accumulator completes at least one field |
| CsvParser.ScanTrimmed | client/src/lib/csvParser.ts:84-92 | every field the state machine pushes is trimmed |
| CsvParser.Fields | client/src/lib/csvParser.ts:64-95 | `parseCSVLine` returns at least one field, and each one is trimmed |
| CsvParser.ParseLine | client/src/lib/csvParser.ts:64-95 | the loop with its quote flag, accumulator and skip over an escaped quote returns exactly `Fields(line)` |
| CsvParser.ScanEscapedQuote | client/src/lib/csvParser.ts:74-77 | one step of `Scan`: inside quotes, a doubled quote adds one literal quote and consumes both characters |
| CsvParser.ScanToggle | client/src/lib/csvParser.ts:78-81 | one step of `Scan`: any other quote character flips the quote state and is dropped |
| CsvParser.ScanComma | client/src/lib/csvParser.ts:82-85 | one step of `Scan`: a comma outside quotes pushes the trimmed field and starts an empty one |
| CsvParser.ScanChar | client/src/lib/csvParser.ts:86-88 | one step of `Scan`: every other character, a comma inside quotes included, is appended to the field |
| CsvParser.ScanLength | client/src/lib/csvParser.ts:82-92 | the number of fields is one more than the number of commas read outside quotes |
| CsvParser.FieldCount | client/src/lib/csvParser.ts:82-92 | the same count for a whole line, starting outside quotes |
| CsvParser.ScanWithoutQuotes | client/src/lib/csvParser.ts:69-92 | on text without quote characters the state machine is `split(',')` with the accumulator glued on, then trimmed |
| CsvParser.FieldsWithoutQuotes | client/src/lib/csvParser.ts:64-95 | a line without quotes gives `line.split(',').map(trim)` |
| CsvParser.ValueAt | client/src/lib/csvParser.ts:48 | the cell for a header position is trimmed; a position past the end gives `""`; a cell that is already trimmed is kept as is |
| CsvParser.RowOf | client/src/lib/csvParser.ts:45-49 | the row object has exactly the header names as keys |
| CsvParser.RowOfAt | client/src/lib/csvParser.ts:47-49 | each header holds the trimmed value at its last position; a missing value is `""` |
| CsvParser.BuildRow | client/src/lib/csvParser.ts:45-49 | the `forEach` over the headers builds exactly `RowOf(headers, values)` |
| CsvParser.ParseDataLine | client/src/lib/csvParser.ts:41-51 | a line that is blank once trimmed is skipped; any other line becomes one row of its parsed fields |
| CsvParser.ParseDataLines | client/src/lib/csvParser.ts:40-52 | the loop over lines 1.. pushes exactly `DataRows(headers, lines[1..])` |
| CsvParser.Parse | client/src/lib/csvParser.ts:23-58 | `parseCSV` with both `throw` branches as `Failure`; its contract is carried by `ParseShape` (it always succeeds, with `rowCount == rows.length`, one row per non-blank data line, each keyed by the columns), `ParseBlankText`, and `TableRoundTrip.ParseArrayToCSV` |
| CsvParser.ParseCSV | client/src/lib/csvParser.ts:23-59 | `parseCSV` returns exactly the success value of `Parse`, so neither error is ever thrown |
| CsvParser.DataRowsShape | client/src/lib/csvParser.ts:40-52 | one row per non-blank data line, and each row has exactly the header's keys |
| CsvParser.LineRowsShape | client/src/lib/csvParser.ts:41-49 | a blank line gives no row; any other line gives one row keyed by the header |
| CsvParser.ParseShape | client/src/lib/csvParser.ts:23-58 | parsing always succeeds; `columns` is the parsed first line; `rowCount == rows.length ==` the number of non-blank data lines; every row is keyed by the columns |
| CsvParser.ParseBlankText | client/src/lib/csvParser.ts:24-35 | empty or all-white-space text gives one empty column and no rows |
| CsvParser.NonBlank | client/src/lib/csvParser.ts:105 | the filter keeps only non-blank values, each one of the input values, and is no longer than its input |
| CsvParser.NonBlankKeeps | client/src/lib/csvParser.ts:105 | every non-blank value survives the filter |
| CsvParser.NonBlankAll | client/src/lib/csvParser.ts:105 | the filter drops nothing exactly when no value is blank |
| CsvParser.NonBlankAppend | client/src/lib/csvParser.ts:105 | the filter keeps row order across a concatenation |
| CsvParser.Percent | client/src/lib/csvParser.ts:111-113 | the nearest whole percentage (half rounds up); at most 100 when count ≤ total; exactly 100 when full; 0 when nothing is counted |
| CsvParser.ColumnValues | client/src/lib/csvParser.ts:104 | one value per row, in row order, with `""` for a missing key |
| CsvParser.ColumnValuesAppend | client/src/lib/csvParser.ts:104 | the values of a column split along any split of the rows |
| CsvParser.Samples | client/src/lib/csvParser.ts:114 | the samples are a prefix of the non-blank values, of length `min(4, nonEmptyCount)` |
| CsvParser.SamplesShape | client/src/lib/csvParser.ts:105-114 | every sample is non-blank; fewer than four samples are all the non-blank values |
| CsvParser.SamplesFromFirstRows | client/src/lib/csvParser.ts:105-114 | once a prefix of the rows holds four non-blank values, the later rows do not affect the samples |
| CsvParser.AnalyzeColumn | client/src/lib/csvParser.ts:100-116 | `values.length == rows.length`; `nonEmptyCount` is the non-blank count and is at most the rows; completeness is 0..100, 0 without rows or without values, 100 when full, and within half a percent of the real ratio |
| CsvParser.FullColumn | client/src/lib/csvParser.ts:104-110 | `nonEmptyCount == rows.length` exactly when no cell of the column is blank |
| CsvParser.AnalyzeColumnExample | client/src/lib/__tests__/csvParser.test.ts:51-68 | three non-blank cells out of four give count 3, completeness 75, and those three as samples in order |
| CsvParser.PercentExample | client/src/lib/__tests__/csvParser.test.ts:63 | 3 of 4 rounds to 75 |
| CsvParser.AnalyzeAllColumns | client/src/lib/csvParser.ts:121-123 | one analysis per column, in column order, each over all the rows |
| FieldMapping.ValueOfImportable | client/src/lib/fieldMapping.ts:26-51 | no catalog identifier is empty, and only `DO_NOT_IMPORT` is `DO_NOT_IMPORT` |
| FieldMapping.ValueOf | client/src/lib/fieldMapping.ts:64-67 | a detected field is stored as a non-empty catalog identifier, and `null` as `null` |
| FieldMapping.CatalogValues | client/src/lib/fieldMapping.ts:26-51 | the catalog's values in display order |
| FieldMapping.CatalogComplete | client/src/lib/fieldMapping.ts:26-51 | every field the rules can name is offered by the catalog |
| FieldMapping.CatalogIndex | client/src/lib/fieldMapping.ts:26-51 | the position at which the catalog lists each field |
| FieldMapping.Strip | client/src/lib/fieldMapping.ts:83 | removing `[_\s-]` leaves no separator and never lengthens the name |
| FieldMapping.Normalize | client/src/lib/fieldMapping.ts:83 | the normal form of a name is no longer than it and holds no separator and no upper-case ASCII letter; `NormalizeIdempotent`, `NormalizeDropsSeparator` and `NormalizeIgnoresCase` carry the rest |
| FieldMapping.StripAppend | client/src/lib/fieldMapping.ts:83 | removal works piecewise over a concatenation |
| FieldMapping.StripWithoutSeparators | client/src/lib/fieldMapping.ts:83 | a name without separators is unchanged |
| FieldMapping.StripLower | client/src/lib/fieldMapping.ts:83 | removing separators commutes with lower-casing |
| FieldMapping.NormalizeIdempotent | client/src/lib/fieldMapping.ts:83 | normalising a normalised name changes nothing |
| FieldMapping.NormalizeDropsSeparator | client/src/lib/fieldMapping.ts:83 | inserting a separator anywhere does not change the normalised name |
| FieldMapping.NormalizeIgnoresCase | client/src/lib/fieldMapping.ts:83 | names that differ only in letter case normalise alike |
| FieldMapping.IsEmailLike | client/src/lib/fieldMapping.ts:89 | `/^[^\s@]+@[^\s@]+\.[^\s@]+$/` as a predicate; `NoAtNotEmail` (no `@`, no match) and `DomainNotEmail` state its properties |
| FieldMapping.IsPhoneLike | client/src/lib/fieldMapping.ts:136 | the phone pattern as a predicate; `PhoneNotOther` (a phone-like sample is neither domain-like nor e-mail-like) states its property |
| FieldMapping.IsDomainLike | client/src/lib/fieldMapping.ts:156 | the domain pattern as a predicate; `DomainNotEmail` (a domain-like sample is never e-mail-like) states its property |
| FieldMapping.IsLinkedinLike | client/src/lib/fieldMapping.ts:164 | `includes('linkedin.com')` as a predicate, read by `Classify` |
| FieldMapping.DomainNotEmail | client/src/lib/fieldMapping.ts:156 | a sample matching the domain pattern never matches the e-mail pattern |
| FieldMapping.PhoneNotOther | client/src/lib/fieldMapping.ts:136 | a sample matching the phone pattern matches neither the domain nor the e-mail pattern |
| FieldMapping.Classify | client/src/lib/fieldMapping.ts:85-150 | the chain never returns `DO_NOT_IMPORT` or `SHA256_PERSONAL_EMAIL`, and its confidence is the one fixed for the returned field |
| FieldMapping.ClassifyLate | client/src/lib/fieldMapping.ts:152-198 | the same for the rules from company domain down to UP ID, and `null` with 0 when nothing matches |
| FieldMapping.DetectFieldType | client/src/lib/fieldMapping.ts:78-199 | a field other than `DO_NOT_IMPORT` with confidence at least 80, or `null` exactly when confidence is 0 |
| FieldMapping.EmailRuleFirst | client/src/lib/fieldMapping.ts:86-98 | when the e-mail rule fires, the result is business (95) for business or work, else personal (95) for personal, else plain e-mail (90) |
| FieldMapping.EmailFieldOnlyFromEmailRule | client/src/lib/fieldMapping.ts:86-98 | an e-mail field is returned exactly when the first rule fires |
| FieldMapping.ZipNeverPhone | client/src/lib/fieldMapping.ts:121-139 | a name with zip, postal or postcode is never a phone number; unless the e-mail rule fires it is a zip, or a first or last name |
| FieldMapping.DetectIgnoresSeparator | client/src/lib/fieldMapping.ts:83 | detection ignores `_`, white space and `-` anywhere in the name |
| FieldMapping.DetectIgnoresCase | client/src/lib/fieldMapping.ts:83 | detection ignores the case of ASCII letters in the name |
| FieldMapping.NoAtNotEmail | client/src/lib/fieldMapping.ts:89 | a sample without `@` never matches the e-mail pattern |
| FieldMapping.NoAtSamples | client/src/lib/fieldMapping.ts:89 | samples without `@` never trigger the e-mail rule |
| FieldMapping.FirstNameExample | client/src/lib/fieldMapping.ts:101-108 | `FIRST_NAME` and `first name` both normalise to `firstname`, and either column name is detected as a first name with confidence 95 when no sample has `@` |
| FieldMapping.FirstNameSpellings | client/src/lib/fieldMapping.ts:83 | `FIRST_NAME` and `first name` normalise to `firstname` |
| FieldMapping.EmailExample | client/src/lib/fieldMapping.ts:86-97 | the column `email` is the plain e-mail field with confidence 90, whatever its samples |
| FieldMapping.DetectColumn | client/src/lib/fieldMapping.ts:60-72 | keeps the column; completeness and samples are those of `AnalyzeColumn(column, rows)`; field and confidence are those `DetectFieldType` gives for the column and those samples; completeness ≤ 100 and at most 4 samples; auto-mapped iff confidence > 70 iff a field was found; a found field is a catalog value other than `DO_NOT_IMPORT` |
| FieldMapping.DetectFields | client/src/lib/fieldMapping.ts:56-73 | one mapping per column, in column order |
| FieldMapping.IsImported | client/src/lib/fieldMapping.ts:212 | `m.mappedField && m.mappedField !== 'DO_NOT_IMPORT'`, with `''` falsy; `Imported` and `ValidateMappings` state what follows from it |
| FieldMapping.Imported | client/src/lib/fieldMapping.ts:211-213 | the filter keeps only imported mappings, and is empty exactly when none is imported |
| FieldMapping.ImportedAppend | client/src/lib/fieldMapping.ts:211-213 | the filter keeps order across a concatenation |
| FieldMapping.ValidateMappings | client/src/lib/fieldMapping.ts:204-223 | valid iff some mapping has a non-empty field other than `DO_NOT_IMPORT`; errors are `[]` when valid and exactly the one message otherwise |
| FieldMapping.ValidationMonotone | client/src/lib/fieldMapping.ts:211-217 | adding mappings on either side never makes a valid set invalid |
| FieldMapping.DuplicateTargetsAccepted | client/src/lib/fieldMapping.ts:211-217 | two columns sent to the same field are accepted |
| FieldMapping.NothingImportedRejected | client/src/lib/fieldMapping.ts:211-217 | mappings all `null` or `DO_NOT_IMPORT` are rejected with the one message |
| CsvExport.NeedsQuotingIncludes | client/src/lib/csv.ts:39 | the quoting condition is the three `includes` tests |
| CsvExport.DoubleQuotes | client/src/lib/csv.ts:40 | doubling adds exactly one character per quote |
| CsvExport.DoubleQuotesKeeps | client/src/lib/csv.ts:40 | doubling quotes adds and removes no other character |
| CsvExport.Escape | client/src/lib/csv.ts:31-44 | `escapeCSVValue`; its contract is carried by `EscapeCases` and, for the way back, `RoundTrip.FieldsOfEscaped` |
| CsvExport.EscapeCases | client/src/lib/csv.ts:31-44 | a value without comma, quote or line break is unchanged; otherwise it is wrapped in quotes and lengthened by its quote count plus 2; a line break appears in the escaped value exactly when in the value |
| CsvExport.Get | client/src/lib/csv.ts:22 | a key gives a value exactly when the record holds one |
| CsvExport.Cells | client/src/lib/csv.ts:22 | one escaped cell per header, in header order; a missing key gives `""` |
| CsvExport.Escapes | client/src/lib/csv.ts:18 | one escaped value per value, in order; the header row applies it to the keys |
| CsvExport.DataLines | client/src/lib/csv.ts:21-23 | one comma-joined line per record, every one listing the first record's keys |
| CsvExport.ArrayToCSV | client/src/lib/csv.ts:10-12 | an empty array gives exactly `""` |
| CsvExport.JoinFree | client/src/lib/csv.ts:25 | joining adds no character other than the separator |
| CsvExport.LineFree | client/src/lib/csv.ts:22 | a line of escaped cells holds a line break only where a value does |
| CsvExport.ArrayToCSVLines | client/src/lib/csv.ts:21-25 | without line breaks in keys and values, the output splits on `\n` into the header line and one line per record, `data.length + 1` lines |
| CsvExport.LinesFree | client/src/lib/csv.ts:18-23 | under the same condition no header or data line holds a line break |
| CsvExport.HeaderFree | client/src/lib/csv.ts:18 | the header line holds no line break when no key does |
| CsvExport.RowFree | client/src/lib/csv.ts:22 | a data line holds no line break when no value does |
| CsvExport.Sanitize | client/src/lib/csv.ts:75 | keeps the length; only `[a-z0-9_]`; an `_` exactly where the name has a character outside `[A-Za-z0-9]` |
| CsvExport.SanitizeKeepsLetters | client/src/lib/csv.ts:75 | letters and digits stay in place, lower-cased |
| CsvExport.SanitizeIdempotent | client/src/lib/csv.ts:75 | sanitising twice is sanitising once |
| CsvExport.EnrichmentFilename | client/src/lib/csv.ts:73-77 | the file name from the sanitised name and the date part of the timestamp; its contract is carried by `EnrichmentFilenameShape` |
| CsvExport.EnrichmentFilenameShape | client/src/lib/csv.ts:73-77 | for a timestamp `date` + `T` + time the name is `enrichment_` + sanitised name + `_` + date + `.csv`, of length 16 + name + date |
| RoundTrip.ScanPlain | client/src/lib/csvParser.ts:86-88 | outside quotes, a piece without comma or quote moves into the accumulator unchanged |
| RoundTrip.ScanQuoted | client/src/lib/csvParser.ts:73-81 | inside quotes, a value with quotes doubled followed by a closing quote is read back as the value, and the state leaves the quotes |
| RoundTrip.QuotedClose | client/src/lib/csvParser.ts:78-81 | a quote not followed by a quote closes the quoted part |
| RoundTrip.QuotedEscape | client/src/lib/csvParser.ts:74-77 | a doubled quote inside quotes is read as one quote of the value |
| RoundTrip.QuotedChar | client/src/lib/csvParser.ts:86-88 | any other character inside quotes, a comma included, is read as itself |
| RoundTrip.ScanField | client/src/lib/csv.ts:39-43 | an escaped value is read back as the value up to the next comma or the end |
| RoundTrip.ScanJoined | client/src/lib/csvParser.ts:69-92 | the comma-joined escaped values are read back as the trimmed values |
| RoundTrip.FieldsOfEscaped | client/src/lib/csvParser.ts:64-95 | `parseCSVLine(values.map(escapeCSVValue).join(','))` is the values, trimmed, even with commas, quotes and line breaks inside them |
| RoundTrip.RoundTripTrimmed | client/src/lib/csv.ts:39-40 | for trimmed values the round trip is exact |
| RoundTrip.UntrimmedLost | client/src/lib/csvParser.ts:84 | a value with white space at an end does not come back as written, even quoted |
| RoundTrip.QuotedField | client/src/lib/__tests__/csvParser.test.ts:28-29 | a quoted field without inner quotes, such as `"Doe, John"`, reads as its trimmed inner text |
| RoundTrip.DoubleQuotesPlain | client/src/lib/csv.ts:40 | a value without quotes is unchanged by doubling |
| TableRoundTrip.CellValues | client/src/lib/csv.ts:22 | one cell text per header: the record's value, or `""` where it has none |
| TableRoundTrip.CellsEscaped | client/src/lib/csv.ts:22 | a data line is the escaped cell texts: a missing value is written like an empty one |
| TableRoundTrip.EscapeTrimmed | client/src/lib/csv.ts:31-44 | escaping a trimmed value gives a trimmed text, empty only for the empty value |
| TableRoundTrip.DataLineShape | client/src/lib/csv.ts:21-23 | each written data line is non-empty and trimmed, and its fields read back as the record's cell texts |
| TableRoundTrip.TextTrimmed | client/src/lib/csvParser.ts:24 | the reader's `trim` leaves the written text unchanged |
| TableRoundTrip.DataRowsOfSolidLines | client/src/lib/csvParser.ts:40-52 | data lines that are non-empty and trimmed give one row each, in order |
| TableRoundTrip.ParseArrayToCSV | client/src/lib/csv.ts:9-26 | `parseCSV(arrayToCSV(data))` succeeds with the first record's keys as columns, `rowCount == rows.length == data.length`, and row `i` built from record `i`'s cell texts, provided there is a record and a key, the keys are distinct, nothing holds a line break, trimming changes no key or value, and a single column has a non-empty key and no empty cell |
| TableRoundTrip.ParseArrayToCSVCell | client/src/lib/csvParser.ts:45-49 | under the same conditions each cell comes back: the record's value under that key, or `""` where it has none |
| TableRoundTrip.TrimTrailingBreak | client/src/lib/csvParser.ts:24 | the reader's `trim` drops a line break after a trimmed text |
| TableRoundTrip.BlankLastRecordLost | client/src/lib/csvParser.ts:24-42 | with one column, records `{a: "x"}` and `{a: ""}` are written as `a\nx\n`, which reads back as one row |
| EnrichmentUpload.Override | client/src/pages/EnrichmentUploadPage.tsx:90-98 | same length; the matching mappings get the new field and become manual; all others are unchanged |
| EnrichmentUpload.OverrideShape | client/src/pages/EnrichmentUploadPage.tsx:94 | an overridden mapping is manual even for the detected field, and keeps its column, confidence, completeness and samples |
| EnrichmentUpload.OverrideIdempotent | client/src/pages/EnrichmentUploadPage.tsx:90-98 | choosing the same field twice is choosing it once |
| EnrichmentUpload.OverrideLastWins | client/src/pages/EnrichmentUploadPage.tsx:90-98 | the last choice for a column wins |
| EnrichmentUpload.OverrideCommutes | client/src/pages/EnrichmentUploadPage.tsx:90-98 | choices for different columns commute |
| EnrichmentUpload.OverrideToFieldValid | client/src/pages/EnrichmentUploadPage.tsx:90-98 | sending a present column to a real field makes the mappings valid |
| EnrichmentUpload.DoNotImportAll | client/src/pages/EnrichmentUploadPage.tsx:271-273 | same length; every mapping goes to `DO_NOT_IMPORT` and becomes manual; nothing else changes |
| EnrichmentUpload.DoNotImportAllRejected | client/src/pages/EnrichmentUploadPage.tsx:271-273 | afterwards validation fails with the one message and submit is disabled |
| EnrichmentUpload.DoNotImportAllAbsorbs | client/src/pages/EnrichmentUploadPage.tsx:271-273 | it is idempotent and erases any earlier override |
| EnrichmentUpload.DoNotImportAllEmpty | client/src/pages/EnrichmentUploadPage.tsx:157-170 | afterwards every row would give an empty record |
| EnrichmentUpload.NothingImportedEmpty | client/src/pages/EnrichmentUploadPage.tsx:159-168 | mappings none of which is imported give an empty record |
| EnrichmentUpload.SubmitEnabled | client/src/pages/EnrichmentUploadPage.tsx:190 | submit is enabled iff there is parsed data and some mapping is imported |
| EnrichmentUpload.SubmitClick | client/src/pages/EnrichmentUploadPage.tsx:113-138 | invalid mappings give their first error; then a missing file gives the upload message; otherwise the dialog opens with the imported count, at least 1 |
| EnrichmentUpload.MappedColumns | client/src/pages/EnrichmentUploadPage.tsx:153-155 | the fields of the imported mappings, in order, upper case kept |
| EnrichmentUpload.MappedColumnsAppend | client/src/pages/EnrichmentUploadPage.tsx:153-155 | order is kept across a concatenation |
| EnrichmentUpload.MappedColumnsOf | client/src/pages/EnrichmentUploadPage.tsx:153-155 | each imported mapping adds its field, so duplicates are kept |
| EnrichmentUpload.MappedColumnsMembers | client/src/pages/EnrichmentUploadPage.tsx:153-155 | a field is listed iff some imported mapping targets it, and it is never empty or `DO_NOT_IMPORT` |
| EnrichmentUpload.DetectedValid | client/src/lib/fieldMapping.ts:70 | fresh detections are valid iff some column was auto-mapped |
| EnrichmentUpload.DetectedColumnsInCatalog | client/src/pages/EnrichmentUploadPage.tsx:153-155 | after detection every listed column is a catalog field other than `DO_NOT_IMPORT` |
| EnrichmentUpload.Writes | client/src/pages/EnrichmentUploadPage.tsx:160-164 | when a mapping writes a row's value: it is imported, its column is in the row with a non-blank value, and the key is the lower-cased field |
| EnrichmentUpload.Put | client/src/pages/EnrichmentUploadPage.tsx:160-166 | one step of the `forEach`: where `Writes` holds, the trimmed value is stored under the lower-cased field; otherwise the record is unchanged |
| EnrichmentUpload.RecordOf | client/src/pages/EnrichmentUploadPage.tsx:158-169 | the record of one row, mapping by mapping; its contract is carried by `RecordKeys`, `RecordLastWins`, `RecordValues` and `BuildRecord` |
| EnrichmentUpload.RecordKeys | client/src/pages/EnrichmentUploadPage.tsx:157-170 | a key is in a record iff some imported mapping has the lower-cased field as that key and a non-blank value in the row |
| EnrichmentUpload.RecordLastWins | client/src/pages/EnrichmentUploadPage.tsx:159-167 | the value under a key is the trimmed value of the last mapping that writes it; a blank value never overwrites |
| EnrichmentUpload.RecordValues | client/src/pages/EnrichmentUploadPage.tsx:163-166 | every stored value is trimmed and non-empty |
| EnrichmentUpload.BuildRecord | client/src/pages/EnrichmentUploadPage.tsx:158-169 | the `forEach` loop builds exactly `RecordOf(mappings, row)` |
| EnrichmentUpload.BuildRecords | client/src/pages/EnrichmentUploadPage.tsx:157-170 | one record per row, in row order, each `RecordOf(mappings, row)` |
| EnrichmentUpload.UploadPage.constructor | client/src/pages/EnrichmentUploadPage.tsx:26-29 | no file, no data, no mappings, dialog closed |
| EnrichmentUpload.UploadPage.FileParsed | client/src/pages/EnrichmentUploadPage.tsx:53-58 | stores the file, the parsed data and its detected mappings |
| EnrichmentUpload.UploadPage.HandleMappingChange | client/src/pages/EnrichmentUploadPage.tsx:90-98 | the mappings become `Override(...)`; nothing else changes |
| EnrichmentUpload.UploadPage.DoNotImportAllClick | client/src/pages/EnrichmentUploadPage.tsx:271-273 | the mappings become `DoNotImportAll(...)`; nothing else changes; submit is then disabled |
| EnrichmentUpload.UploadPage.HandleSubmitClick | client/src/pages/EnrichmentUploadPage.tsx:109-139 | the outcome of `SubmitClick`; the dialog opens only when that outcome opens it |
| EnrichmentUpload.UploadPage.HandleModalSubmit | client/src/pages/EnrichmentUploadPage.tsx:141-179 | closes the dialog; sends nothing without data; otherwise the request holds the name, the operator, `mappedColumns` and one `RecordOf` record per row |

## Left out

- File reading, toasts, `console.log`, JSX rendering, drag and drop, navigation. These are UI and I/O.
- The `createJob` call. `HandleModalSubmit` returns the request it would send. The success and error notices are not modelled.
- The file-type check in `handleFileSelect` and its error notice. These are UI. `UploadPage.FileParsed` starts at a successful parse.
- `handleRemoveFile`, "AUTO MAP ALL" and the column table are not part of this model.
- `downloadCSV`. It uses the DOM, a `Blob`, the byte-order mark and object URLs.
- The clock. `new Date().toISOString()` is the parameter `isoTimestamp` of `CsvExport.EnrichmentFilename`.
- The server routes and the API client. These are network I/O.
- Other pages and dialogs.
- Percent: `Math.round` over a floating-point ratio is modelled as exact round-half-up on integers. A ratio whose float product lands just beside a half would round differently.
- Text.ToLower: lowers ASCII letters only, while JavaScript's `toLowerCase` also lowers other scripts. On catalog identifiers (`EnrichmentUploadPage.tsx:162`) this changes nothing, because they are ASCII. But `Normalize` applies it to arbitrary column names (`fieldMapping.ts:83`), so detection can differ. The KELVIN SIGN U+212A lowers to `k` in JavaScript. So a column `WOR\u212A_EMAIL` is `BUSINESS_EMAIL` with 95 in the source but `EMAIL` with 90 in the model. And `LIN\u212AEDIN`, with samples that trip no other rule, is `LINKEDIN_URL` only in the source.
- CsvExport.Sanitize: works on Unicode scalar values, while the source's `/[^a-z0-9]/gi` (no `u` flag) works on UTF-16 code units. A character outside the Basic Multilingual Plane, such as an emoji, becomes `__` in the source but `_` in the model. The lengths stated by `Sanitize` and `EnrichmentFilenameShape` therefore count scalar values.
- Text.IsSpace: uses the fixed ECMAScript white-space set. Characters are Unicode scalar values, not UTF-16 code units.
- CsvExport.Escape: takes strings. It does not model `String(value)` on numbers or objects.
- Object key order beyond the first record's `Object.keys` is not modelled. Neither is the JSON encoding of the request.
- JavaScript prototype keys are not modelled. For example, a header named `__proto__`, or a mapped column such as `toString` that is absent from a row, acts differently on a plain object than on a map.
- TableRoundTrip.ParseArrayToCSV: the whole-table round trip holds only under `Exportable`, since both the writer and the reader lose information outside it. Values with white space at an end come back trimmed (`RoundTrip.UntrimmedLost`). A missing value comes back as `""`. With a single column, an empty cell writes a blank line, which the reader skips or trims away, so fewer rows come back (`TableRoundTrip.BlankLastRecordLost`). Keys beyond the first record's are not written.
- A line break inside a quoted value. It cannot reach `parseCSVLine` through `parseCSV`, which splits the whole text on `\n` first. `RoundTrip.FieldsOfEscaped` is therefore stated for one line.
- The catalog's labels and categories are kept as data. Nothing is proved about them because no logic reads them.
