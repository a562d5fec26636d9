/**
 * Column-to-field detection of the enrichment upload
 * (client/src/lib/fieldMapping.ts): the catalog of target fields, the
 * name normaliser, the three sample patterns, the ordered detection rules
 * and the validator.
 */
module FieldMapping {
  import opened Wrappers
  import opened Text
  import opened CsvParser

  // ---------------------------------------------------------------------------
  // The catalog
  // ---------------------------------------------------------------------------

  /** The AudienceLab fields a column can be mapped to. */
  datatype Field =
    | FirstName | LastName | Email | PhoneNumber | PersonalAddress | PersonalZip | PersonalState
    | PersonalCity | PersonalEmail | Sha256PersonalEmail | BusinessEmail | CompanyName | CompanyDomain
    | CompanyIndustry | LinkedinUrl | UpId | DoNotImport

  /** The identifier a field goes by in a mapping and in the upload. */
  function Value(f: Field): string {
    match f
    case FirstName => "FIRST_NAME"
    case LastName => "LAST_NAME"
    case Email => "EMAIL"
    case PhoneNumber => "PHONE_NUMBER"
    case PersonalAddress => "PERSONAL_ADDRESS"
    case PersonalZip => "PERSONAL_ZIP"
    case PersonalState => "PERSONAL_STATE"
    case PersonalCity => "PERSONAL_CITY"
    case PersonalEmail => "PERSONAL_EMAIL"
    case Sha256PersonalEmail => "SHA256_PERSONAL_EMAIL"
    case BusinessEmail => "BUSINESS_EMAIL"
    case CompanyName => "COMPANY_NAME"
    case CompanyDomain => "COMPANY_DOMAIN"
    case CompanyIndustry => "COMPANY_INDUSTRY"
    case LinkedinUrl => "LINKEDIN_URL"
    case UpId => "UP_ID"
    case DoNotImport => "DO_NOT_IMPORT"
  }

  const DoNotImportValue := "DO_NOT_IMPORT"

  /** No field other than `DO_NOT_IMPORT` goes by its identifier, and none goes by the empty string. */
  lemma ValueOfImportable(f: Field)
    ensures Value(f) != ""
    ensures Value(f) == DoNotImportValue <==> f == DoNotImport
  {
  }

  /** The identifier of an optional field, as stored in a mapping. */
  function ValueOf(field: Option<Field>): (r: Option<string>)
    ensures r.Some? <==> field.Some?
    ensures r.Some? ==> r.value in CatalogValues() && r.value != ""
    ensures r.Some? ==> (r.value == DoNotImportValue <==> field.value == DoNotImport)
  {
    match field
    case None => None
    case Some(f) =>
      CatalogComplete(f);
      ValueOfImportable(f);
      Some(Value(f))
  }

  /** `AvailableField`: a target field with its display label (`label`) and its group. */
  datatype AvailableField = AvailableField(value: string, labelText: string, category: string)

  /** `AVAILABLE_FIELDS`, in display order. */
  const AvailableFields: seq<AvailableField> := [
    AvailableField(Value(FirstName), "First Name", "Personal"),
    AvailableField(Value(LastName), "Last Name", "Personal"),
    AvailableField(Value(Email), "Email", "Personal"),
    AvailableField(Value(PhoneNumber), "Phone Number", "Personal"),
    AvailableField(Value(PersonalAddress), "Personal Address", "Personal"),
    AvailableField(Value(PersonalZip), "Personal Zip", "Personal"),
    AvailableField(Value(PersonalState), "Personal State", "Personal"),
    AvailableField(Value(PersonalCity), "Personal City", "Personal"),
    AvailableField(Value(PersonalEmail), "Personal Email", "Personal"),
    AvailableField(Value(Sha256PersonalEmail), "SHA256 Personal Email", "Personal"),
    AvailableField(Value(BusinessEmail), "Business Email", "Business"),
    AvailableField(Value(CompanyName), "Company Name", "Business"),
    AvailableField(Value(CompanyDomain), "Company Domain", "Business"),
    AvailableField(Value(CompanyIndustry), "Company Industry", "Business"),
    AvailableField(Value(LinkedinUrl), "LinkedIn URL", "Business"),
    AvailableField(Value(UpId), "UP ID", "System"),
    AvailableField(Value(DoNotImport), "Do Not Import", "Special")
  ]

  /** The field values of the catalog, in order. */
  function CatalogValues(): (r: seq<string>)
    ensures |r| == |AvailableFields|
    ensures forall k | 0 <= k < |r| :: r[k] == AvailableFields[k].value
  {
    seq(|AvailableFields|, k requires 0 <= k < |AvailableFields| => AvailableFields[k].value)
  }

  /** Every field is offered by the catalog. */
  lemma CatalogComplete(f: Field)
    ensures Value(f) in CatalogValues()
  {
    assert CatalogValues()[CatalogIndex(f)] == Value(f);
  }

  /** The position of a field in the catalog. */
  function CatalogIndex(f: Field): (k: nat)
    ensures k < |AvailableFields| && AvailableFields[k].value == Value(f)
  {
    match f
    case FirstName => 0
    case LastName => 1
    case Email => 2
    case PhoneNumber => 3
    case PersonalAddress => 4
    case PersonalZip => 5
    case PersonalState => 6
    case PersonalCity => 7
    case PersonalEmail => 8
    case Sha256PersonalEmail => 9
    case BusinessEmail => 10
    case CompanyName => 11
    case CompanyDomain => 12
    case CompanyIndustry => 13
    case LinkedinUrl => 14
    case UpId => 15
    case DoNotImport => 16
  }

  // ---------------------------------------------------------------------------
  // The column name as the rules see it
  // ---------------------------------------------------------------------------

  /** A character of the class `[_\s-]`. */
  predicate IsSeparator(c: char) {
    c == '_' || c == '-' || IsSpace(c)
  }

  /** `s.replace(/[_\s-]/g, '')`. */
  function Strip(s: string): (r: string)
    ensures |r| <= |s|
    ensures forall k | 0 <= k < |r| :: !IsSeparator(r[k])
    ensures forall c | c in r :: c in s
    decreases |s|
  {
    if |s| == 0 then ""
    else (if IsSeparator(s[0]) then "" else [s[0]]) + Strip(s[1..])
  }

  /** `columnName.toLowerCase().replace(/[_\s-]/g, '')`. */
  function Normalize(columnName: string): (r: string)
    ensures |r| <= |columnName|
    ensures forall k | 0 <= k < |r| :: !IsSeparator(r[k]) && !('A' <= r[k] <= 'Z')
  {
    var low := ToLower(columnName);
    var r := Strip(low);
    assert forall k | 0 <= k < |r| :: !('A' <= r[k] <= 'Z') by {
      forall k | 0 <= k < |r| ensures !('A' <= r[k] <= 'Z') {
        assert r[k] in low;
        var i :| 0 <= i < |low| && low[i] == r[k];
      }
    }
    r
  }

  lemma {:induction false} StripAppend(a: string, b: string)
    ensures Strip(a + b) == Strip(a) + Strip(b)
    decreases |a|
  {
    if |a| == 0 {
      assert a + b == b;
    } else {
      assert (a + b)[1..] == a[1..] + b;
      StripAppend(a[1..], b);
    }
  }

  lemma {:induction false} StripWithoutSeparators(s: string)
    requires forall k | 0 <= k < |s| :: !IsSeparator(s[k])
    ensures Strip(s) == s
    decreases |s|
  {
    if |s| > 0 {
      StripWithoutSeparators(s[1..]);
      assert [s[0]] + s[1..] == s;
    }
  }

  lemma LowerKeepsSeparator(c: char)
    ensures IsSeparator(LowerChar(c)) == IsSeparator(c)
  {
  }

  lemma ToLowerAppend(a: string, b: string)
    ensures ToLower(a + b) == ToLower(a) + ToLower(b)
  {
  }

  lemma ToLowerIdempotent(s: string)
    ensures ToLower(ToLower(s)) == ToLower(s)
  {
  }

  /** Stripping commutes with ASCII lowercasing: no letter is a separator and no separator is a letter. */
  lemma {:induction false} StripLower(s: string)
    ensures Strip(ToLower(s)) == ToLower(Strip(s))
    decreases |s|
  {
    if |s| > 0 {
      var low := ToLower(s);
      assert low == [LowerChar(s[0])] + ToLower(s[1..]);
      StripLower(s[1..]);
      LowerKeepsSeparator(s[0]);
      var head := if IsSeparator(s[0]) then "" else [s[0]];
      assert Strip(low) == ToLower(head) + Strip(ToLower(s[1..])) by {
        assert low[0] == LowerChar(s[0]) && low[1..] == ToLower(s[1..]);
      }
      ToLowerAppend(head, Strip(s[1..]));
    }
  }

  /** Normalising twice changes nothing: the result is lowercase and free of separators. */
  lemma NormalizeIdempotent(columnName: string)
    ensures Normalize(Normalize(columnName)) == Normalize(columnName)
  {
    var n := Normalize(columnName);
    StripLower(columnName);
    ToLowerIdempotent(Strip(columnName));
    assert ToLower(n) == n;
    StripWithoutSeparators(n);
  }

  /** Separators anywhere in the name are ignored. */
  lemma NormalizeDropsSeparator(a: string, c: char, b: string)
    requires IsSeparator(c)
    ensures Normalize(a + [c] + b) == Normalize(a + b)
  {
    assert ToLower(a + [c] + b) == ToLower(a) + [LowerChar(c)] + ToLower(b);
    assert ToLower(a + b) == ToLower(a) + ToLower(b);
    StripAppend(ToLower(a) + [LowerChar(c)], ToLower(b));
    StripAppend(ToLower(a), [LowerChar(c)]);
    StripAppend(ToLower(a), ToLower(b));
    assert Strip([LowerChar(c)]) == "" by {
      assert [LowerChar(c)][1..] == "";
    }
  }

  /** The case of ASCII letters is ignored. */
  lemma NormalizeIgnoresCase(a: string, b: string)
    requires |a| == |b|
    requires forall k | 0 <= k < |a| :: LowerChar(a[k]) == LowerChar(b[k])
    ensures Normalize(a) == Normalize(b)
  {
    assert ToLower(a) == ToLower(b);
  }

  // ---------------------------------------------------------------------------
  // The sample patterns
  // ---------------------------------------------------------------------------

  /** A character of the class `[^\s@]`. */
  predicate IsMailChar(c: char) {
    !IsSpace(c) && c != '@'
  }

  predicate AllMailChars(s: string) {
    forall k | 0 <= k < |s| :: IsMailChar(s[k])
  }

  /** `[^\s@]+\.[^\s@]+` on the whole of `d`. */
  predicate IsDottedHost(d: string) {
    AllMailChars(d) && exists j | 0 < j < |d| - 1 :: d[j] == '.'
  }

  /** `/^[^\s@]+@[^\s@]+\.[^\s@]+$/.test(s)`. */
  predicate IsEmailLike(s: string) {
    exists p | 0 < p < |s| :: s[p] == '@' && AllMailChars(s[..p]) && IsDottedHost(s[p + 1..])
  }

  /** A character of the class `[\d\s\-()]`. */
  predicate IsPhoneChar(c: char) {
    IsDigit(c) || IsSpace(c) || c == '-' || c == '(' || c == ')'
  }

  /** `/^\+?[\d\s\-()]+$/.test(s)`. */
  predicate IsPhoneLike(s: string) {
    var body := if |s| > 0 && s[0] == '+' then s[1..] else s;
    |body| > 0 && forall k | 0 <= k < |body| :: IsPhoneChar(body[k])
  }

  /** A character of the class `[a-z0-9-]` under the `i` flag. */
  predicate IsLabelChar(c: char) {
    IsLetter(c) || IsDigit(c) || c == '-'
  }

  /** `/^[a-z0-9-]+\.[a-z]{2,}$/i.test(s)`. */
  predicate IsDomainLike(s: string) {
    exists p | 0 < p < |s| - 2 :: s[p] == '.'
      && (forall k | 0 <= k < p :: IsLabelChar(s[k]))
      && (forall k | p < k < |s| :: IsLetter(s[k]))
  }

  /** `s.includes('linkedin.com')`. */
  predicate IsLinkedinLike(s: string) {
    Contains(s, "linkedin.com")
  }

  /** A domain-like sample has no `@`, so it is never e-mail-like. */
  lemma DomainNotEmail(s: string)
    requires IsDomainLike(s)
    ensures !IsEmailLike(s)
  {
    var p :| 0 < p < |s| - 2 && s[p] == '.' && (forall k | 0 <= k < p :: IsLabelChar(s[k])) && (forall k | p < k < |s| :: IsLetter(s[k]));
    forall q | 0 < q < |s| ensures s[q] != '@' {
      if q < p {
        assert IsLabelChar(s[q]);
      } else if q > p {
        assert IsLetter(s[q]);
      }
    }
  }

  /** A phone-like sample has neither letters, dots nor `@`, so it matches neither other pattern. */
  lemma PhoneNotOther(s: string)
    requires IsPhoneLike(s)
    ensures !IsDomainLike(s) && !IsEmailLike(s)
  {
    var body := if |s| > 0 && s[0] == '+' then s[1..] else s;
    var off := |s| - |body|;
    forall k | off <= k < |s| ensures IsPhoneChar(s[k]) {
      assert s[k] == body[k - off];
    }
    forall q | 0 < q < |s| ensures s[q] != '@' && s[q] != '.' {
      assert IsPhoneChar(s[q]);
    }
  }

  // ---------------------------------------------------------------------------
  // Detection
  // ---------------------------------------------------------------------------

  /** The `{ field, confidence }` a detection returns; `None` is `null`. */
  datatype Detection = Detection(field: Option<Field>, confidence: nat)

  /** The confidence the rules attach to each field they can return. */
  function ConfidenceOf(field: Option<Field>): nat {
    match field
    case None => 0
    case Some(f) =>
      match f
      case BusinessEmail | PersonalEmail | FirstName | LastName | LinkedinUrl => 95
      case Email | PersonalZip | CompanyName | PersonalCity | PersonalState => 90
      case PhoneNumber | CompanyDomain | CompanyIndustry => 85
      case _ => 80
  }

  /** `samples.some(s => pattern.test(s))` for each of the sample tests. */
  predicate SomeEmailSample(samples: seq<string>) {
    exists k | 0 <= k < |samples| :: IsEmailLike(samples[k])
  }

  predicate SomePhoneSample(samples: seq<string>) {
    exists k | 0 <= k < |samples| :: IsPhoneLike(samples[k])
  }

  predicate SomeDomainSample(samples: seq<string>) {
    exists k | 0 <= k < |samples| :: IsDomainLike(samples[k])
  }

  predicate SomeLinkedinSample(samples: seq<string>) {
    exists k | 0 <= k < |samples| :: IsLinkedinLike(samples[k])
  }

  /** The condition of the first rule, which claims the column for one of the e-mail fields. */
  predicate EmailRule(n: string, samples: seq<string>) {
    Contains(n, "email") || n == "e" || SomeEmailSample(samples)
  }

  /** The condition of the zip rule. */
  predicate ZipRule(n: string) {
    Contains(n, "zip") || Contains(n, "postal") || Contains(n, "postcode")
  }

  /** The first-match-wins chain over the normalised name `n` and the samples. */
  function Classify(n: string, samples: seq<string>): (d: Detection)
    ensures d.field != Some(DoNotImport) && d.field != Some(Sha256PersonalEmail)
    ensures d.confidence == ConfidenceOf(d.field)
  {
    if EmailRule(n, samples) then
      if Contains(n, "business") || Contains(n, "work") then Detection(Some(BusinessEmail), 95)
      else if Contains(n, "personal") then Detection(Some(PersonalEmail), 95)
      else Detection(Some(Email), 90)
    else if (Contains(n, "first") && Contains(n, "name")) || n == "firstname" || n == "fname" || n == "givenname" then
      Detection(Some(FirstName), 95)
    else if (Contains(n, "last") && Contains(n, "name")) || n == "lastname" || n == "lname" || n == "surname" || n == "familyname" then
      Detection(Some(LastName), 95)
    else if ZipRule(n) then
      Detection(Some(PersonalZip), 90)
    else if Contains(n, "phone") || Contains(n, "tel") || Contains(n, "mobile") || Contains(n, "cell") || SomePhoneSample(samples) then
      Detection(Some(PhoneNumber), 85)
    else if (Contains(n, "company") && Contains(n, "name")) || n == "company" || n == "companyname" || n == "organization" || n == "business" then
      Detection(Some(CompanyName), 90)
    else ClassifyLate(n, samples)
  }

  /** The rules after the company-name rule, in order: domain, LinkedIn, address, city, state, industry, UP ID. */
  function ClassifyLate(n: string, samples: seq<string>): (d: Detection)
    ensures d.field != Some(DoNotImport) && d.field != Some(Sha256PersonalEmail)
    ensures d.confidence == ConfidenceOf(d.field)
  {
    if Contains(n, "domain") || Contains(n, "website") || SomeDomainSample(samples) then
      Detection(Some(CompanyDomain), 85)
    else if Contains(n, "linkedin") || SomeLinkedinSample(samples) then
      Detection(Some(LinkedinUrl), 95)
    else if Contains(n, "address") || Contains(n, "street") then
      Detection(Some(PersonalAddress), 80)
    else if Contains(n, "city") then
      Detection(Some(PersonalCity), 90)
    else if Contains(n, "state") || Contains(n, "province") then
      Detection(Some(PersonalState), 90)
    else if Contains(n, "industry") || Contains(n, "sector") then
      Detection(Some(CompanyIndustry), 85)
    else if Contains(n, "upid") || n == "id" then
      Detection(Some(UpId), 80)
    else
      Detection(None, 0)
  }

  /** `detectFieldType`: a catalog field other than `DO_NOT_IMPORT` with confidence at least 80, or `null` with 0. */
  function DetectFieldType(columnName: string, samples: seq<string>): (d: Detection)
    ensures d.field.Some? ==> d.field.value != DoNotImport && d.confidence >= 80
    ensures d.field.None? <==> d.confidence == 0
  {
    Classify(Normalize(columnName), samples)
  }

  /** The e-mail rule comes first: when it fires, no other rule is consulted, and its sub-rules go business or work, then personal, then plain. */
  lemma EmailRuleFirst(columnName: string, samples: seq<string>)
    requires EmailRule(Normalize(columnName), samples)
    ensures var n := Normalize(columnName);
      var d := DetectFieldType(columnName, samples);
      && (Contains(n, "business") || Contains(n, "work") ==> d == Detection(Some(BusinessEmail), 95))
      && (!Contains(n, "business") && !Contains(n, "work") && Contains(n, "personal") ==> d == Detection(Some(PersonalEmail), 95))
      && (!Contains(n, "business") && !Contains(n, "work") && !Contains(n, "personal") ==> d == Detection(Some(Email), 90))
  {
  }

  /** Only the e-mail rule can return an e-mail field. */
  lemma EmailFieldOnlyFromEmailRule(columnName: string, samples: seq<string>)
    ensures var d := DetectFieldType(columnName, samples);
      d.field in {Some(Email), Some(PersonalEmail), Some(BusinessEmail)} <==> EmailRule(Normalize(columnName), samples)
  {
  }

  /** A name mentioning zip, postal or postcode is never taken for a phone number, whatever the samples look like. */
  lemma ZipNeverPhone(columnName: string, samples: seq<string>)
    requires ZipRule(Normalize(columnName))
    ensures DetectFieldType(columnName, samples).field != Some(PhoneNumber)
    ensures !EmailRule(Normalize(columnName), samples) ==> DetectFieldType(columnName, samples).field == Some(PersonalZip) || DetectFieldType(columnName, samples).field in {Some(FirstName), Some(LastName)}
  {
  }

  /** Names that differ only in separators and letter case are classified alike. */
  lemma DetectIgnoresSeparator(a: string, c: char, b: string, samples: seq<string>)
    requires IsSeparator(c)
    ensures DetectFieldType(a + [c] + b, samples) == DetectFieldType(a + b, samples)
  {
    NormalizeDropsSeparator(a, c, b);
  }

  lemma DetectIgnoresCase(a: string, b: string, samples: seq<string>)
    requires |a| == |b|
    requires forall k | 0 <= k < |a| :: LowerChar(a[k]) == LowerChar(b[k])
    ensures DetectFieldType(a, samples) == DetectFieldType(b, samples)
  {
    NormalizeIgnoresCase(a, b);
  }

  /** A sample without `@` is never taken for an e-mail address. */
  lemma NoAtNotEmail(s: string)
    requires '@' !in s
    ensures !IsEmailLike(s)
  {
  }

  lemma NoAtSamples(samples: seq<string>)
    requires forall k | 0 <= k < |samples| :: '@' !in samples[k]
    ensures !SomeEmailSample(samples)
  {
    forall k | 0 <= k < |samples| ensures !IsEmailLike(samples[k]) {
      NoAtNotEmail(samples[k]);
    }
  }

  /** `FIRST_NAME` and `first name` both normalise to `firstname`, and a column of either name is a first name. */
  lemma FirstNameExample(samples: seq<string>)
    requires forall k | 0 <= k < |samples| :: '@' !in samples[k]
    ensures Normalize("FIRST_NAME") == "firstname" && Normalize("first name") == "firstname"
    ensures DetectFieldType("FIRST_NAME", samples) == Detection(Some(FirstName), 95)
    ensures DetectFieldType("first name", samples) == Detection(Some(FirstName), 95)
  {
    FirstNameSpellings();
    NoAtSamples(samples);
    FirstNameKeywords();
  }

  /** The two spellings differ from `firstname` only by a separator and by case. */
  lemma FirstNameSpellings()
    ensures Normalize("FIRST_NAME") == "firstname" && Normalize("first name") == "firstname"
  {
    SnakeFirstName();
    SpacedFirstName();
  }

  lemma SnakeFirstName()
    ensures Normalize("FIRST_NAME") == "firstname"
  {
    assert "FIRST_NAME" == "FIRST" + ['_'] + "NAME";
    NormalizeDropsSeparator("FIRST", '_', "NAME");
    assert "FIRST" + "NAME" == "FIRSTNAME";
    FirstNameNormal();
  }

  lemma SpacedFirstName()
    ensures Normalize("first name") == "firstname"
  {
    assert "first name" == "first" + [' '] + "name";
    NormalizeDropsSeparator("first", ' ', "name");
    assert "first" + "name" == "firstname";
    FirstNameNormal();
  }

  lemma FirstNameNormal()
    ensures Normalize("FIRSTNAME") == "firstname" && Normalize("firstname") == "firstname"
  {
    assert ToLower("FIRSTNAME") == "firstname" && ToLower("firstname") == "firstname";
    StripWithoutSeparators("firstname");
  }

  lemma FirstNameKeywords()
    ensures !Contains("firstname", "email") && Contains("firstname", "first") && Contains("firstname", "name")
  {
    MissingChar("firstname", "email", 'l');
    ContainsAt("firstname", "first", 0);
    ContainsAt("firstname", "name", 5);
  }

  /** A column named `Email` is the plain e-mail field, whatever its samples. */
  lemma EmailExample(samples: seq<string>)
    ensures Classify("email", samples) == Detection(Some(Email), 90)
  {
    assert OccursAt("email", "email", 0);
    MissingChar("email", "business", 'b');
    MissingChar("email", "work", 'w');
    MissingChar("email", "personal", 'p');
  }

  // ---------------------------------------------------------------------------
  // Mappings
  // ---------------------------------------------------------------------------

  /** `FieldMapping`: one CSV column with its target field and the statistics shown beside it. */
  datatype FieldMapping = FieldMapping(
    csvColumn: string,
    mappedField: Option<string>,
    confidence: nat,
    completeness: nat,
    samples: seq<string>,
    isAutoMapped: bool)

  /** The mapping `detectFields` builds for one column. */
  function DetectColumn(column: string, rows: seq<Row>): (m: FieldMapping)
    ensures m.csvColumn == column
    ensures m.completeness == AnalyzeColumn(column, rows).completeness && m.samples == AnalyzeColumn(column, rows).samples
    ensures m.mappedField == ValueOf(DetectFieldType(column, m.samples).field)
    ensures m.confidence == DetectFieldType(column, m.samples).confidence
    ensures m.completeness <= 100 && |m.samples| <= 4
    ensures m.isAutoMapped <==> m.confidence > 70
    ensures m.isAutoMapped <==> m.mappedField.Some?
    ensures m.mappedField.Some? ==> m.mappedField.value in CatalogValues() && m.mappedField.value != DoNotImportValue
  {
    var stats := AnalyzeColumn(column, rows);
    var detected := DetectFieldType(column, stats.samples);
    FieldMapping(column, ValueOf(detected.field), detected.confidence, stats.completeness, stats.samples, detected.confidence > 70)
  }

  /** `detectFields`: one mapping per column, in column order, auto-mapped exactly when a field was detected. */
  function DetectFields(columns: seq<string>, rows: seq<Row>): (r: seq<FieldMapping>)
    ensures |r| == |columns|
    ensures forall i | 0 <= i < |r| :: r[i] == DetectColumn(columns[i], rows)
  {
    seq(|columns|, i requires 0 <= i < |columns| => DetectColumn(columns[i], rows))
  }

  /** `m.mappedField && m.mappedField !== 'DO_NOT_IMPORT'`: the mapping sends its column somewhere. */
  predicate IsImported(m: FieldMapping) {
    m.mappedField.Some? && m.mappedField.value != "" && m.mappedField.value != DoNotImportValue
  }

  /** `mappings.filter(isImported)`, in order. */
  function Imported(mappings: seq<FieldMapping>): (r: seq<FieldMapping>)
    ensures |r| <= |mappings|
    ensures forall k | 0 <= k < |r| :: IsImported(r[k])
    ensures |r| == 0 <==> forall k | 0 <= k < |mappings| :: !IsImported(mappings[k])
    decreases |mappings|
  {
    if |mappings| == 0 then []
    else
      var rest := Imported(mappings[1..]);
      assert forall k | 1 <= k < |mappings| :: mappings[1..][k - 1] == mappings[k];
      if IsImported(mappings[0]) then [mappings[0]] + rest else rest
  }

  lemma {:induction false} ImportedAppend(a: seq<FieldMapping>, b: seq<FieldMapping>)
    ensures Imported(a + b) == Imported(a) + Imported(b)
    decreases |a|
  {
    if |a| == 0 {
      assert a + b == b;
    } else {
      assert (a + b)[1..] == a[1..] + b;
      ImportedAppend(a[1..], b);
    }
  }

  const NoFieldMapped := "At least one field must be mapped"

  /** `{ isValid, errors }`. */
  datatype Validation = Validation(isValid: bool, errors: seq<string>)

  /** `validateMappings`: valid exactly when some column is imported; otherwise the one error message. */
  function ValidateMappings(mappings: seq<FieldMapping>): (v: Validation)
    ensures v.isValid <==> exists k | 0 <= k < |mappings| :: IsImported(mappings[k])
    ensures v.isValid ==> v.errors == []
    ensures !v.isValid ==> v.errors == [NoFieldMapped]
  {
    var errors := if |Imported(mappings)| == 0 then [NoFieldMapped] else [];
    Validation(|errors| == 0, errors)
  }

  /** Adding mappings on either side never makes a valid set invalid. */
  lemma ValidationMonotone(a: seq<FieldMapping>, b: seq<FieldMapping>)
    ensures ValidateMappings(a).isValid ==> ValidateMappings(a + b).isValid
    ensures ValidateMappings(b).isValid ==> ValidateMappings(a + b).isValid
  {
    ImportedAppend(a, b);
  }

  /** Two columns sent to the same field are accepted: the validator does not look for duplicates. */
  lemma DuplicateTargetsAccepted(m1: FieldMapping, m2: FieldMapping)
    requires IsImported(m1) && m1.mappedField == m2.mappedField
    ensures ValidateMappings([m1, m2]) == Validation(true, [])
  {
    assert IsImported([m1, m2][0]);
  }

  /** A set of mappings all sent to `DO_NOT_IMPORT`, or all unmapped, is rejected. */
  lemma NothingImportedRejected(mappings: seq<FieldMapping>)
    requires forall k | 0 <= k < |mappings| :: mappings[k].mappedField in {None, Some(DoNotImportValue)}
    ensures ValidateMappings(mappings) == Validation(false, [NoFieldMapped])
  {
    assert forall k | 0 <= k < |mappings| :: !IsImported(mappings[k]);
  }
}
