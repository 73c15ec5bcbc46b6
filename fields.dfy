/** The two transformers that walk the top-level fields of a struct reached
    through a pointer and rewrite tagged string fields in place:
    EncryptPIIFields (one-way digest, gated by a per-category
    configuration) and ReplacePIITags (placeholder text from a mapping).
    The struct is the array of its fields in declaration order; neither
    walker descends into nested structs, slices, maps or pointers. */
module Fields {
  import opened Values
  import opened Mappings

  // ---------------------------------------------------------------------
  // EncryptPIIFields
  // ---------------------------------------------------------------------

  /** The configuration EncryptPIIFields consults: its first optional
      argument when that is given and not nil, the empty map otherwise. */
  function EffectiveConfig(config: seq<Option<map<string, bool>>>): map<string, bool>
  {
    if |config| > 0 && config[0].Some? then config[0].value else map[]
  }

  /** A field is digested when it carries a non-empty `pii` tag, the
      configuration does not switch that category off (a category missing
      from the configuration is on), it is settable and it holds a string. */
  predicate ShouldEncrypt(f: Field, config: map<string, bool>)
  {
    && f.tag != ""
    && (f.tag !in config || config[f.tag])
    && f.settable
    && f.value.Str?
  }

  /** The field after the digest policy: its string replaced by
      `encryptData` of it when ShouldEncrypt holds, untouched otherwise. */
  function EncryptField(f: Field, config: map<string, bool>, encryptData: string -> string): Field
  {
    if ShouldEncrypt(f, config) then f.(value := Str(encryptData(f.value.s))) else f
  }

  /** The struct after EncryptPIIFields: every field through EncryptField;
      field declarations never change. */
  function EncryptedFields(fields: seq<Field>, config: map<string, bool>, encryptData: string -> string)
    : (r: seq<Field>)
    ensures |r| == |fields|
    ensures forall i :: 0 <= i < |r| ==> SameDeclaration(r[i], fields[i])
  {
    seq(|fields|, i requires 0 <= i < |fields| => EncryptField(fields[i], config, encryptData))
  }

  /** Digests, in place, every field of the struct `v` that ShouldEncrypt
      selects under the effective configuration; `encryptData` is the
      SHA-256-and-hex digest. `v` stands for the struct the pointer
      argument points to. */
  method EncryptPIIFields(v: array<Field>, config: seq<Option<map<string, bool>>>,
                          encryptData: string -> string)
    modifies v
    ensures v[..] == EncryptedFields(old(v[..]), EffectiveConfig(config), encryptData)
  {
    var useConfig: map<string, bool>;
    if |config| > 0 && config[0].Some? {
      useConfig := config[0].value;
    } else {
      useConfig := map[];
    }

    var i := 0;
    while i < v.Length
      invariant 0 <= i <= v.Length
      invariant forall k :: 0 <= k < i ==> v[k] == EncryptField(old(v[k]), useConfig, encryptData)
      invariant forall k :: i <= k < v.Length ==> v[k] == old(v[k])
    {
      var field := v[i];
      var piiTag := field.tag;
      var configExists := piiTag in useConfig;
      var shouldEncrypt := configExists && useConfig[piiTag];
      if piiTag != "" && (!configExists || shouldEncrypt) && field.settable {
        if field.value.Str? {
          v[i] := field.(value := Str(encryptData(field.value.s)));
        }
      }
      i := i + 1;
    }
  }

  /** Field by field: a selected field holds the digest of its old string,
      and every other field is exactly as it was. */
  lemma EncryptedFieldAt(fields: seq<Field>, config: map<string, bool>,
                         encryptData: string -> string, i: nat)
    requires i < |fields|
    ensures ShouldEncrypt(fields[i], config) ==>
      EncryptedFields(fields, config, encryptData)[i].value == Str(encryptData(fields[i].value.s))
    ensures !ShouldEncrypt(fields[i], config) ==>
      EncryptedFields(fields, config, encryptData)[i] == fields[i]
  {
  }

  /** Fail closed: with no configuration argument, or a nil one, every
      tagged, settable string field is digested. */
  lemma FailClosedDefault(fields: seq<Field>, config: seq<Option<map<string, bool>>>,
                          encryptData: string -> string)
    requires |config| == 0 || config[0].None?
    ensures forall i :: 0 <= i < |fields| && fields[i].tag != "" && fields[i].settable && fields[i].value.Str? ==>
      EncryptedFields(fields, EffectiveConfig(config), encryptData)[i].value
        == Str(encryptData(fields[i].value.s))
  {
  }

  /** A category switched off explicitly is never digested; one switched on
      explicitly is digested exactly as if it were missing. */
  lemma ExplicitSwitch(fields: seq<Field>, config: map<string, bool>,
                       encryptData: string -> string, i: nat)
    requires i < |fields|
    ensures fields[i].tag in config && !config[fields[i].tag] ==>
      EncryptedFields(fields, config, encryptData)[i] == fields[i]
    ensures fields[i].tag in config && config[fields[i].tag] ==>
      EncryptedFields(fields, config, encryptData)[i]
        == EncryptedFields(fields, config - {fields[i].tag}, encryptData)[i]
  {
  }

  // ---------------------------------------------------------------------
  // ReplacePIITags
  // ---------------------------------------------------------------------

  /** A field takes a placeholder when it carries a non-empty `pii` tag, is
      settable, holds a string and its tag is a key of the mapping. No
      configuration can exempt a category. */
  predicate ShouldReplace(f: Field, mappings: map<string, string>)
  {
    && f.tag != ""
    && f.settable
    && f.value.Str?
    && f.tag in mappings
  }

  /** The field after the placeholder policy. */
  function ReplaceField(f: Field, mappings: map<string, string>): Field
  {
    if ShouldReplace(f, mappings) then f.(value := Str(mappings[f.tag])) else f
  }

  /** The struct after a successful ReplacePIITags; field declarations never
      change. */
  function ReplacedFields(fields: seq<Field>, mappings: map<string, string>): (r: seq<Field>)
    ensures |r| == |fields|
    ensures forall i :: 0 <= i < |r| ==> SameDeclaration(r[i], fields[i])
  {
    seq(|fields|, i requires 0 <= i < |fields| => ReplaceField(fields[i], mappings))
  }

  /** The field walk of ReplacePIITags once the mapping is chosen: writes
      each selected field's placeholder into `v` in place. */
  method WriteReplacements(v: array<Field>, mappings: map<string, string>)
    modifies v
    ensures v[..] == ReplacedFields(old(v[..]), mappings)
  {
    var i := 0;
    while i < v.Length
      invariant 0 <= i <= v.Length
      invariant forall k :: 0 <= k < i ==> v[k] == ReplaceField(old(v[k]), mappings)
      invariant forall k :: i <= k < v.Length ==> v[k] == old(v[k])
    {
      var field := v[i];
      var piiTag := field.tag;
      if piiTag != "" && field.settable {
        if field.value.Str? {
          if piiTag in mappings {
            var tag := mappings[piiTag];
            v[i] := field.(value := Str(tag));
          }
        }
      }
      i := i + 1;
    }
  }

  /** Chooses the mapping (the file named by the first path argument, the
      built-in table when there is none or it is empty) and writes each
      selected field's placeholder into the struct `v` in place. A failed
      load is returned before any field is touched; `None` stands for a nil
      error. */
  method ReplacePIITags(v: array<Field>, mappingsPath: seq<string>, env: Environment)
    returns (err: Option<LoadError>)
    modifies v
    ensures SelectMappings(mappingsPath, env).Err? ==>
      err == Some(SelectMappings(mappingsPath, env).error) && v[..] == old(v[..])
    ensures SelectMappings(mappingsPath, env).Ok? ==>
      err == None && v[..] == ReplacedFields(old(v[..]), SelectMappings(mappingsPath, env).value)
  {
    var mappings: map<string, string>;
    if |mappingsPath| > 0 && mappingsPath[0] != "" {
      var loaded := LoadPIITagMappings(mappingsPath[0], env);
      if loaded.Err? {
        return Some(loaded.error);
      }
      mappings := loaded.value;
    } else {
      mappings := DefaultPIIMappings;
    }

    WriteReplacements(v, mappings);
    return None;
  }

  /** Field by field: a tagged, settable string field whose tag is in the
      mapping holds that tag's placeholder; every other field, including a
      tagged string field whose tag the mapping lacks, is exactly as it was. */
  lemma ReplacedFieldAt(fields: seq<Field>, mappings: map<string, string>, i: nat)
    requires i < |fields|
    ensures ShouldReplace(fields[i], mappings) ==>
      ReplacedFields(fields, mappings)[i].value == Str(mappings[fields[i].tag])
    ensures !ShouldReplace(fields[i], mappings) ==> ReplacedFields(fields, mappings)[i] == fields[i]
  {
  }

  /** Untagged, unsettable and non-string fields are left alone by both
      walkers, whatever the configuration, mapping or digest. */
  lemma IneligibleFieldsUntouched(fields: seq<Field>, config: map<string, bool>,
                                  encryptData: string -> string, mappings: map<string, string>, i: nat)
    requires i < |fields|
    requires fields[i].tag == "" || !fields[i].settable || !fields[i].value.Str?
    ensures EncryptedFields(fields, config, encryptData)[i] == fields[i]
    ensures ReplacedFields(fields, mappings)[i] == fields[i]
  {
  }

  /** A placeholder depends on the tag alone, never on the old value, so
      replacing twice with the same mapping is replacing once. */
  lemma ReplaceIdempotent(fields: seq<Field>, mappings: map<string, string>)
    ensures ReplacedFields(ReplacedFields(fields, mappings), mappings) == ReplacedFields(fields, mappings)
  {
    var once := ReplacedFields(fields, mappings);
    var twice := ReplacedFields(once, mappings);
    forall i | 0 <= i < |fields|
      ensures twice[i] == once[i]
    {
      if ShouldReplace(fields[i], mappings) {
        assert ShouldReplace(once[i], mappings);
      } else {
        assert once[i] == fields[i];
      }
    }
  }

  // ---------------------------------------------------------------------
  // The sample Person record
  // ---------------------------------------------------------------------

  /** A field of Person. Every field of Person is exported, so reflection
      may set it; a tag of "" means the field has no `pii` tag. */
  function ExportedField(name: string, tag: string, value: Value): Field
  {
    Field(name, tag, true, value)
  }

  /** The sample Person record, before redaction. */
  function SamplePerson(): seq<Field>
  {
    [ ExportedField("UserID", "email", Str("user@example.com")),
      ExportedField("Fullname", "name", Str("John Doe")),
      ExportedField("Gender", "gender", Str("Male")),
      ExportedField("MobileNumber", "mobile_number", Str("1234567890")),
      ExportedField("CreditCard", "credit_card", Str("1234-5678-9876-5432")),
      ExportedField("Passport", "passport", Str("A12345678")),
      ExportedField("NationalID", "national_id", Str("123456789")),
      ExportedField("BankAccount", "bank_account", Str("9876543210")),
      ExportedField("Address", "", Str("123 Main St")),
      ExportedField("DOB", "", Str("1990-01-01")),
      ExportedField("SSN", "", Str("123-45-6789")),
      ExportedField("License", "", Str("D1234567")),
      ExportedField("Pincode", "", Int(1234)) ]
  }

  /** The redaction the sample expects: the eight tagged strings become
      their default placeholders ("<nation_id>" for the national ID); the
      untagged fields, and the integer, keep their values. */
  function ExpectedPerson(): seq<Field>
  {
    [ ExportedField("UserID", "email", Str("<email>")),
      ExportedField("Fullname", "name", Str("<name>")),
      ExportedField("Gender", "gender", Str("<gender>")),
      ExportedField("MobileNumber", "mobile_number", Str("<mobile_number>")),
      ExportedField("CreditCard", "credit_card", Str("<credit_card>")),
      ExportedField("Passport", "passport", Str("<passport>")),
      ExportedField("NationalID", "national_id", Str("<nation_id>")),
      ExportedField("BankAccount", "bank_account", Str("<bank_account>")),
      ExportedField("Address", "", Str("123 Main St")),
      ExportedField("DOB", "", Str("1990-01-01")),
      ExportedField("SSN", "", Str("123-45-6789")),
      ExportedField("License", "", Str("D1234567")),
      ExportedField("Pincode", "", Int(1234)) ]
  }

  /** The categories the sample Person tags. */
  const SampleTags: set<string> := {
    "email", "name", "gender", "mobile_number", "credit_card", "passport", "national_id", "bank_account"
  }

  /** Any mapping that gives the sample's categories their built-in
      placeholders turns the sample Person into the expected record. */
  lemma RedactSamplePersonUnder(mappings: map<string, string>)
    requires forall c :: c in SampleTags ==> c in mappings && mappings[c] == DefaultPlaceholderOf(c)
    ensures ReplacedFields(SamplePerson(), mappings) == ExpectedPerson()
  {
    BracketedPersonalCategories();
    BracketedNumberCategories();
    var r := ReplacedFields(SamplePerson(), mappings);
    forall i | 0 <= i < |r|
      ensures r[i] == ExpectedPerson()[i]
    {
      var field := SamplePerson()[i];
      if field.tag != "" {
        assert field.tag in SampleTags;
      }
      assert r[i] == ReplaceField(field, mappings);
    }
  }

  /** Replacing with the built-in table turns the sample Person into the
      expected record. */
  lemma RedactSamplePerson()
    ensures ReplacedFields(SamplePerson(), DefaultPIIMappings) == ExpectedPerson()
  {
    assert SampleTags <= CategoriesA;
    RedactSamplePersonUnder(DefaultPIIMappings);
  }
}
