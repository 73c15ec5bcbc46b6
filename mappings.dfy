/** Where placeholder text comes from: the built-in table, a JSON mapping
    file, and the rule that chooses between them. */
module Mappings {
  import opened Values

  // The 61 categories of the built-in table (encrypt.go lines 16-76), in
  // the table's order. The set is written as four displays, of encrypt.go
  // lines 16-31, 32-46, 47-61 and 62-76, only to keep each proof about it
  // small; the helper lemmas below that name a single display, or spell
  // out a few placeholders, exist for the same reason.
  const CategoriesA: set<string> := {
    "email", "name", "gender", "mobile_number", "credit_card", "passport",
    "national_id", "bank_account", "address", "dob", "ssn", "license",
    "username", "password", "pin", "employee_id"
  }

  const CategoriesB: set<string> := {
    "vehicle_registration", "insurance_policy", "medical_record",
    "bank_routing_number", "tax_id", "crypto_wallet", "biometric_data",
    "home_phone", "work_phone", "fax_number", "social_media_handle",
    "marital_status", "education_level", "employment_history", "salary"
  }

  const CategoriesC: set<string> := {
    "income_tax_return", "credit_score", "membership_id",
    "loyalty_card_number", "subscription_id", "event_attendance",
    "purchase_history", "location_data", "wifi_networks", "device_id",
    "authentication_token", "session_id", "device_serial_number",
    "account_number", "routing_number"
  }

  const CategoriesD: set<string> := {
    "credit_card_expiration", "driver_license_number", "bank_statement",
    "utility_bills", "personal_references", "voter_id", "healthcare_id",
    "patient_id", "biometric_fingerprint", "biometric_face_data",
    "digital_signature", "security_question", "security_answer",
    "medical_history", "emergency_contact"
  }

  const DefaultCategories: set<string> := CategoriesA + CategoriesB + CategoriesC + CategoriesD

  /** The built-in placeholder of a category: the category in angle
      brackets, except that "national_id" reads "<nation_id>". */
  function DefaultPlaceholderOf(category: string): string
  {
    if category == "national_id" then "<nation_id>" else Bracketed(category)
  }

  /** A category in angle brackets. */
  function Bracketed(category: string): string
  {
    "<" + category + ">"
  }

  /** The built-in category -> placeholder table. */
  const DefaultPIIMappings: map<string, string> :=
    map category | category in DefaultCategories :: DefaultPlaceholderOf(category)

  /** What loading a file needs from the outside world: reading the file
      at a path, and decoding its bytes as a JSON object of strings. Both
      are foreign code (the operating system and the JSON library). A
      document that decodes to JSON null gives a nil map, which reads as
      the empty map. */
  datatype Environment = Environment(
    readFile: string -> Result<seq<Byte>>,
    unmarshal: seq<Byte> -> Result<map<string, string>>)

  /** Reads the file, then decodes it; the first failure is returned as is.
      What this promises is stated by the three lemmas that follow. */
  function LoadPIITagMappings(path: string, env: Environment): Result<map<string, string>>
  {
    match env.readFile(path)
    case Err(e) => Err(e)
    case Ok(file) =>
      match env.unmarshal(file)
      case Err(e) => Err(e)
      case Ok(mappings) => Ok(mappings)
  }

  /** When the file cannot be read, the decoder is never consulted: any
      decoder gives the same result, which is the read error itself. */
  lemma ReadFailureSkipsDecoder(path: string, env: Environment,
                                decoder: seq<Byte> -> Result<map<string, string>>)
    requires env.readFile(path).Err?
    ensures LoadPIITagMappings(path, env) == LoadPIITagMappings(path, Environment(env.readFile, decoder))
    ensures LoadPIITagMappings(path, env) == Err(env.readFile(path).error)
  {
  }

  /** Only the named file matters: two file systems that hold the same
      content, or the same error, at that path give the same result. */
  lemma LoadReadsOnlyPath(path: string, env: Environment,
                          files: string -> Result<seq<Byte>>)
    requires files(path) == env.readFile(path)
    ensures LoadPIITagMappings(path, env) == LoadPIITagMappings(path, Environment(files, env.unmarshal))
  {
  }

  /** A load succeeds exactly when both the read and the decoding do, and
      then holds the decoded mapping unaltered; when the file is read but
      does not decode, the decoder's error is returned as it is. */
  lemma LoadSucceedsWhenBothSucceed(path: string, env: Environment)
    ensures LoadPIITagMappings(path, env).Ok? <==>
      env.readFile(path).Ok? && env.unmarshal(env.readFile(path).value).Ok?
    ensures LoadPIITagMappings(path, env).Ok? ==>
      LoadPIITagMappings(path, env).value == env.unmarshal(env.readFile(path).value).value
    ensures env.readFile(path).Ok? && env.unmarshal(env.readFile(path).value).Err? ==>
      LoadPIITagMappings(path, env) == Err(env.unmarshal(env.readFile(path).value).error)
  {
  }

  /** True when the optional path argument names a file. */
  predicate HasPath(mappingsPath: seq<string>)
  {
    |mappingsPath| > 0 && mappingsPath[0] != ""
  }

  /** The mapping a call uses: the file named by the first optional path
      argument when it is present and non-empty, the built-in table
      otherwise. Shared by ReplacePIITags and NewPIIHook. */
  function SelectMappings(mappingsPath: seq<string>, env: Environment): Result<map<string, string>>
  {
    if HasPath(mappingsPath) then LoadPIITagMappings(mappingsPath[0], env)
    else Ok(DefaultPIIMappings)
  }

  /** Without a path the built-in table is used and the file system is
      never consulted, whatever it holds; with one, only the first path
      argument matters; only loading a file can fail. */
  lemma SelectionRule(mappingsPath: seq<string>, env: Environment, other: Environment)
    ensures !HasPath(mappingsPath) ==>
      SelectMappings(mappingsPath, env) == Ok(DefaultPIIMappings) == SelectMappings(mappingsPath, other)
    ensures HasPath(mappingsPath) ==>
      SelectMappings(mappingsPath, env) == LoadPIITagMappings(mappingsPath[0], env)
      && SelectMappings(mappingsPath, env) == SelectMappings(mappingsPath[..1], env)
    ensures SelectMappings(mappingsPath, env).Err? ==> HasPath(mappingsPath)
  {
  }

  /** Each built-in category maps to its built-in placeholder. */
  lemma DefaultPlaceholder(category: string)
    requires category in DefaultCategories
    ensures category in DefaultPIIMappings
    ensures DefaultPIIMappings[category] == DefaultPlaceholderOf(category)
  {
  }

  /** Two categories of the table's first display. */
  lemma EmailAndNationalIdAreCategories()
    ensures "email" in CategoriesA && "national_id" in CategoriesA
  {
  }

  /** Bracketed spellings of short categories. */
  lemma BracketedPersonalCategories()
    ensures Bracketed("email") == "<email>"
    ensures Bracketed("name") == "<name>"
    ensures Bracketed("gender") == "<gender>"
    ensures Bracketed("passport") == "<passport>"
  {
  }

  /** Bracketed spellings of categories made of two words. */
  lemma BracketedNumberCategories()
    ensures Bracketed("mobile_number") == "<mobile_number>"
    ensures Bracketed("credit_card") == "<credit_card>"
    ensures Bracketed("bank_account") == "<bank_account>"
  {
  }

  /** Entries of the built-in table that are spelled out elsewhere. */
  lemma DefaultLookups()
    ensures DefaultPIIMappings["email"] == "<email>"
    ensures DefaultPIIMappings["national_id"] == "<nation_id>"
  {
    EmailAndNationalIdAreCategories();
    DefaultPlaceholder("email");
    DefaultPlaceholder("national_id");
    BracketedPersonalCategories();
  }

  /** Every category of the built-in table starts with a lower-case letter. */
  predicate PlainCategory(category: string)
  {
    |category| > 0 && 'a' <= category[0] <= 'z'
  }

  /** Every built-in category starts with a lower-case letter, shown one
      display at a time. */
  lemma DefaultCategoriesArePlain()
    ensures forall category :: category in DefaultCategories ==> PlainCategory(category)
  {
    CategoriesAArePlain();
    CategoriesBArePlain();
    CategoriesCArePlain();
    CategoriesDArePlain();
  }

  lemma CategoriesAArePlain()
    ensures forall category :: category in CategoriesA ==> PlainCategory(category)
  {
  }

  lemma CategoriesBArePlain()
    ensures forall category :: category in CategoriesB ==> PlainCategory(category)
  {
  }

  lemma CategoriesCArePlain()
    ensures forall category :: category in CategoriesC ==> PlainCategory(category)
  {
  }

  lemma CategoriesDArePlain()
    ensures forall category :: category in CategoriesD ==> PlainCategory(category)
  {
  }

  /** No placeholder of the built-in table is itself one of its categories:
      placeholders start with '<' and categories do not. */
  lemma DefaultPlaceholdersAreNotKeys()
    ensures forall category :: category in DefaultPIIMappings ==>
      DefaultPIIMappings[category] !in DefaultPIIMappings
  {
    DefaultCategoriesArePlain();
    forall category | category in DefaultPIIMappings
      ensures DefaultPIIMappings[category] !in DefaultPIIMappings
    {
      assert DefaultPIIMappings[category][0] == '<';
    }
  }
}
