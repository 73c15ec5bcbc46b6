# piishield / piiencrypt in Dafny

A model of the Go library that hides personally identifiable information
(PII) in records. A struct field is marked with a `pii:"<category>"` tag.
The library then changes the field in one of two ways:

- `EncryptPIIFields` overwrites each tagged, settable string field in place
  with a one-way digest of its content (SHA-256, hex-encoded). A
  category → bool configuration can switch a category off. A category
  missing from the configuration is digested (fail closed).
- `ReplacePIITags` overwrites each tagged, settable string field in place
  with its category's placeholder text. The placeholders come from the
  built-in table `DefaultPIIMappings` or from a JSON file named by an
  optional path. A failed load is returned before any field is touched.

Two further parts are modelled:

- The logging hook `PIIHook`. `NewPIIHook` picks its mapping by the same
  rule. `PIIHook.ReplacePIITags` rewrites a log entry's
  `map[string]interface{}` in place: a string value that is exactly a
  category of the mapping becomes that category's placeholder.
- `NewConfig` copies a category → bool map into a newly made map.

Files and modules:

- `values.dfy` (`Values`): struct fields as reflection sees them, dynamic
  values, load errors and results, and `MapRef`, a Go map as a
  reference (`null` is a nil map).
- `mappings.dfy` (`Mappings`): the built-in table, `LoadPIITagMappings`
  over an abstract file system and JSON decoder, and the mapping-selection
  rule.
- `fields.dfy` (`Fields`): the two field walkers. Each is an imperative
  method over `array<Field>`, proved against a specification function.
  Lemmas state the per-field rules.
- `hook.dfy` (`Hook`): `PIIHook`, `NewPIIHook`, and the in-place map
  rewrite with its nested loop.
- `config.dfy` (`Config`): `NewConfig`.

Representation choices:

- The struct behind the pointer argument is an `array<Field>` in
  declaration order. A `Field` holds:
  - the field's name;
  - its `pii` tag text (`""` when the tag is absent);
  - whether reflection may set the field;
  - its value.
- A field's kind is the constructor of its value. Only `Str` values are
  ever rewritten.
- Go variadic arguments are sequences: `config ...map[string]bool` is a
  `seq<Option<map<string, bool>>>` (`None` is a nil map), and
  `mappingsPath ...string` is a `seq<string>`.
- Maps the core only reads are passed by their contents, except the
  argument of `NewConfig`. Maps the core allocates or writes are `MapRef`
  objects. `NewConfig`'s argument is also a `MapRef`, so that the contract
  can say the returned map is a fresh object, distinct from it.
- Ranging over a Go map has no fixed order. The loops pick any key not yet
  visited, and the contracts hold for every order.

## Model

| member | source | states |
|---|---|---|
| `Mappings.DefaultPlaceholder` | encrypt.go:15-77 | every built-in category is a key of the table and maps to itself in angle brackets, except "national_id", which maps to "<nation_id>" |
| `Mappings.DefaultLookups` | encrypt.go:16-22 | fixed built-in entries: "email" → "<email>" and "national_id" → "<nation_id>" |
| `Mappings.DefaultCategoriesArePlain` | encrypt.go:16-76 | every built-in category starts with a lower-case letter |
| `Mappings.DefaultPlaceholdersAreNotKeys` | encrypt.go:15-77 | no placeholder of the built-in table is itself one of its categories |
| `Mappings.ReadFailureSkipsDecoder` | encrypt.go:86-90 | when the file cannot be read, the read error is returned as it is and the decoder is never consulted: any decoder gives the same result |
| `Mappings.LoadReadsOnlyPath` | encrypt.go:86-90 | only the named file is read: file systems that agree at that path give the same load result |
| `Mappings.LoadSucceedsWhenBothSucceed` | encrypt.go:86-99 | a load succeeds exactly when both the read and the decoding succeed, and then holds the decoded mapping unaltered; no partial mapping is returned; a decoding error is returned as it is |
| `Mappings.SelectionRule` | encrypt.go:129-140 | with no path or an empty first path the built-in table is used, whatever the file system holds; otherwise the first path's load result; only a load can fail; paths after the first are ignored |
| `Fields.EncryptedFields` | encrypt.go:113-124 | the digest walk keeps every field's name, tag and settability, and keeps the field count |
| `Fields.EncryptPIIFields` | encrypt.go:101-125 | in place, the struct becomes EncryptedFields of its old fields under the first config argument, or the empty map when that is absent or nil |
| `Fields.EncryptedFieldAt` | encrypt.go:118-122 | a field with a non-empty tag that is missing from the config or set true, settable and a string holds the digest of its old string; every other field is unchanged |
| `Fields.FailClosedDefault` | encrypt.go:105-121 | with no config argument, or a nil one, every tagged, settable string field is digested |
| `Fields.ExplicitSwitch` | encrypt.go:118-119 | a category set false is never digested; a category set true is treated as if it were missing from the config |
| `Fields.ReplacedFields` | encrypt.go:145-159 | the placeholder walk keeps every field's name, tag and settability, and keeps the field count |
| `Fields.WriteReplacements` | encrypt.go:142-159 | in place, the struct becomes ReplacedFields of its old fields under the chosen mapping |
| `Fields.ReplacePIITags` | encrypt.go:128-162 | on a failed load, returns that error and leaves every field unchanged; otherwise returns nil and the struct is ReplacedFields of its old fields under SelectMappings' mapping |
| `Fields.ReplacedFieldAt` | encrypt.go:150-157 | a tagged, settable string field whose tag is in the mapping holds that tag's placeholder; a tag absent from the mapping, and every other field, is unchanged |
| `Fields.IneligibleFieldsUntouched` | encrypt.go:113-159 | untagged, unsettable and non-string fields are unchanged by both walks, whatever the config, digest or mapping |
| `Fields.ReplaceIdempotent` | encrypt.go:150-157 | replacing twice with the same mapping gives the same fields as replacing once |
| `Fields.RedactSamplePersonUnder` | main_test.go:45-59 | any mapping that gives the sample's eight categories their built-in placeholders turns the sample Person into the expected record |
| `Fields.RedactSamplePerson` | main_test.go:13-62 | under the built-in table, the sample Person's eight tagged strings become their placeholders ("<nation_id>" for NationalID); untagged fields and the int Pincode keep their values |
| `Hook.Redacted` | encrypt.go:220-229 | the hook's rewrite keeps the log entry's key set |
| `Hook.PIIHook.ReplacePIITags` | encrypt.go:220-232 | in place, the entry becomes Redacted of its old entries under the hook's mapping; returns the same map; a nil map comes back nil |
| `Hook.RedactedAt` | encrypt.go:221-228 | per key: a string value that is a category becomes its placeholder; a non-string value, or a string that is not a category, is unchanged |
| `Hook.NoChainedSubstitution` | encrypt.go:222-227 | each value is compared only with its original string: with "a" → "b" and "b" → "c", one pass turns "a" into "b", and a second pass turns it into "c" |
| `Hook.RedactedIdempotent` | encrypt.go:221-228 | when no placeholder is itself a category, a second pass changes nothing |
| `Hook.DefaultHookIdempotent` | encrypt.go:220-228 | a hook over the built-in table is idempotent |
| `Hook.NewPIIHook` | encrypt.go:202-216 | a hook over exactly the mapping SelectMappings (the struct walker's selection rule) chooses, or exactly that rule's load error and no hook |
| `Hook.SameSelectionRule` | encrypt.go:205-213 | NewPIIHook succeeds exactly when ReplacePIITags' mapping selection does, and holds the same mapping |
| `Config.NewConfig` | config.go:3-9 | returns a newly allocated map with exactly the keys of `settings` and the same flag for each key; a nil or empty `settings` gives an empty map, and `settings` is not changed |

## Left out

- `EncryptData` (encrypt.go:79-83): SHA-256 and hex encoding are foreign
  crypto code. The digest is a parameter `encryptData: string -> string`.
  It is deterministic, and no injectivity is assumed, so every lemma holds
  for any digest function.
- `LoadPIITagMappings` (encrypt.go:86-99): file reading and JSON decoding
  are I/O and a library parser. They are the two functions of an
  `Environment` parameter. Only the control flow between them is modelled.
  A file that decodes to JSON `null` gives a nil map, which is the empty
  map here.
- `DefaultPIIMappings` (encrypt.go:15): in Go it is an exported package
  variable, and the default branches (encrypt.go:139, 212) hand out that
  same map object, so a client's write to it would change later calls and
  existing hooks. The library itself never writes it, so the model holds
  it as an immutable constant and does not model that sharing.
- `NewPIIHook`: on a failed load Go returns the zero hook `PIIHook{}` (a
  nil mapping, which substitutes nothing) alongside the error
  (encrypt.go:209); the model returns only the error, and that zero hook
  is dropped.
- Reflection (`reflect.ValueOf(v).Elem()`, reading struct tags): the
  argument is already the struct's field array. The panic on a non-pointer
  or nil argument cannot arise from that type, so it is not modelled.
- `PIIHook.With` and `PIIHook.Run` (encrypt.go:170-199): plumbing for the
  zerolog logging library and log output.
- `fmt.Println` in `PIIHook.ReplacePIITags` (encrypt.go:230): console
  output.
- In the log hook, the Go type assertion `value.(string)`
  accepts only values whose dynamic type is exactly `string`. In a log
  entry, a value of a named string type is therefore represented as
  `Opaque`, not `Str`. In the struct walkers, `Str` stands for any field
  of string kind, as `Kind() == reflect.String` does.
- `example/example.go`: a demo program that only calls the library and
  prints.
- `main_test.go` calls a `Redact` function that is not part of this model.
  Its expected record is checked against `ReplacePIITags` with the
  built-in table instead (`Fields.RedactSamplePerson`).
- The built-in table is written as a comprehension over its 61 categories
  (each maps to `"<" + category + ">"`, except `"national_id"`). It is the
  same map as the literal in encrypt.go:15-77. A single 61-entry map
  literal makes even simple lookups too costly to prove.
- A generic recursive walk over nested structs, slices, maps and
  pointers is not modelled. The Go code walks only a struct's top-level
  fields (encrypt.go:113, 145), so the model does the same. For the same
  reason, `ReplacePIITags` rewrites the caller's struct in place rather
  than returning a copy.
