/** The values the PII transformers work on: a struct's fields as Go's
    reflection sees them, the dynamic values stored in them and in log
    entries, and the error-or-value results of loading a mapping file. */
module Values {

  /** Go's nilable values (a nil map, a missing variadic argument). */
  datatype Option<+T> = None | Some(value: T)

  /** The two ways loading a mapping file fails: the file cannot be read,
      or its bytes are not a JSON object of strings. */
  datatype LoadError = IOFailure(message: string) | ParseFailure(message: string)

  /** A Go `(T, error)` pair where exactly one side is meaningful. */
  datatype Result<+T> = Ok(value: T) | Err(error: LoadError)

  type Byte = bv8

  /** A dynamic Go value, as held by a struct field or an `interface{}`.
      Only the string kind is ever inspected or rewritten; every other kind
      (numbers, booleans, nested structs, pointers, slices, maps) is carried
      along untouched, so it is represented by an opaque token. */
  datatype Value =
    | Str(s: string)
    | Int(i: int)
    | Opaque(token: nat)

  /** One top-level field of a struct reached through a pointer: its name,
      the text of its `pii` struct tag ("" when the tag is absent), whether
      reflection may set it (it is exported), and its current value. */
  datatype Field = Field(name: string, tag: string, settable: bool, value: Value)

  /** The field keeps its declaration; only the value may differ. */
  predicate SameDeclaration(f: Field, g: Field)
  {
    f.name == g.name && f.tag == g.tag && f.settable == g.settable
  }

  /** A Go map the core allocates or writes in place. Go maps are
      references: a `MapRef?` that is `null` is a nil map. (Maps the core
      only reads are passed by their contents, except NewConfig's argument,
      so that the copy's freshness can be stated against it.) */
  class MapRef<V> {
    var entries: map<string, V>

    constructor (entries: map<string, V>)
      ensures this.entries == entries
    {
      this.entries := entries;
    }
  }

  /** The entries of a Go map that may be nil: a nil map reads as empty. */
  function Entries<V>(m: MapRef?<V>): map<string, V>
    reads m
  {
    if m == null then map[] else m.entries
  }
}
