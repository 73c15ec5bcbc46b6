/** The logging hook: a mapping chosen once, at construction, and a rewrite
    of a log entry's field map that replaces every string value which is,
    letter for letter, a category of the mapping by that category's
    placeholder. It matches values against categories, not struct tags. */
module Hook {
  import opened Values
  import opened Mappings

  /** The value of a log field after the hook: a string that is a key of
      the mapping becomes that key's placeholder; anything else stays. */
  function Substitute(value: Value, mappings: map<string, string>): Value
  {
    if value.Str? && value.s in mappings then Str(mappings[value.s]) else value
  }

  /** The log entry after the hook: same keys, each value substituted once,
      against its original string. */
  function Redacted(data: map<string, Value>, mappings: map<string, string>): (r: map<string, Value>)
    ensures r.Keys == data.Keys
  {
    map key | key in data :: Substitute(data[key], mappings)
  }

  /** A hook holds the mapping it was built with; a nil mapping reads as
      the empty one. */
  datatype PIIHook = PIIHook(Mappings: map<string, string>)
  {
    /** Rewrites the log entry `data` in place and returns the same map.
        For each key, the inner walk over the mapping compares the value
        as it was when the key was reached, so at most one placeholder is
        written per key and no chain of substitutions is followed. A nil
        map has no entries and comes back nil. */
    method ReplacePIITags(data: MapRef?<Value>) returns (r: MapRef?<Value>)
      modifies data
      ensures r == data
      ensures data != null ==> data.entries == Redacted(old(data.entries), Mappings)
    {
      if data == null {
        return data;
      }
      ghost var original := data.entries;
      var pending := data.entries.Keys;
      while pending != {}
        invariant pending <= original.Keys
        invariant data.entries.Keys == original.Keys
        invariant forall key :: key in original && key !in pending ==>
          data.entries[key] == Substitute(original[key], Mappings)
        invariant forall key :: key in pending ==> data.entries[key] == original[key]
        decreases pending
      {
        var key :| key in pending;
        var value := data.entries[key];
        if value.Str? {
          var strValue := value.s;
          ghost var before := data.entries;
          var tags := Mappings.Keys;
          while tags != {}
            invariant tags <= Mappings.Keys
            invariant data.entries.Keys == original.Keys
            invariant forall k :: k in original && k != key ==> data.entries[k] == before[k]
            invariant data.entries[key] ==
              if strValue in Mappings && strValue !in tags then Str(Mappings[strValue]) else value
            decreases tags
          {
            var tag :| tag in tags;
            var placeholder := Mappings[tag];
            if strValue == tag {
              data.entries := data.entries[key := Str(placeholder)];
            }
            tags := tags - {tag};
          }
        }
        pending := pending - {key};
      }
      return data;
    }
  }

  /** Builds a hook over the mapping SelectMappings chooses: the built-in
      table without a path, the loaded file otherwise; a failed load gives
      the error and no hook. */
  function NewPIIHook(mappingsPath: seq<string>, env: Environment): (r: Result<PIIHook>)
    ensures r == match SelectMappings(mappingsPath, env)
                 case Ok(m) => Ok(PIIHook(m))
                 case Err(e) => Err(e)
  {
    if HasPath(mappingsPath) then
      match LoadPIITagMappings(mappingsPath[0], env)
      case Err(e) => Err(e)
      case Ok(mappings) => Ok(PIIHook(mappings))
    else
      Ok(PIIHook(DefaultPIIMappings))
  }

  /** The hook and the struct walker ReplacePIITags pick their mapping by
      the same rule. */
  lemma SameSelectionRule(mappingsPath: seq<string>, env: Environment)
    ensures NewPIIHook(mappingsPath, env).Ok? <==> SelectMappings(mappingsPath, env).Ok?
    ensures NewPIIHook(mappingsPath, env).Ok? ==>
      NewPIIHook(mappingsPath, env).value.Mappings == SelectMappings(mappingsPath, env).value
  {
  }

  /** Key by key: a string value that is a category becomes its
      placeholder; a non-string value, or a string that is no category, is
      unchanged. */
  lemma RedactedAt(data: map<string, Value>, mappings: map<string, string>, key: string)
    requires key in data
    ensures data[key].Str? && data[key].s in mappings ==>
      Redacted(data, mappings)[key] == Str(mappings[data[key].s])
    ensures !(data[key].Str? && data[key].s in mappings) ==>
      Redacted(data, mappings)[key] == data[key]
  {
  }

  /** One pass follows no chain: with "a" -> "b" and "b" -> "c", a value
      "a" ends as "b", and a second pass is needed to reach "c". So the
      hook is not idempotent for every mapping. */
  lemma NoChainedSubstitution()
    ensures Redacted(map["k" := Str("a")], map["a" := "b", "b" := "c"]) == map["k" := Str("b")]
    ensures Redacted(Redacted(map["k" := Str("a")], map["a" := "b", "b" := "c"]), map["a" := "b", "b" := "c"])
      == map["k" := Str("c")]
  {
    var m := map["a" := "b", "b" := "c"];
    var once := Redacted(map["k" := Str("a")], m);
    assert once["k"] == Str("b");
    assert once == map["k" := Str("b")];
    var twice := Redacted(once, m);
    assert twice["k"] == Str("c");
  }

  /** When no placeholder of the mapping is itself a category, a second
      pass changes nothing. */
  lemma RedactedIdempotent(data: map<string, Value>, mappings: map<string, string>)
    requires forall c :: c in mappings ==> mappings[c] !in mappings
    ensures Redacted(Redacted(data, mappings), mappings) == Redacted(data, mappings)
  {
    var once := Redacted(data, mappings);
    forall key | key in once
      ensures Substitute(once[key], mappings) == once[key]
    {
      if data[key].Str? && data[key].s in mappings {
        assert once[key] == Str(mappings[data[key].s]);
      }
    }
  }

  /** A hook over the built-in table is idempotent: placeholders of the
      table are never categories of it. */
  lemma DefaultHookIdempotent(data: map<string, Value>)
    ensures Redacted(Redacted(data, DefaultPIIMappings), DefaultPIIMappings)
      == Redacted(data, DefaultPIIMappings)
  {
    DefaultPlaceholdersAreNotKeys();
    RedactedIdempotent(data, DefaultPIIMappings);
  }
}
