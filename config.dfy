/** The category -> enabled configuration handed to EncryptPIIFields. */
module Config {
  import opened Values

  /** Copies `settings` entry by entry into a newly made map. The copy has
      exactly the keys of `settings`, each with the same flag; a nil or
      empty `settings` gives an empty map. Because the result is a new
      object, later writes to it leave `settings` as it is. The order in
      which a Go map is ranged over is unspecified, so each step picks any
      key not yet copied. */
  method NewConfig(settings: MapRef?<bool>) returns (config: MapRef<bool>)
    ensures fresh(config)
    ensures config.entries.Keys == Entries(settings).Keys
    ensures forall k :: k in config.entries ==> config.entries[k] == Entries(settings)[k]
  {
    config := new MapRef(map[]);
    // ranging over a nil map visits nothing
    var source := Entries(settings);
    var pending := source.Keys;
    while pending != {}
      invariant pending <= source.Keys
      invariant config.entries.Keys == source.Keys - pending
      invariant forall k :: k in config.entries ==> config.entries[k] == source[k]
      decreases pending
    {
      var k :| k in pending;
      var v := source[k];
      config.entries := config.entries[k := v];
      pending := pending - {k};
    }
  }
}
