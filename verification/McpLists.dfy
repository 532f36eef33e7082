/** The list and call handlers of the rewrite and access-control policies. */
module McpLists {
  import opened Wrappers
  import opened Text
  import opened McpListsSpec

  /** The response of an entry, field by field in whatever order the map is walked. */
  method BuildResponse(f: Fields, embedded: string -> bool) returns (response: Fields)
    ensures response == ResponseOf(f, embedded)
  {
    hide ResponseValue;
    response := map[];
    var todo := f.Keys;
    while todo != {}
      invariant todo <= f.Keys
      invariant forall k :: k in response <==> k in f && k !in todo && k != "target"
      invariant forall k :: k in response ==> response[k] == ResponseValue(f[k], embedded)
      decreases |todo|
    {
      var k :| k in todo;
      todo := todo - {k};
      if k == "target" { continue; }
      var v := DecodeEmbedded(f[k], embedded);
      response := response[k := v];
    }
    assert response.Keys == ResponseOf(f, embedded).Keys;
  }

  method DecodeEmbedded(v: Json, embedded: string -> bool) returns (r: Json)
    ensures r == ResponseValue(v, embedded)
  {
    if v.Str? {
      var trimmed := TrimSpace(v.text);
      if trimmed != "" {
        var first := trimmed[0];
        if first == '{' || first == '[' {
          if embedded(trimmed) { return Decoded(trimmed); }
        }
      }
    }
    return v;
  }

  /** Checks one configured entry and works out its key and target. */
  method ParseEntry(item: Json, capabilityType: string, embedded: string -> bool) returns (entry: Option<Entry>)
    ensures entry == if WellFormed(item, capabilityType) then Some(EntryOf(item.fields, capabilityType, embedded)) else None
  {
    hide Blank, ResponseOf;
    if !item.Obj? { return None; }
    var f := item.fields;
    var requiredFields := RequiredFields(capabilityType);
    assert forall i :: 0 <= i < |requiredFields| ==> requiredFields[i] in requiredFields;
    for i := 0 to |requiredFields|
      invariant forall k :: 0 <= k < i ==> IsText(f, requiredFields[k])
    {
      if !IsText(f, requiredFields[i]) { return None; }
    }
    assert IsText(f, requiredFields[0]);
    assert capabilityType == "resources" ==> requiredFields[1] == "uri" && IsText(f, requiredFields[1]);
    var name, uri, target := f["name"].text, TextOf(f, "uri"), "";
    if "target" in f {
      if !IsText(f, "target") { return None; }
      target := f["target"].text;
    }
    EmptyIsBlank();
    if Blank(target) {
      target := if capabilityType == "resources" && !Blank(uri) then uri else name;
    }
    var response := BuildResponse(f, embedded);
    var entryKey := name;
    if capabilityType == "resources" { entryKey := uri; }
    return Some(Entry(entryKey, target, response));
  }

  /** Builds both indexes entry by entry; the first malformed entry rejects the list. */
  method ParseCapabilityConfig(list: seq<Json>, capabilityType: string, embedded: string -> bool)
    returns (config: Option<Config>)
    ensures config == Configured(list, capabilityType, embedded)
  {
    hide WellFormed, EntryOf, Blank;
    var c := Config([], map[], map[]);
    for i := 0 to |list|
      invariant Configured(list[..i], capabilityType, embedded) == Some(c)
    {
      assert list[..i + 1][..i] == list[..i];
      var entry := ParseEntry(list[i], capabilityType, embedded);
      if entry.None? {
        RejectedPrefix(list, i + 1, capabilityType, embedded);
        return None;
      }
      var entries, lookup, targetLookup := c.entries + [entry.value], c.lookup, c.targetLookup;
      if !Blank(entry.value.key) { lookup := lookup[entry.value.key := entry.value]; }
      if !Blank(entry.value.target) { targetLookup := targetLookup[entry.value.target := entry.value]; }
      c := Config(entries, lookup, targetLookup);
    }
    assert list[..|list|] == list;
    return Some(c);
  }

  /** A list with a rejected prefix is rejected. */
  lemma {:induction false} RejectedPrefix(list: seq<Json>, n: nat, capabilityType: string, embedded: string -> bool)
    requires n <= |list| && Configured(list[..n], capabilityType, embedded).None?
    ensures Configured(list, capabilityType, embedded).None?
    decreases |list|
  {
    if n == |list| {
      assert list[..n] == list;
    } else {
      assert list[..|list| - 1][..n] == list[..n];
      RejectedPrefix(list[..|list| - 1], n, capabilityType, embedded);
    }
  }

  /** Shows configured items only, as configured; any list that is not empty counts as changed. */
  method RewriteListItems(items: seq<Json>, capabilityType: string, c: Config) returns (shown: seq<Json>, changed: bool)
    requires c.entries == [] ==> c.targetLookup == map[]
    ensures shown == Shown(items, ParamKey(capabilityType), c)
    ensures changed <==> items != []
  {
    hide NameOf;
    var keyField := ParamKey(capabilityType);
    shown, changed := [], false;
    if |c.entries| == 0 {
      NothingKept(items, keyField, c);
      return [], |items| != 0;
    }
    for i := 0 to |items|
      invariant shown == Shown(items[..i], keyField, c)
      invariant changed <==> i > 0
    {
      assert items[..i + 1][..i] == items[..i];
      KeptAreConfigured(items[..i], keyField, c);
      changed := true;
      var key := NameOf(items[i], keyField);
      if key.None? { continue; }
      if key.value in c.targetLookup {
        shown := shown + [Obj(c.targetLookup[key.value].response)];
      }
    }
    assert items[..|items|] == items;
  }

  lemma {:induction false} NothingKept(items: seq<Json>, keyField: string, c: Config)
    requires c.targetLookup == map[]
    ensures Kept(items, keyField, c) == []
  {
    if items != [] { NothingKept(items[..|items| - 1], keyField, c); }
  }

  /** The rewritten name of an allowed call. */
  method RewriteCall(c: Config, capabilityName: string) returns (r: Call)
    ensures r == CallTo(c, capabilityName)
  {
    if capabilityName !in c.lookup { return Blocked; }
    var name := capabilityName;
    var entry := c.lookup[capabilityName];
    if entry.target != "" && entry.target != capabilityName { name := entry.target; }
    return Reaches(name);
  }

  /** Filters a list; the flag says whether anything was removed. */
  method FilterListItems(items: seq<Json>, capabilityType: string, acl: Acl) returns (filtered: seq<Json>, changed: bool)
    ensures filtered == Filtered(items, acl, ParamKey(capabilityType))
    ensures changed <==> filtered != items
  {
    hide NameOf, Allowed;
    var keyField := ParamKey(capabilityType);
    filtered, changed := [], false;
    for i := 0 to |items|
      invariant filtered == Filtered(items[..i], acl, keyField)
      invariant |filtered| <= i
      invariant changed <==> |filtered| < i
      invariant !changed ==> filtered == items[..i]
    {
      assert items[..i + 1][..i] == items[..i];
      var item := items[i];
      var key := NameOf(item, keyField);
      if key.None? {
        if acl.mode == "allow" { filtered := filtered + [item]; } else { changed := true; }
        continue;
      }
      if Allowed(acl, key.value) { filtered := filtered + [item]; } else { changed := true; }
    }
    assert items[..|items|] == items;
    if |filtered| != |items| { changed := true; }
  }
}
