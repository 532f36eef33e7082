/** Capability lists and capability calls: what is shown, what may be called, and which backend name a call reaches. */
module McpListsSpec {
  import opened Wrappers
  import opened Text

  /** A JSON value as far as the policies look into it; `Decoded` is what an embedded JSON text stands for. */
  datatype Json = Str(text: string) | Obj(fields: map<string, Json>) | Decoded(source: string) | Other(source: string)

  type Fields = map<string, Json>

  predicate Blank(s: string) { TrimSpace(s) == "" }

  function ParamKey(capabilityType: string): string { if capabilityType == "resources" then "uri" else "name" }

  /** The non-blank name of a list item, if it has one. */
  function NameOf(item: Json, keyField: string): Option<string> {
    if item.Obj? && keyField in item.fields && item.fields[keyField].Str? && !Blank(item.fields[keyField].text) then
      Some(item.fields[keyField].text)
    else None
  }

  // ---------------------------------------------------------------- rewriting

  datatype Entry = Entry(key: string, target: string, response: Fields)

  /** A configured list with its two indexes. */
  datatype Config = Config(entries: seq<Entry>, lookup: map<string, Entry>, targetLookup: map<string, Entry>)

  /** Later entries displace earlier ones under the same key and under the same target. */
  function WithEntry(c: Config, e: Entry): Config {
    Config(c.entries + [e],
           if Blank(e.key) then c.lookup else c.lookup[e.key := e],
           if Blank(e.target) then c.targetLookup else c.targetLookup[e.target := e])
  }

  function RequiredFields(capabilityType: string): seq<string> {
    ["name"] + if capabilityType == "tools" then ["description", "inputSchema"]
               else if capabilityType == "resources" then ["uri"] else []
  }

  predicate IsText(f: Fields, field: string) { field in f && f[field].Str? && !Blank(f[field].text) }

  /** An entry the policy accepts. */
  predicate WellFormed(item: Json, capabilityType: string) {
    && item.Obj?
    && (forall field :: field in RequiredFields(capabilityType) ==> IsText(item.fields, field))
    && ("target" in item.fields ==> IsText(item.fields, "target"))
  }

  function TextOf(f: Fields, field: string): string { if field in f && f[field].Str? then f[field].text else "" }

  /** `embedded` decodes a trimmed text that is a JSON object or array. */
  predicate IsEmbedded(text: string, embedded: string -> bool) {
    var t := TrimSpace(text);
    t != "" && (t[0] == '{' || t[0] == '[') && embedded(t)
  }

  function ResponseValue(v: Json, embedded: string -> bool): Json {
    if v.Str? && IsEmbedded(v.text, embedded) then Decoded(TrimSpace(v.text)) else v
  }

  function ResponseOf(f: Fields, embedded: string -> bool): Fields {
    map k | k in f && k != "target" :: ResponseValue(f[k], embedded)
  }

  function EntryOf(f: Fields, capabilityType: string, embedded: string -> bool): Entry {
    var key := TextOf(f, ParamKey(capabilityType));
    Entry(key, if "target" in f then TextOf(f, "target") else key, ResponseOf(f, embedded))
  }

  function Configured(list: seq<Json>, capabilityType: string, embedded: string -> bool): Option<Config> {
    if list == [] then Some(Config([], map[], map[]))
    else
      var last := list[|list| - 1];
      var c := Configured(list[..|list| - 1], capabilityType, embedded);
      if c.Some? && WellFormed(last, capabilityType) then
        Some(WithEntry(c.value, EntryOf(last.fields, capabilityType, embedded)))
      else None
  }

  datatype Call = Blocked | Reaches(name: string)

  /** What a call to a non-blank name becomes. */
  function CallTo(c: Config, name: string): Call {
    if name !in c.lookup then Blocked
    else
      var e := c.lookup[name];
      Reaches(if e.target != "" && e.target != name then e.target else name)
  }

  /** The backend names among the listed items that are configured, in order. */
  function Kept(items: seq<Json>, keyField: string, c: Config): seq<string> {
    if items == [] then []
    else
      var n := NameOf(items[|items| - 1], keyField);
      Kept(items[..|items| - 1], keyField, c) + if n.Some? && n.value in c.targetLookup then [n.value] else []
  }

  /** The list that is shown. */
  function Shown(items: seq<Json>, keyField: string, c: Config): (r: seq<Json>)
  {
    var k := Kept(items, keyField, c);
    seq(|k|, i requires 0 <= i < |k| => if k[i] in c.targetLookup then Obj(c.targetLookup[k[i]].response) else Obj(map[]))
  }

  ghost predicate LastWithTarget(c: Config, i: int) {
    0 <= i < |c.entries| && forall j :: i < j < |c.entries| ==> c.entries[j].target != c.entries[i].target
  }

  ghost predicate LastWithKey(c: Config, i: int) {
    0 <= i < |c.entries| && forall j :: i < j < |c.entries| ==> c.entries[j].key != c.entries[i].key
  }

  /** Each index points at the last entry of its key or target, and at nothing else. */
  ghost predicate KeyIndexHolds(c: Config) {
    && (forall k :: k in c.lookup ==> exists i :: LastWithKey(c, i) && c.entries[i].key == k && c.lookup[k] == c.entries[i])
    && (forall i :: LastWithKey(c, i) ==> c.entries[i].key in c.lookup && c.lookup[c.entries[i].key] == c.entries[i])
  }

  ghost predicate TargetIndexHolds(c: Config) {
    && (forall t :: t in c.targetLookup ==>
          exists i :: LastWithTarget(c, i) && c.entries[i].target == t && c.targetLookup[t] == c.entries[i])
    && (forall i :: LastWithTarget(c, i) ==>
          c.entries[i].target in c.targetLookup && c.targetLookup[c.entries[i].target] == c.entries[i])
  }

  ghost predicate IndexHolds(c: Config) {
    && (forall e :: e in c.entries ==> !Blank(e.key) && !Blank(e.target))
    && KeyIndexHolds(c) && TargetIndexHolds(c)
  }

  lemma LastOfOneMore(c: Config, e: Entry, i: int)
    requires 0 <= i < |c.entries|
    ensures var d := WithEntry(c, e);
            && (LastWithKey(d, i) <==> LastWithKey(c, i) && c.entries[i].key != e.key)
            && (LastWithTarget(d, i) <==> LastWithTarget(c, i) && c.entries[i].target != e.target)
  {
    var d, n := WithEntry(c, e), |c.entries|;
    assert d.entries[n] == e && forall j :: 0 <= j < n ==> d.entries[j] == c.entries[j];
    assert LastWithKey(d, i) ==> d.entries[n].key != d.entries[i].key;
    assert LastWithTarget(d, i) ==> d.entries[n].target != d.entries[i].target;
  }

  lemma NewestIsLast(c: Config, e: Entry)
    ensures var d := WithEntry(c, e);
            && LastWithKey(d, |c.entries|) && LastWithTarget(d, |c.entries|) && d.entries[|c.entries|] == e
            && (forall i :: LastWithKey(c, i) || LastWithTarget(c, i) ==> 0 <= i < |c.entries|)
            && (forall i :: LastWithKey(d, i) || LastWithTarget(d, i) ==> 0 <= i <= |c.entries|)
            && (forall i :: 0 <= i < |c.entries| ==> d.entries[i] == c.entries[i])
  {}

  lemma AddingKeepsKeyIndex(c: Config, e: Entry)
    requires KeyIndexHolds(c) && !Blank(e.key)
    ensures KeyIndexHolds(WithEntry(c, e))
  {
    hide LastWithKey, Blank;
    var d, n := WithEntry(c, e), |c.entries|;
    NewestIsLast(c, e);
    forall x | x in d.lookup
      ensures exists i :: LastWithKey(d, i) && d.entries[i].key == x && d.lookup[x] == d.entries[i]
    {
      if x != e.key {
        var i :| LastWithKey(c, i) && c.entries[i].key == x && c.lookup[x] == c.entries[i];
        LastOfOneMore(c, e, i);
        assert d.entries[i] == c.entries[i];
      }
    }
    forall i | LastWithKey(d, i)
      ensures d.entries[i].key in d.lookup && d.lookup[d.entries[i].key] == d.entries[i]
    {
      if i < n { LastOfOneMore(c, e, i); }
    }
  }

  lemma AddingKeepsTargetIndex(c: Config, e: Entry)
    requires TargetIndexHolds(c) && !Blank(e.target)
    ensures TargetIndexHolds(WithEntry(c, e))
  {
    hide LastWithTarget, Blank;
    var d, n := WithEntry(c, e), |c.entries|;
    NewestIsLast(c, e);
    forall x | x in d.targetLookup
      ensures exists i :: LastWithTarget(d, i) && d.entries[i].target == x && d.targetLookup[x] == d.entries[i]
    {
      if x != e.target {
        var i :| LastWithTarget(c, i) && c.entries[i].target == x && c.targetLookup[x] == c.entries[i];
        LastOfOneMore(c, e, i);
        assert d.entries[i] == c.entries[i];
      }
    }
    forall i | LastWithTarget(d, i)
      ensures d.entries[i].target in d.targetLookup && d.targetLookup[d.entries[i].target] == d.entries[i]
    {
      if i < n { LastOfOneMore(c, e, i); }
    }
  }

  lemma AddingKeepsIndex(c: Config, e: Entry)
    requires IndexHolds(c) && !Blank(e.key) && !Blank(e.target)
    ensures IndexHolds(WithEntry(c, e))
  {
    hide Blank, KeyIndexHolds, TargetIndexHolds;
    AddingKeepsKeyIndex(c, e);
    AddingKeepsTargetIndex(c, e);
  }

  /** An entry's response shows its key, unless that text was decoded as embedded JSON. */
  ghost predicate ShowsKey(e: Entry, keyField: string, embedded: string -> bool) {
    keyField in e.response && e.response[keyField] == ResponseValue(Str(e.key), embedded)
  }

  lemma {:induction false} ConfiguredHolds(list: seq<Json>, capabilityType: string, embedded: string -> bool)
    requires Configured(list, capabilityType, embedded).Some?
    ensures IndexHolds(Configured(list, capabilityType, embedded).value)
    ensures forall e :: e in Configured(list, capabilityType, embedded).value.entries ==>
              ShowsKey(e, ParamKey(capabilityType), embedded)
  {
    hide Blank, ResponseValue, IndexHolds;
    if list == [] {
      EmptyIndexHolds();
    } else {
      var n := |list| - 1;
      var c := Configured(list[..n], capabilityType, embedded).value;
      ConfiguredHolds(list[..n], capabilityType, embedded);
      var e := EntryOf(list[n].fields, capabilityType, embedded);
      assert ParamKey(capabilityType) in RequiredFields(capabilityType) by { assert RequiredFields(capabilityType)[0] == "name"; }
      assert IsText(list[n].fields, ParamKey(capabilityType));
      AddingKeepsIndex(c, e);
    }
  }

  lemma EmptyIndexHolds()
    ensures IndexHolds(Config([], map[], map[]))
  {}

  /** Whatever is shown for a backend name can be called by the name it shows, and the call reaches that backend name. */
  ghost predicate ShownIsCallable(c: Config, keyField: string) {
    forall b :: b in c.targetLookup ==>
                  var n := NameOf(Obj(c.targetLookup[b].response), keyField);
                  n.Some? && CallTo(c, n.value) == Reaches(b)
  }

  /** No later entry takes over the key of an entry that is shown, and no shown key reads as embedded JSON. */
  ghost predicate KeysAreTheirOwn(c: Config, embedded: string -> bool) {
    forall i :: LastWithTarget(c, i) ==> LastWithKey(c, i) && !IsEmbedded(c.entries[i].key, embedded)
  }

  /** A shown capability can be called exactly when keys are their own; distinct plain keys are enough. */
  lemma ShownIsCallableIff(list: seq<Json>, capabilityType: string, embedded: string -> bool)
    requires Configured(list, capabilityType, embedded).Some?
    ensures var c := Configured(list, capabilityType, embedded).value;
            ShownIsCallable(c, ParamKey(capabilityType)) <==> KeysAreTheirOwn(c, embedded)
  {
    hide Configured, IsEmbedded, Blank, TargetIndexHolds, KeyIndexHolds;
    ConfiguredHolds(list, capabilityType, embedded);
    var c, keyField := Configured(list, capabilityType, embedded).value, ParamKey(capabilityType);
    forall i | LastWithTarget(c, i)
      ensures var n := NameOf(Obj(c.entries[i].response), keyField);
              (n.Some? && CallTo(c, n.value) == Reaches(c.entries[i].target))
              <==> LastWithKey(c, i) && !IsEmbedded(c.entries[i].key, embedded)
    {
      var e := c.entries[i];
      assert e in c.entries && ShowsKey(e, keyField, embedded);
      var j := LastUnderKey(c, i);
      assert c.entries[j] in c.entries;
      EmptyIsBlank();
      assert CallTo(c, e.key) == Reaches(c.entries[j].target);
      assert i < j ==> c.entries[j].target != e.target;
      assert LastWithKey(c, i) <==> i == j;
    }
    TargetsAreLast(c);
  }

  /** The entry the key index holds for the key of entry `i`. */
  lemma LastUnderKey(c: Config, i: int) returns (j: int)
    requires IndexHolds(c) && 0 <= i < |c.entries|
    ensures i <= j && LastWithKey(c, j) && c.entries[j].key == c.entries[i].key
    ensures c.entries[i].key in c.lookup && c.lookup[c.entries[i].key] == c.entries[j]
    decreases |c.entries| - i
  {
    if LastWithKey(c, i) {
      j := i;
    } else {
      var k :| i < k < |c.entries| && c.entries[k].key == c.entries[i].key;
      j := LastUnderKey(c, k);
    }
  }

  lemma TargetsAreLast(c: Config)
    requires IndexHolds(c)
    ensures forall b :: b in c.targetLookup ==>
              exists i :: LastWithTarget(c, i) && c.entries[i].target == b && c.targetLookup[b] == c.entries[i]
    ensures forall i :: LastWithTarget(c, i) ==>
              c.entries[i].target in c.targetLookup && c.targetLookup[c.entries[i].target] == c.entries[i]
  {}

  lemma EmptyIsBlank()
    ensures Blank("")
  {}

  lemma DistinctKeysAreTheirOwn(c: Config, embedded: string -> bool)
    requires forall i, j :: 0 <= i < j < |c.entries| ==> c.entries[i].key != c.entries[j].key
    requires forall e :: e in c.entries ==> !IsEmbedded(e.key, embedded)
    ensures KeysAreTheirOwn(c, embedded)
  {}

  /** Two tools under one name: both are listed under it, and a call reaches the later target only. */
  lemma ReusedKeyHidesATool(embedded: string -> bool)
    ensures var c := Configured([Tool("old"), Tool("new")], "tools", embedded);
            && c.Some? && !KeysAreTheirOwn(c.value, embedded)
            && "old" in c.value.targetLookup
            && NameOf(Obj(c.value.targetLookup["old"].response), "name") == Some("search")
            && CallTo(c.value, "search") == Reaches("new")
  {
    var old_, new_ := Tool("old"), Tool("new");
    var list := [old_, new_];
    PlainTexts(embedded);
    ToolEntry("old", embedded);
    ToolEntry("new", embedded);
    assert list[..1] == [old_] && [old_][..0] == [];
    var first := EntryOf(old_.fields, "tools", embedded);
    var second := EntryOf(new_.fields, "tools", embedded);
    var c0 := WithEntry(Config([], map[], map[]), first);
    var c := WithEntry(c0, second);
    assert Configured([old_], "tools", embedded) == Some(c0);
    assert Configured(list, "tools", embedded) == Some(c);
    assert c.entries == [first, second];
    assert LastWithTarget(c, 0) && !LastWithKey(c, 0) by { assert c.entries[1].key == c.entries[0].key; }
  }

  function Tool(target: string): Json {
    Obj(map["name" := Str("search"), "description" := Str("d"), "inputSchema" := Str("s"), "target" := Str(target)])
  }

  lemma PlainTexts(embedded: string -> bool)
    ensures !Blank("search") && !Blank("d") && !Blank("s") && !Blank("old") && !Blank("new")
    ensures !IsEmbedded("search", embedded)
  {
    PlainText("search");
    PlainText("d");
    PlainText("s");
    PlainText("old");
    PlainText("new");
  }

  lemma PlainText(s: string)
    requires s != "" && !IsSpace(s[0]) && !IsSpace(s[|s| - 1])
    ensures TrimSpace(s) == s && !Blank(s)
  {}

  lemma ToolEntry(target: string, embedded: string -> bool)
    requires target == "old" || target == "new"
    ensures WellFormed(Tool(target), "tools")
    ensures var e := EntryOf(Tool(target).fields, "tools", embedded);
            && e.key == "search" && e.target == target
            && NameOf(Obj(e.response), "name") == Some("search")
  {
    hide Blank, IsEmbedded;
    PlainTexts(embedded);
    assert forall field :: field in RequiredFields("tools") ==>
                             field == "name" || field == "description" || field == "inputSchema";
  }

  /** Every item of a shown list stands for an item of the backend's list, and is called by its shown name. */
  lemma ShownListReachesBackend(items: seq<Json>, keyField: string, c: Config)
    requires ShownIsCallable(c, keyField)
    ensures forall i :: 0 <= i < |Shown(items, keyField, c)| ==>
              var b := Kept(items, keyField, c)[i];
              var n := NameOf(Shown(items, keyField, c)[i], keyField);
              && (exists item :: item in items && NameOf(item, keyField) == Some(b))
              && n.Some? && CallTo(c, n.value) == Reaches(b)
  {
    KeptAreConfigured(items, keyField, c);
  }

  /** Exactly the items with a configured name are kept. */
  lemma {:induction false} KeptAreConfigured(items: seq<Json>, keyField: string, c: Config)
    ensures forall b :: b in Kept(items, keyField, c) <==>
              b in c.targetLookup && exists item :: item in items && NameOf(item, keyField) == Some(b)
  {
    hide NameOf;
    if items != [] {
      var n := |items| - 1;
      KeptAreConfigured(items[..n], keyField, c);
      assert items == items[..n] + [items[n]];
      forall b
        ensures b in Kept(items, keyField, c) <==>
                b in c.targetLookup && exists item :: item in items && NameOf(item, keyField) == Some(b)
      {
        if item :| item in items && NameOf(item, keyField) == Some(b) {
          assert item in items[..n] || item == items[n];
        }
      }
    }
  }

  // ---------------------------------------------------------------- access control

  datatype Acl = Acl(enabled: bool, mode: string, exceptions: set<string>)

  predicate Allowed(acl: Acl, name: string) { if acl.mode == "allow" then name !in acl.exceptions else name in acl.exceptions }

  /** Items without a usable name are listed in allow mode only. */
  predicate Listed(acl: Acl, item: Json, keyField: string) {
    var n := NameOf(item, keyField);
    if n.Some? then Allowed(acl, n.value) else acl.mode == "allow"
  }

  function Filtered(items: seq<Json>, acl: Acl, keyField: string): seq<Json> {
    if items == [] then []
    else
      var last := items[|items| - 1];
      Filtered(items[..|items| - 1], acl, keyField) + if Listed(acl, last, keyField) then [last] else []
  }

  datatype Answer = Passed | MissingName | Denied

  /** What the policy answers to a call naming `name`. */
  function CallAnswer(acl: Acl, name: string): Answer {
    if !acl.enabled then Passed else if Blank(name) then MissingName else if Allowed(acl, name) then Passed else Denied
  }

  /** An item with a non-blank name is listed exactly when a call to that name is not denied, nothing else is listed
      that was not there, and a list is left alone exactly when all its items are listed. */
  lemma {:induction false} ListedIffCallable(items: seq<Json>, acl: Acl, keyField: string)
    requires acl.enabled
    ensures forall item :: item in items && NameOf(item, keyField).Some? ==>
              (item in Filtered(items, acl, keyField) <==> CallAnswer(acl, NameOf(item, keyField).value).Passed?)
    ensures forall item :: item in Filtered(items, acl, keyField) <==> item in items && Listed(acl, item, keyField)
    ensures |Filtered(items, acl, keyField)| <= |items|
    ensures |Filtered(items, acl, keyField)| == |items| <==> Filtered(items, acl, keyField) == items
    ensures Filtered(items, acl, keyField) == items <==> forall item :: item in items ==> Listed(acl, item, keyField)
  {
    hide Allowed, Blank;
    if items != [] {
      var n := |items| - 1;
      ListedIffCallable(items[..n], acl, keyField);
      assert items == items[..n] + [items[n]];
    }
  }

  /** Filtering a filtered list changes nothing. */
  lemma FilteringIsIdempotent(items: seq<Json>, acl: Acl, keyField: string)
    requires acl.enabled
    ensures Filtered(Filtered(items, acl, keyField), acl, keyField) == Filtered(items, acl, keyField)
  {
    hide Listed, Filtered;
    ListedIffCallable(items, acl, keyField);
    ListedIffCallable(Filtered(items, acl, keyField), acl, keyField);
  }

  /** The filtered list keeps the order: it is what remains of the two halves of any cut. */
  lemma {:induction false} FilteringKeepsOrder(a: seq<Json>, b: seq<Json>, acl: Acl, keyField: string)
    ensures Filtered(a + b, acl, keyField) == Filtered(a, acl, keyField) + Filtered(b, acl, keyField)
  {
    hide Listed;
    if b == [] {
      assert a + b == a;
    } else {
      FilteringKeepsOrder(a, b[..|b| - 1], acl, keyField);
      assert (a + b)[..|a + b| - 1] == a + b[..|b| - 1];
    }
  }

  /** Listing and calling in words: in allow mode all but the exceptions, in any other mode the exceptions alone; an
      item without a usable name is listed in allow mode, and a call without one is answered so. */
  lemma AccessByMode(items: seq<Json>, acl: Acl, keyField: string, item: Json)
    requires acl.enabled && item in items
    ensures var listed, n := item in Filtered(items, acl, keyField), NameOf(item, keyField);
            && (n.None? ==> (listed <==> acl.mode == "allow"))
            && (n.Some? && acl.mode == "allow" ==>
                  && (listed <==> n.value !in acl.exceptions)
                  && (CallAnswer(acl, n.value).Denied? <==> n.value in acl.exceptions))
            && (n.Some? && acl.mode != "allow" ==>
                  && (listed <==> n.value in acl.exceptions)
                  && (CallAnswer(acl, n.value).Denied? <==> n.value !in acl.exceptions))
  {
    hide Blank, Filtered;
    ListedIffCallable(items, acl, keyField);
  }

  /** A name of blanks is missing, and a policy that is not enabled lets every call through. */
  lemma CallsInWords(acl: Acl, name: string)
    ensures !acl.enabled ==> CallAnswer(acl, name).Passed?
    ensures acl.enabled ==> (CallAnswer(acl, name).MissingName? <==> TrimSpace(name) == "")
  {}

  /** Items and calls are named by `uri` for resources and by `name` for anything else, if that is a text not blank. */
  lemma NamesInWords(f: Fields, capabilityType: string)
    ensures var key := if capabilityType == "resources" then "uri" else "name";
            NameOf(Obj(f), ParamKey(capabilityType)) ==
              if key in f && f[key].Str? && TrimSpace(f[key].text) != "" then Some(f[key].text) else None
  {}

  // ---------------------------------------------------------------- entries in words

  /** A list is accepted exactly when each of its entries is, and each becomes an entry, in order. */
  lemma {:induction false} EntriesInOrder(list: seq<Json>, capabilityType: string, embedded: string -> bool)
    ensures Configured(list, capabilityType, embedded).Some? <==> forall x :: x in list ==> WellFormed(x, capabilityType)
    ensures Configured(list, capabilityType, embedded).Some? ==>
              var entries := Configured(list, capabilityType, embedded).value.entries;
              && |entries| == |list|
              && forall i :: 0 <= i < |list| ==>
                   list[i].Obj? && entries[i] == EntryOf(list[i].fields, capabilityType, embedded)
  {
    hide WellFormed, EntryOf;
    if list != [] {
      var n := |list| - 1;
      EntriesInOrder(list[..n], capabilityType, embedded);
      assert list == list[..n] + [list[n]];
      assert WellFormed(list[n], capabilityType) ==> list[n].Obj? by { WellFormedInWords(list[n], capabilityType); }
    }
  }

  /** An entry is accepted exactly when it is an object with the texts its type requires, none of them blank, and a
      target, if any, that is such a text too. */
  lemma WellFormedInWords(x: Json, capabilityType: string)
    ensures WellFormed(x, capabilityType) <==>
              && x.Obj? && IsText(x.fields, "name")
              && (capabilityType == "tools" ==> IsText(x.fields, "description") && IsText(x.fields, "inputSchema"))
              && (capabilityType == "resources" ==> IsText(x.fields, "uri"))
              && ("target" in x.fields ==> IsText(x.fields, "target"))
  {
    hide IsText;
    var required := RequiredFields(capabilityType);
    assert required[0] == "name";
    assert capabilityType == "tools" ==> required[1] == "description" && required[2] == "inputSchema";
    assert capabilityType == "resources" ==> required[1] == "uri";
  }

  /** What becomes of an accepted entry: its key, its target, by default the key, and its fields but the target as they
      are, texts of embedded JSON objects and arrays decoded. */
  lemma EntryInWords(f: Fields, capabilityType: string, embedded: string -> bool)
    requires WellFormed(Obj(f), capabilityType)
    ensures var e := EntryOf(f, capabilityType, embedded);
            var key := if capabilityType == "resources" then "uri" else "name";
            && key in f && f[key] == Str(e.key)
            && ("target" in f ==> f["target"] == Str(e.target)) && ("target" !in f ==> e.target == e.key)
            && e.response.Keys == f.Keys - {"target"}
            && forall k :: k in e.response ==>
                 e.response[k] == if f[k].Str? && IsEmbedded(f[k].text, embedded) then Decoded(TrimSpace(f[k].text)) else f[k]
  {
    hide IsEmbedded, TrimSpace, Blank, WellFormed;
    WellFormedInWords(Obj(f), capabilityType);
  }

  /** Embedded JSON starts, blanks aside, with a brace or a bracket and decodes. */
  lemma EmbeddedInWords(text: string, embedded: string -> bool)
    ensures IsEmbedded(text, embedded) <==>
              var t := TrimSpace(text);
              t != "" && t[0] in {'{', '['} && embedded(t)
  {}
}
