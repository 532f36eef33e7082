/** What each part of an XML node becomes, and the trip of JSON whose keys are no valid tag names. */
module JsonXmlKeys {
  import opened JsonXml
  import opened JsonXmlLaws
  import opened JsonXmlSizes
  import opened JsonXmlSpec
  import opened Sequences
  import opened Text

  // ---------------------------------------------------------------- the parts of a node

  function AttributeKeys(attrs: seq<(string, string)>): set<string> { set a | a in attrs :: "@" + a.0 }

  /** No later attribute has the name of this one. */
  predicate LastOfName(attrs: seq<(string, string)>, i: int) {
    0 <= i < |attrs| && forall j :: i < j < |attrs| ==> attrs[j].0 != attrs[i].0
  }

  lemma {:induction false} AttributesHold(attrs: seq<(string, string)>, lib: Lib)
    ensures Attributes(attrs, lib).Keys == AttributeKeys(attrs)
    ensures forall i :: LastOfName(attrs, i) ==>
              "@" + attrs[i].0 in Attributes(attrs, lib) && Attributes(attrs, lib)["@" + attrs[i].0] == ParseValue(attrs[i].1, lib)
  {
    hide ParseValue, AttributeKeys;
    if attrs == [] {
      NoKeys();
    } else {
      var n := |attrs| - 1;
      var rest := attrs[..n];
      AttributesHold(rest, lib);
      OneKeyMore(rest, attrs[n]);
      assert attrs == rest + [attrs[n]];
      forall i | LastOfName(attrs, i)
        ensures "@" + attrs[i].0 in Attributes(attrs, lib)
        ensures Attributes(attrs, lib)["@" + attrs[i].0] == ParseValue(attrs[i].1, lib)
      {
        if i < n {
          assert attrs[n].0 != attrs[i].0 && LastOfName(rest, i);
          SameTail('@', attrs[n].0, attrs[i].0);
        }
      }
    }
  }

  lemma NoKeys()
    ensures AttributeKeys([]) == {}
  {}

  lemma OneKeyMore(attrs: seq<(string, string)>, a: (string, string))
    ensures AttributeKeys(attrs + [a]) == AttributeKeys(attrs) + {"@" + a.0}
  {
    assert forall x :: x in attrs + [a] <==> x in attrs || x == a;
  }

  lemma SameTail(c: char, a: string, b: string)
    ensures [c] + a == [c] + b ==> a == b
  {
    if [c] + a == [c] + b { assert a == ([c] + a)[1..] == ([c] + b)[1..] == b; }
  }

  /** The results of the children of one name, in order. */
  function Children(nodes: seq<Node>, name: string, lib: Lib): seq<Value> {
    if nodes == [] then []
    else (if nodes[0].name == name then [Process(nodes[0], lib)] else []) + Children(nodes[1..], name, lib)
  }

  lemma {:induction false} ChildrenArePicked(nodes: seq<Node>, name: string, lib: Lib)
    ensures Pick(ProcessAll(nodes, lib), name) == Children(nodes, name, lib)
    decreases |nodes|
  {
    hide Process;
    if nodes != [] {
      ChildrenArePicked(nodes[1..], name, lib);
      var rest := ProcessAll(nodes[1..], lib);
      assert ([(nodes[0].name, Process(nodes[0], lib))] + rest)[1..] == rest;
    }
  }

  /** The one child of its name. */
  predicate OnlyOfName(nodes: seq<Node>, i: int) {
    0 <= i < |nodes| && forall j :: 0 <= j < |nodes| && j != i ==> nodes[j].name != nodes[i].name
  }

  lemma {:induction false} NoChildren(nodes: seq<Node>, name: string, lib: Lib)
    requires forall n :: n in nodes ==> n.name != name
    ensures Children(nodes, name, lib) == []
    decreases |nodes|
  {
    if nodes != [] { NoChildren(nodes[1..], name, lib); }
  }

  lemma {:induction false} OnlyChild(nodes: seq<Node>, i: int, lib: Lib)
    requires OnlyOfName(nodes, i)
    ensures Children(nodes, nodes[i].name, lib) == [Process(nodes[i], lib)]
    decreases |nodes|
  {
    hide Process;
    if i == 0 {
      forall n | n in nodes[1..]
        ensures n.name != nodes[0].name
      {
        var j :| 0 <= j < |nodes| - 1 && nodes[1..][j] == n;
        assert nodes[j + 1] == n;
      }
      NoChildren(nodes[1..], nodes[0].name, lib);
    } else {
      assert nodes[0].name != nodes[i].name;
      assert forall j :: 0 <= j < |nodes| - 1 ==> nodes[1..][j] == nodes[j + 1];
      OnlyChild(nodes[1..], i - 1, lib);
    }
  }

  function TextKey(content: string): set<string> { if TrimSpace(content) != "" then {"#text"} else {} }

  /** A node with attributes or children becomes an object with exactly these keys: each attribute under `@`, each
      child name, and `#text` if it has text; and what each holds. */
  lemma NodeParts(node: Node, lib: Lib)
    requires node.attrs != [] || node.nodes != []
    ensures Process(node, lib).VObj?
    ensures Process(node, lib).fields.Keys == AttributeKeys(node.attrs) + NodeNames(node.nodes) + TextKey(node.content)
    ensures TrimSpace(node.content) != "" ==> Process(node, lib).fields["#text"] == ParseValue(TrimSpace(node.content), lib)
    ensures forall i :: LastOfName(node.attrs, i) && "@" + node.attrs[i].0 !in NodeNames(node.nodes) ==>
              Process(node, lib).fields["@" + node.attrs[i].0] == ParseValue(node.attrs[i].1, lib)
    ensures forall name :: name in NodeNames(node.nodes) - TextKey(node.content) ==>
              Process(node, lib).fields[name] == Bundle(Children(node.nodes, name, lib))
  {
    hide ParseValue, TrimSpace, Bundle, Children, Attributes, AttributeKeys, ProcessAll, Pick, Names, NodeNames;
    var attributes, pairs, text := Attributes(node.attrs, lib), ProcessAll(node.nodes, lib), TrimSpace(node.content);
    AttributesHold(node.attrs, lib);
    NamesAreNodeNames(node.nodes, lib);
    assert Collect(pairs).Keys == Names(pairs);
    var fields := attributes + Collect(pairs);
    assert Process(node, lib) == VObj(if text != "" then fields["#text" := ParseValue(text, lib)] else fields);
    forall name
      ensures Pick(pairs, name) == Children(node.nodes, name, lib)
    {
      ChildrenArePicked(node.nodes, name, lib);
    }
    forall i | LastOfName(node.attrs, i) && "@" + node.attrs[i].0 !in NodeNames(node.nodes)
      ensures Process(node, lib).fields["@" + node.attrs[i].0] == ParseValue(node.attrs[i].1, lib)
    {
      var key := "@" + node.attrs[i].0;
      assert key[0] == '@' && "#text"[0] == '#';
      assert key in attributes && key !in Collect(pairs) && fields[key] == attributes[key];
    }
  }

  /** A child met once stays itself; children that share a name become an array of as many values, in their order. */
  lemma {:induction false} ChildrenOfOneName(nodes: seq<Node>, name: string, lib: Lib)
    ensures forall i :: OnlyOfName(nodes, i) && nodes[i].name == name ==>
              Bundle(Children(nodes, name, lib)) == Process(nodes[i], lib)
    ensures (exists i, j :: 0 <= i < j < |nodes| && nodes[i].name == nodes[j].name == name) ==>
              Bundle(Children(nodes, name, lib)) == VArr(Children(nodes, name, lib))
  {
    hide Process;
    forall i | OnlyOfName(nodes, i) && nodes[i].name == name
      ensures Bundle(Children(nodes, name, lib)) == Process(nodes[i], lib)
    {
      OnlyChild(nodes, i, lib);
    }
    if i, j :| 0 <= i < j < |nodes| && nodes[i].name == nodes[j].name == name {
      ManyChildren(nodes, i, j, lib);
    }
  }

  lemma {:induction false} SomeChild(nodes: seq<Node>, i: int, lib: Lib)
    requires 0 <= i < |nodes|
    ensures |Children(nodes, nodes[i].name, lib)| >= 1
    decreases |nodes|
  {
    hide Process;
    if i > 0 { SomeChild(nodes[1..], i - 1, lib); }
  }

  lemma {:induction false} ManyChildren(nodes: seq<Node>, i: int, j: int, lib: Lib)
    requires 0 <= i < j < |nodes| && nodes[i].name == nodes[j].name
    ensures |Children(nodes, nodes[i].name, lib)| >= 2
    decreases |nodes|
  {
    hide Process;
    if i > 0 { ManyChildren(nodes[1..], i - 1, j - 1, lib); } else { SomeChild(nodes[1..], j - 1, lib); }
  }

  /** A node of text alone becomes its value, one of nothing becomes null. */
  lemma TextAlone(name: string, content: string, lib: Lib)
    ensures Process(Node(name, [], content, []), lib) ==
              if TrimSpace(content) == "" then VNull else ParseValue(TrimSpace(content), lib)
  {}

  // ---------------------------------------------------------------- any keys

  /** A key that is no valid tag name travels in an attribute, unless it is empty. */
  function KeptKey(tag: string, lib: Lib): map<string, Value> {
    if ValidName(tag, lib) || tag == "" || tag == "root" then map[] else map["@originalKey" := ParseValue(tag, lib)]
  }

  /** What a value under any key comes back as, from the entries in the order in which they were visited: an object
      that holds the kept key, and the text or the returned entries; entries whose keys sanitize alike end up in one
      array. */
  function Returned(data: Json, tag: string, lib: Lib): Value
    decreases data, 0
  {
    match data
    case Obj(fields) => ReturnedObject(KeptKey(tag, lib), ReturnedFields(fields, lib))
    case Arr(items) => ReturnedObject(KeptKey(tag, lib), ReturnedItems(items, tag, lib))
    case _ =>
      var text, kept := TrimSpace(Content(data)), KeptKey(tag, lib);
      if kept == map[] then (if text == "" then VNull else ParseValue(text, lib))
      else VObj(if text == "" then kept else kept["#text" := ParseValue(text, lib)])
  }

  function ReturnedObject(kept: map<string, Value>, pairs: Pairs): Value {
    if kept == map[] && pairs == [] then VNull else VObj(kept + Collect(pairs))
  }

  function ReturnedItems(items: seq<Json>, tag: string, lib: Lib): Pairs
    decreases items
  {
    if items == [] then [] else [(Sanitize(tag, lib), Returned(items[0], tag, lib))] + ReturnedItems(items[1..], tag, lib)
  }

  function ReturnedField(f: Field, lib: Lib): Pairs
    decreases f
  {
    if f.value.Arr? then ReturnedItems(f.value.items, f.key, lib)
    else [(Sanitize(f.key, lib), Returned(f.value, f.key, lib))]
  }

  function ReturnedFields(fields: seq<Field>, lib: Lib): Pairs
    decreases fields
  {
    if fields == [] then [] else ReturnedField(fields[0], lib) + ReturnedFields(fields[1..], lib)
  }

  /** The attributes of a built element. */
  lemma BuiltTag(data: Json, tag: string, lib: Lib)
    ensures var n := AsNode(Build(data, tag, lib));
            && n.name == Sanitize(tag, lib)
            && (n.attrs == [] <==> KeptKey(tag, lib) == map[]) && (n.attrs == [] || n.attrs == [("originalKey", tag)])
            && Attributes(n.attrs, lib) == KeptKey(tag, lib)
  {
    hide ParseValue, Sanitize, ValidName;
    SanitizeKeepsExactlyValid(tag, lib);
    var n := AsNode(Build(data, tag, lib));
    var kept := KeptKey(tag, lib);
    if n.attrs == [] {
      assert kept == map[];
    } else {
      assert n.attrs == [("originalKey", tag)] && n.attrs[..0] == [];
      assert "@" + "originalKey" == "@originalKey";
      assert "@originalKey" in kept;
      assert Attributes(n.attrs, lib) == Attributes([], lib)["@" + "originalKey" := ParseValue(tag, lib)];
    }
  }

  lemma {:induction false} BackIsReturned(data: Json, tag: string, lib: Lib)
    ensures Back(data, tag, lib) == Returned(data, tag, lib)
    decreases data, 0
  {
    hide ProcessAll, Collect, ParseValue, TrimSpace, KeptKey, Attributes, Sanitize;
    BuiltTag(data, tag, lib);
    var n := AsNode(Build(data, tag, lib));
    assert TrimSpace("") == "" by { NoText(); }
    match data
    case Obj(fields) =>
      FieldsReturned(fields, lib);
      ContainerReturned(n, KeptKey(tag, lib), lib);
    case Arr(items) =>
      ItemsReturned(items, tag, lib);
      ContainerReturned(n, KeptKey(tag, lib), lib);
    case _ =>
      LeafReturned(n, KeptKey(tag, lib), lib);
  }

  lemma NoText()
    ensures TrimSpace("") == ""
  {}

  lemma ContainerReturned(n: Node, kept: map<string, Value>, lib: Lib)
    requires n.content == "" && Attributes(n.attrs, lib) == kept && (n.attrs == [] <==> kept == map[])
    ensures Process(n, lib) == ReturnedObject(kept, ProcessAll(n.nodes, lib))
  {
    hide Attributes, Collect;
    NoText();
    ProcessAllLength(n.nodes, lib);
  }

  lemma LeafReturned(n: Node, kept: map<string, Value>, lib: Lib)
    requires n.nodes == [] && Attributes(n.attrs, lib) == kept && (n.attrs == [] <==> kept == map[])
    ensures var text := TrimSpace(n.content);
            Process(n, lib) ==
              if kept == map[] then (if text == "" then VNull else ParseValue(text, lib))
              else VObj(if text == "" then kept else kept["#text" := ParseValue(text, lib)])
  {
    hide Attributes, ParseValue, TrimSpace;
    assert Collect(ProcessAll([], lib)) == map[];
    assert kept + map[] == kept;
  }

  lemma {:induction false} ItemsReturned(items: seq<Json>, tag: string, lib: Lib)
    ensures ProcessAll(AsNodes(BuildItems(items, tag, lib)), lib) == ReturnedItems(items, tag, lib)
    decreases items
  {
    hide Process, Build, Sanitize, Returned;
    if items != [] {
      BackIsReturned(items[0], tag, lib);
      ItemsReturned(items[1..], tag, lib);
      BuiltTag(items[0], tag, lib);
    }
  }

  lemma {:induction false} FieldsReturned(fields: seq<Field>, lib: Lib)
    ensures ProcessAll(AsNodes(BuildFields(fields, lib)), lib) == ReturnedFields(fields, lib)
    decreases fields
  {
    hide Process, Build, Sanitize, Returned;
    if fields != [] {
      FieldsReturned(fields[1..], lib);
      AllPairsCons(fields, lib);
      FieldReturned(fields[0], lib);
    }
  }

  lemma {:induction false} FieldReturned(f: Field, lib: Lib)
    ensures FieldPairs(f, lib) == ReturnedField(f, lib)
    decreases f
  {
    hide Process, Build, Sanitize, Returned;
    if f.value.Arr? {
      ItemsReturned(f.value.items, f.key, lib);
    } else {
      BackIsReturned(f.value, f.key, lib);
      BuiltTag(f.value, f.key, lib);
      SingleBack(Build(f.value, f.key, lib), lib);
    }
  }

  /** XML-to-JSON of JSON-to-XML, for all JSON and every visiting order. */
  lemma RoundTripAnyKeys(data: Json, lib: Lib)
    ensures Mediated(data, lib) == VObj(map["root" := Returned(data, "root", lib)])
  {
    hide Returned;
    BackIsReturned(data, "root", lib);
    NoOriginalKey(data, "root", lib);
  }

  /** A scalar under a key that is no valid name comes back beside that key. */
  lemma InvalidKeyIsKept(data: Json, key: string, lib: Lib)
    requires !ValidName(key, lib) && key != "" && key != "root" && !data.Obj? && !data.Arr?
    ensures var kept := map["@originalKey" := ParseValue(key, lib)];
            var text := TrimSpace(Content(data));
            Returned(data, key, lib) == VObj(if text == "" then kept else kept["#text" := ParseValue(text, lib)])
  {
    hide ParseValue, TrimSpace, Sanitize, ValidName;
    assert "@originalKey" in KeptKey(key, lib);
  }

  /** The entry itself stands under the sanitized key. */
  lemma EntryIsSanitized(key: string, data: Json, lib: Lib)
    requires !data.Arr?
    ensures Returned(Obj([Field(key, data)]), "root", lib)
         == VObj(map[Sanitize(key, lib) := Returned(data, key, lib)])
  {
    hide ParseValue, TrimSpace, Sanitize, ValidName;
    var f := Field(key, data);
    var name, value := Sanitize(key, lib), Returned(data, key, lib);
    var pair := (name, value);
    assert ReturnedField(f, lib) == [pair];
    assert [f][1..] == [] && ReturnedFields([f], lib) == [pair] + [] == [pair];
    assert KeptKey("root", lib) == map[];
    OnePair(name, value);
    assert map[] + Collect([pair]) == Collect([pair]);
  }

  lemma OnePair(name: string, value: Value)
    ensures Collect([(name, value)]) == map[name := value]
  {
    var pairs := [(name, value)];
    assert pairs[1..] == [] && Pick(pairs, name) == [value] + [];
    assert (name, value) in pairs && forall p :: p in pairs ==> p == (name, value);
    assert Names(pairs) == {name} && Pick(pairs, name) == [value];
    var m, one := Collect(pairs), map[name := value];
    assert m[name] == Bundle([value]) == value;
    assert m.Keys == one.Keys && forall k :: k in one ==> m[k] == one[k];
    assert m == one;
  }

  // ---------------------------------------------------------------- order

  /** No two keys of one object sanitize alike. */
  ghost predicate SanitizeApart(data: Json, lib: Lib)
    decreases data
  {
    match data
    case Arr(items) => forall x :: x in items ==> SanitizeApart(x, lib)
    case Obj(fields) => NamesApart(fields, lib) && forall f :: f in fields ==> SanitizeApart(f.value, lib)
    case _ => true
  }

  ghost predicate NamesApart(fields: seq<Field>, lib: Lib) {
    forall i, j :: 0 <= i < j < |fields| ==> Sanitize(fields[i].key, lib) != Sanitize(fields[j].key, lib)
  }

  /** The values of one entry. */
  function ReturnedValues(f: Field, lib: Lib): seq<Value> {
    Pick(ReturnedField(f, lib), Sanitize(f.key, lib))
  }

  lemma {:induction false} ItemsUnderName(items: seq<Json>, tag: string, name: string, lib: Lib)
    requires name != Sanitize(tag, lib)
    ensures Pick(ReturnedItems(items, tag, lib), name) == []
    decreases |items|
  {
    hide Returned, Sanitize;
    if items != [] {
      ItemsUnderName(items[1..], tag, name, lib);
      var first, rest := (Sanitize(tag, lib), Returned(items[0], tag, lib)), ReturnedItems(items[1..], tag, lib);
      assert ([first] + rest)[1..] == rest;
    }
  }

  lemma FieldUnderName(f: Field, name: string, lib: Lib)
    requires name != Sanitize(f.key, lib)
    ensures Pick(ReturnedField(f, lib), name) == []
  {
    hide Returned, Sanitize;
    if f.value.Arr? {
      ItemsUnderName(f.value.items, f.key, name, lib);
    } else {
      assert ReturnedField(f, lib)[1..] == [];
    }
  }

  lemma {:induction false} NotUnderName(fields: seq<Field>, name: string, lib: Lib)
    requires forall f :: f in fields ==> Sanitize(f.key, lib) != name
    ensures Pick(ReturnedFields(fields, lib), name) == []
    decreases |fields|
  {
    hide ReturnedField, Sanitize;
    if fields != [] {
      NotUnderName(fields[1..], name, lib);
      FieldUnderName(fields[0], name, lib);
      PickAppend(ReturnedField(fields[0], lib), ReturnedFields(fields[1..], lib), name);
    }
  }

  lemma {:induction false} UnderName(fields: seq<Field>, i: nat, lib: Lib)
    requires i < |fields| && NamesApart(fields, lib)
    ensures Pick(ReturnedFields(fields, lib), Sanitize(fields[i].key, lib)) == ReturnedValues(fields[i], lib)
    decreases |fields|
  {
    hide ReturnedField, Sanitize, Pick;
    var name, rest := Sanitize(fields[i].key, lib), fields[1..];
    PickAppend(ReturnedField(fields[0], lib), ReturnedFields(rest, lib), name);
    if i == 0 {
      forall f | f in rest
        ensures Sanitize(f.key, lib) != name
      {
        var j :| 0 <= j < |rest| && rest[j] == f;
        assert fields[j + 1] == f;
      }
      NotUnderName(rest, name, lib);
    } else {
      FieldUnderName(fields[0], name, lib);
      UnderName(rest, i - 1, lib);
    }
  }

  lemma CollectedByName(a: Pairs, b: Pairs)
    requires forall name :: Pick(a, name) == Pick(b, name)
    ensures Collect(a) == Collect(b) && (a == [] <==> b == [])
  {
    hide Pick;
    forall name
      ensures name in Names(a) <==> name in Names(b)
    {
      PickAbsent(a, name);
      PickAbsent(b, name);
    }
    assert a != [] ==> a[0].0 in Names(a);
    assert b != [] ==> b[0].0 in Names(b);
  }

  /** When no two keys of an object sanitize alike, the order of entries does not matter. */
  lemma {:induction false} OrderIsForgotten(a: Json, b: Json, tag: string, lib: Lib)
    requires SanitizeApart(a, lib) && SanitizeApart(b, lib) && Meaning(a) == Meaning(b)
    ensures Returned(a, tag, lib) == Returned(b, tag, lib)
    decreases a, 0
  {
    hide Sanitize, KeptKey, Collect, ReturnedFields, ReturnedItems;
    match a
    case Obj(fields) =>
      FieldsForgetOrder(fields, b.fields, lib);
    case Arr(items) =>
      ItemsForgetOrder(items, b.items, tag, lib);
    case _ =>
      assert Content(a) == Content(b);
  }

  lemma {:induction false} ItemsForgetOrder(a: seq<Json>, b: seq<Json>, tag: string, lib: Lib)
    requires (forall x :: x in a ==> SanitizeApart(x, lib)) && (forall x :: x in b ==> SanitizeApart(x, lib))
    requires Meanings(a) == Meanings(b)
    ensures ReturnedItems(a, tag, lib) == ReturnedItems(b, tag, lib)
    decreases a
  {
    hide Sanitize, Returned, SanitizeApart;
    if a != [] {
      MeaningsCons(a, b);
      OrderIsForgotten(a[0], b[0], tag, lib);
      ItemsForgetOrder(a[1..], b[1..], tag, lib);
    }
  }

  lemma MeaningsCons(a: seq<Json>, b: seq<Json>)
    requires a != [] && Meanings(a) == Meanings(b)
    ensures b != [] && Meaning(a[0]) == Meaning(b[0]) && Meanings(a[1..]) == Meanings(b[1..])
  {
    hide Meaning;
    assert Meanings(a)[0] == Meaning(a[0]) && Meanings(b)[0] == Meaning(b[0]);
    assert Meanings(a)[1..] == Meanings(a[1..]) && Meanings(b)[1..] == Meanings(b[1..]);
  }

  lemma {:induction false} FieldForgetsOrder(f: Field, g: Field, lib: Lib)
    requires f.key == g.key && SanitizeApart(f.value, lib) && SanitizeApart(g.value, lib) && Meaning(f.value) == Meaning(g.value)
    ensures ReturnedField(f, lib) == ReturnedField(g, lib)
    decreases f
  {
    hide Sanitize, Returned;
    if f.value.Arr? {
      ItemsForgetOrder(f.value.items, g.value.items, f.key, lib);
    } else {
      assert !g.value.Arr?;
      OrderIsForgotten(f.value, g.value, f.key, lib);
    }
  }

  lemma ApartIsDistinct(fields: seq<Field>, lib: Lib)
    requires NamesApart(fields, lib)
    ensures DistinctKeys(fields)
  {
    hide Sanitize;
    forall i, j | 0 <= i < j < |fields|
      ensures fields[i].key != fields[j].key
    {
      assert Sanitize(fields[i].key, lib) != Sanitize(fields[j].key, lib);
    }
  }

  /** The entry of the other order that has the same key. */
  lemma SameEntry(a: seq<Field>, b: seq<Field>, i: nat, lib: Lib) returns (j: nat)
    requires i < |a| && DistinctKeys(a) && DistinctKeys(b) && MeaningFields(a) == MeaningFields(b)
    ensures j < |b| && b[j].key == a[i].key && Meaning(b[j].value) == Meaning(a[i].value)
  {
    hide Meaning;
    MeaningWithout(a, i);
    MeaningKeys(b);
    var f :| f in b && f.key == a[i].key;
    j :| 0 <= j < |b| && b[j] == f;
    MeaningWithout(b, j);
  }

  lemma {:induction false} FieldsForgetOrder(a: seq<Field>, b: seq<Field>, lib: Lib)
    requires NamesApart(a, lib) && NamesApart(b, lib)
    requires (forall f :: f in a ==> SanitizeApart(f.value, lib)) && (forall f :: f in b ==> SanitizeApart(f.value, lib))
    requires MeaningFields(a) == MeaningFields(b)
    ensures Collect(ReturnedFields(a, lib)) == Collect(ReturnedFields(b, lib))
    ensures ReturnedFields(a, lib) == [] <==> ReturnedFields(b, lib) == []
    decreases a
  {
    hide Sanitize, ReturnedFields, ReturnedField, ReturnedValues, Pick, Collect, SanitizeApart, Meaning, MeaningFields, NamesApart, DistinctKeys;
    ApartIsDistinct(a, lib);
    ApartIsDistinct(b, lib);
    forall name
      ensures Pick(ReturnedFields(a, lib), name) == Pick(ReturnedFields(b, lib), name)
    {
      if i :| 0 <= i < |a| && Sanitize(a[i].key, lib) == name {
        var j := SameEntry(a, b, i, lib);
        assert a[i] in a && b[j] in b;
        UnderName(a, i, lib);
        UnderName(b, j, lib);
        FieldForgetsOrder(a[i], b[j], lib);
        SameValues(a[i], b[j], lib);
      } else {
        forall f | f in b
          ensures Sanitize(f.key, lib) != name
        {
          var j :| 0 <= j < |b| && b[j] == f;
          var i := SameEntry(b, a, j, lib);
          assert Sanitize(a[i].key, lib) != name;
        }
        NotUnderName(a, name, lib);
        NotUnderName(b, name, lib);
      }
    }
    CollectedByName(ReturnedFields(a, lib), ReturnedFields(b, lib));
  }

  lemma SameValues(f: Field, g: Field, lib: Lib)
    requires f.key == g.key && ReturnedField(f, lib) == ReturnedField(g, lib)
    ensures ReturnedValues(f, lib) == ReturnedValues(g, lib)
  {}

  /** Otherwise it does: two entries of one decoded object, in either order. */
  lemma AlikeKeysShowOrder(lib: Lib)
    requires !IsNameChar(' ', lib) && !IsNameChar('?', lib)
    ensures var f, g := Field("a b", Bool(true)), Field("a?b", Null);
            && Meaning(Obj([f, g])) == Meaning(Obj([g, f]))
            && Returned(Obj([f, g]), "root", lib) != Returned(Obj([g, f]), "root", lib)
  {
    hide ParseValue, TrimSpace, Returned, Sanitize, ValidName;
    var f, g := Field("a b", Bool(true)), Field("a?b", Null);
    Underscored("a b", lib);
    Underscored("a?b", lib);
    var x, y := Returned(Bool(true), "a b", lib), Returned(Null, "a?b", lib);
    TwoEntries(f, g, "a_b", x, y, lib);
    TwoEntries(g, f, "a_b", y, x, lib);
    InvalidKeyIsKept(Bool(true), "a b", lib);
    InvalidKeyIsKept(Null, "a?b", lib);
    Texts();
    assert "#text" in x.fields && "#text" !in y.fields;
    assert VArr([x, y]) != VArr([y, x]) by { assert [x, y][0] != [y, x][0]; }
    assert [f, g][1..] == [g] && [g, f][1..] == [f] && [f][1..] == [] && [g][1..] == [];
    assert MeaningFields([f, g]) == MeaningFields([g, f]);
  }

  lemma Texts()
    ensures TrimSpace("true") == "true" && TrimSpace("") == ""
  {}

  lemma Underscored(key: string, lib: Lib)
    requires key == "a b" || key == "a?b"
    requires !IsNameChar(' ', lib) && !IsNameChar('?', lib)
    ensures Sanitize(key, lib) == "a_b" && !ValidName(key, lib)
  {
    SanitizeByCharacter(key, lib);
    SanitizeKeepsExactlyValid(key, lib);
    assert key[0] == 'a' && (key[1] == ' ' || key[1] == '?') && key[2] == 'b';
    var s := Sanitize(key, lib);
    assert |s| == 3 && s[0] == 'a' && s[1] == '_' && s[2] == 'b';
    assert s == "a_b";
  }

  lemma TwoEntries(f: Field, g: Field, name: string, x: Value, y: Value, lib: Lib)
    requires !f.value.Arr? && !g.value.Arr? && Sanitize(f.key, lib) == Sanitize(g.key, lib) == name
    requires x == Returned(f.value, f.key, lib) && y == Returned(g.value, g.key, lib)
    ensures Returned(Obj([f, g]), "root", lib).VObj?
    ensures name in Returned(Obj([f, g]), "root", lib).fields
    ensures Returned(Obj([f, g]), "root", lib).fields[name] == VArr([x, y])
  {
    hide ParseValue, Sanitize, ValidName;
    var fields, first, second := [f, g], (name, x), (name, y);
    var pairs := ReturnedFields(fields, lib);
    assert pairs == [first, second] by {
      assert fields[1..] == [g] && [g][1..] == [];
      assert ReturnedField(f, lib) == [first] && ReturnedField(g, lib) == [second];
      assert ReturnedFields([g], lib) == [second] + [] == [second];
      assert [first] + [second] == [first, second];
    }
    TwoPicked(name, x, y);
    assert pairs[0] in pairs;
    assert Returned(Obj(fields), "root", lib) == ReturnedObject(map[], pairs);
  }

  lemma TwoPicked(name: string, x: Value, y: Value)
    ensures Pick([(name, x), (name, y)], name) == [x, y]
  {
    var pairs := [(name, x), (name, y)];
    assert pairs[1..] == [(name, y)] && [(name, y)][1..] == [];
    assert Pick([(name, y)], name) == [y] + [] == [y];
  }
}
