/** What JSON survives a trip through XML, and why both directions accept the same documents. */
module JsonXmlLaws {
  import opened Sequences
  import opened Text
  import opened JsonXmlSpec

  // ---------------------------------------------------------------- tag names

  lemma {:induction false} CleanRestKeeps(name: string, lib: Lib)
    ensures CleanRest(name, lib) == name <==> forall c :: c in name ==> IsNameChar(c, lib) || c == '_'
    decreases |name|
  {
    if name != "" {
      CleanRestKeeps(name[1..], lib);
      assert name == [name[0]] + name[1..];
      assert CleanRest(name, lib)[1..] == CleanRest(name[1..], lib);
    }
  }

  /** Exactly the valid names are kept as they are. */
  lemma SanitizeKeepsExactlyValid(name: string, lib: Lib)
    ensures Sanitize(name, lib) == name <==> ValidName(name, lib)
  {
    if name != "" {
      CleanRestKeeps(name[1..], lib);
      CleanRestLength(name[1..], lib);
      assert name == [name[0]] + name[1..];
      if StartsName(name[0], lib) {
        assert Sanitize(name, lib)[1..] == CleanRest(name[1..], lib);
      } else {
        assert Sanitize(name, lib)[0] == '_';
      }
    }
  }

  lemma {:induction false} CleanRestLength(name: string, lib: Lib)
    ensures |CleanRest(name, lib)| == |name|
    ensures forall c :: c in CleanRest(name, lib) ==> IsNameChar(c, lib)
    decreases |name|
  {
    if name != "" { CleanRestLength(name[1..], lib); }
  }

  /** What sanitizing yields is always a valid name. */
  lemma SanitizeIsValid(name: string, lib: Lib)
    ensures ValidName(Sanitize(name, lib), lib)
  {
    if name != "" {
      var rest := CleanRest(name[1..], lib);
      CleanRestLength(name[1..], lib);
      var s := Sanitize(name, lib);
      if StartsName(name[0], lib) {
        assert s[1..] == rest;
      } else if IsNameChar(name[0], lib) {
        assert s[1..] == [name[0]] + rest;
      } else {
        assert s[1..] == rest;
      }
    }
  }

  /** What sanitizing does, character by character: each that may stand in a name stays, any other becomes an
      underscore; one is put before a name that starts with a digit, a hyphen or a dot; the empty name is replaced. */
  lemma SanitizeByCharacter(name: string, lib: Lib)
    ensures name == "" ==> Sanitize(name, lib) == "empty"
    ensures name != "" ==>
              var s := Sanitize(name, lib);
              var shift := if IsNameChar(name[0], lib) && !StartsName(name[0], lib) then 1 else 0;
              && |s| == |name| + shift && (shift == 1 ==> s[0] == '_')
              && forall i :: 0 <= i < |name| ==>
                   s[i + shift] == if IsNameChar(name[i], lib) then name[i] else '_'
  {
    if name != "" {
      CleanRestByCharacter(name[1..], lib);
    }
  }

  lemma {:induction false} CleanRestByCharacter(name: string, lib: Lib)
    ensures |CleanRest(name, lib)| == |name|
    ensures forall i :: 0 <= i < |name| ==> CleanRest(name, lib)[i] == if IsNameChar(name[i], lib) then name[i] else '_'
    decreases |name|
  {
    if name != "" { CleanRestByCharacter(name[1..], lib); }
  }

  // ---------------------------------------------------------------- the round trip

  function Back(data: Json, tag: string, lib: Lib): Value {
    Process(AsNode(Build(data, tag, lib)), lib)
  }

  /** The named values the elements of one entry come back as. */
  function FieldPairs(f: Field, lib: Lib): Pairs {
    ProcessAll(AsNodes(BuildField(f, lib)), lib)
  }

  lemma {:induction false} AsNodesAppend(a: seq<Elem>, b: seq<Elem>)
    ensures AsNodes(a + b) == AsNodes(a) + AsNodes(b)
    decreases |a|
  {
    if a == [] {
      assert [] + b == b && [] + AsNodes(b) == AsNodes(b);
    } else {
      assert (a + b)[1..] == a[1..] + b;
      AsNodesAppend(a[1..], b);
    }
  }

  lemma {:induction false} ProcessAppend(a: seq<Node>, b: seq<Node>, lib: Lib)
    ensures ProcessAll(a + b, lib) == ProcessAll(a, lib) + ProcessAll(b, lib)
    decreases |a|
  {
    if a == [] {
      assert [] + b == b && [] + ProcessAll(b, lib) == ProcessAll(b, lib);
    } else {
      assert (a + b)[1..] == a[1..] + b;
      ProcessAppend(a[1..], b, lib);
    }
  }

  lemma {:induction false} PickAppend(a: Pairs, b: Pairs, name: string)
    ensures Pick(a + b, name) == Pick(a, name) + Pick(b, name)
    decreases |a|
  {
    if a == [] {
      assert [] + b == b && [] + Pick(b, name) == Pick(b, name);
    } else {
      assert (a + b)[1..] == a[1..] + b;
      PickAppend(a[1..], b, name);
      Associates(if a[0].0 == name then [a[0].1] else [], Pick(a[1..], name), Pick(b, name));
    }
  }

  lemma {:induction false} PickAbsent(pairs: Pairs, name: string)
    ensures Pick(pairs, name) == [] <==> name !in Names(pairs)
    decreases |pairs|
  {
    if pairs != [] {
      assert pairs == [pairs[0]] + pairs[1..];
      PickAbsent(pairs[1..], name);
    }
  }

  /** `pairs` are the values `values`, all under `name`. */
  ghost predicate AllUnder(pairs: Pairs, name: string, values: seq<Value>) {
    |pairs| == |values| && forall i :: 0 <= i < |pairs| ==> pairs[i] == (name, values[i])
  }

  lemma {:induction false} PickAllUnder(pairs: Pairs, name: string, values: seq<Value>)
    requires AllUnder(pairs, name, values)
    ensures Pick(pairs, name) == values
    ensures Names(pairs) == if pairs == [] then {} else {name}
    decreases |pairs|
  {
    if pairs != [] {
      PickAllUnder(pairs[1..], name, values[1..]);
      assert values == [values[0]] + values[1..];
      assert pairs == [pairs[0]] + pairs[1..];
    }
  }

  lemma NoOriginalKey(data: Json, tag: string, lib: Lib)
    requires ValidName(tag, lib)
    ensures Build(data, tag, lib).name == tag && Build(data, tag, lib).originalKey == ""
  {
    SanitizeKeepsExactlyValid(tag, lib);
  }

  /** One value under a valid tag comes back in normal form. */
  lemma {:induction false} BackIsNormal(data: Json, tag: string, lib: Lib)
    requires ValidName(tag, lib) && WellKeyed(data, lib)
    ensures Back(data, tag, lib) == Normal(Meaning(data), tag, lib)
    decreases data, 0
  {
    NoOriginalKey(data, tag, lib);
    match data
    case Obj(fields) =>
      FieldsBack(fields, lib);
      ObjectBack(fields, tag, lib);
    case Arr(items) =>
      ItemsBack(items, tag, lib);
      ArrayBack(items, tag, lib);
    case _ =>
      LeafBack(data, tag, lib);
  }

  lemma KeptIsCollected(m: map<string, Doc>, pairs: Pairs, lib: Lib)
    requires forall k :: Pick(pairs, k) == if k in m then FieldValues(m[k], k, lib) else []
    ensures Collect(pairs) == map k | k in m && m[k] != DArr([]) :: NormalField(m[k], k, lib)
  {
    forall k
      ensures k in Names(pairs) <==> k in m && m[k] != DArr([])
      ensures k in Names(pairs) ==> Bundle(Pick(pairs, k)) == NormalField(m[k], k, lib)
    {
      PickAbsent(pairs, k);
    }
  }

  lemma {:induction false} ProcessAllLength(nodes: seq<Node>, lib: Lib)
    ensures |ProcessAll(nodes, lib)| == |nodes|
    decreases |nodes|
  {
    if nodes != [] { ProcessAllLength(nodes[1..], lib); }
  }

  /** A bare node comes back as its collected children, or as null without any. */
  lemma ContainerNode(tag: string, nodes: seq<Node>, lib: Lib)
    ensures Process(Node(tag, [], "", nodes), lib) == if nodes == [] then VNull else VObj(Collect(ProcessAll(nodes, lib)))
  {
    assert map[] + Collect(ProcessAll(nodes, lib)) == Collect(ProcessAll(nodes, lib));
  }

  lemma LeafBack(data: Json, tag: string, lib: Lib)
    requires ValidName(tag, lib) && !data.Obj? && !data.Arr?
    ensures Back(data, tag, lib) == Normal(Meaning(data), tag, lib)
  {
    NoOriginalKey(data, tag, lib);
    assert AsNode(Build(data, tag, lib)) == Node(tag, [], Content(data), []);
    assert Content(data) == DocContent(Meaning(data));
  }

  lemma ObjectBack(fields: seq<Field>, tag: string, lib: Lib)
    requires ValidName(tag, lib)
    requires forall k :: Pick(AllPairs(fields, lib), k) ==
               if k in MeaningFields(fields) then FieldValues(MeaningFields(fields)[k], k, lib) else []
    ensures Back(Obj(fields), tag, lib) == Normal(DObj(MeaningFields(fields)), tag, lib)
  {
    hide Process, ProcessAll, Pick, FieldValues, NormalField;
    var nodes, pairs := AsNodes(BuildFields(fields, lib)), AllPairs(fields, lib);
    NoOriginalKey(Obj(fields), tag, lib);
    assert AsNode(Build(Obj(fields), tag, lib)) == Node(tag, [], "", nodes);
    ContainerNode(tag, nodes, lib);
    ProcessAllLength(nodes, lib);
    KeptIsCollected(MeaningFields(fields), pairs, lib);
    if pairs != [] {
      assert pairs[0].0 in Names(pairs);
      assert pairs[0].0 in Collect(pairs);
    } else {
      assert Collect(pairs) == map[];
    }
  }

  lemma ArrayBack(items: seq<Json>, tag: string, lib: Lib)
    requires ValidName(tag, lib)
    requires AllUnder(ProcessAll(AsNodes(BuildItems(items, tag, lib)), lib), tag, NormalItems(Meanings(items), tag, lib))
    ensures Back(Arr(items), tag, lib) == Normal(DArr(Meanings(items)), tag, lib)
  {
    var nodes := AsNodes(BuildItems(items, tag, lib));
    var pairs, values := ProcessAll(nodes, lib), NormalItems(Meanings(items), tag, lib);
    NoOriginalKey(Arr(items), tag, lib);
    assert AsNode(Build(Arr(items), tag, lib)) == Node(tag, [], "", nodes);
    ContainerNode(tag, nodes, lib);
    ProcessAllLength(nodes, lib);
    PickAllUnder(pairs, tag, values);
  }

  lemma {:induction false} ItemsBack(items: seq<Json>, tag: string, lib: Lib)
    requires ValidName(tag, lib) && forall x :: x in items ==> WellKeyed(x, lib)
    ensures AllUnder(ProcessAll(AsNodes(BuildItems(items, tag, lib)), lib), tag, NormalItems(Meanings(items), tag, lib))
    decreases items
  {
    if items != [] {
      assert items[0] in items && forall x :: x in items[1..] ==> x in items;
      BackIsNormal(items[0], tag, lib);
      NoOriginalKey(items[0], tag, lib);
      ItemsBack(items[1..], tag, lib);
    }
  }

  lemma SingleBack(e: Elem, lib: Lib)
    ensures ProcessAll(AsNodes([e]), lib) == [(e.name, Process(AsNode(e), lib))]
  {
    hide Process;
    var n := AsNode(e);
    assert AsNodes([e][1..]) == [];
    assert AsNodes([e]) == [n];
    assert ProcessAll([n][1..], lib) == [];
  }

  /** The values of one entry: those of its array, or its own. */
  function FieldValues(d: Doc, key: string, lib: Lib): seq<Value> {
    if d.DArr? then NormalItems(d.items, key, lib) else [Normal(d, key, lib)]
  }

  lemma {:induction false} FieldBack(f: Field, lib: Lib)
    requires ValidName(f.key, lib) && WellKeyed(f.value, lib)
    ensures AllUnder(FieldPairs(f, lib), f.key, FieldValues(Meaning(f.value), f.key, lib))
    decreases f
  {
    if f.value.Arr? {
      ItemsBack(f.value.items, f.key, lib);
    } else {
      BackIsNormal(f.value, f.key, lib);
      NoOriginalKey(f.value, f.key, lib);
      SingleBack(Build(f.value, f.key, lib), lib);
    }
  }

  function AllPairs(fields: seq<Field>, lib: Lib): Pairs {
    ProcessAll(AsNodes(BuildFields(fields, lib)), lib)
  }

  lemma AllPairsCons(fields: seq<Field>, lib: Lib)
    requires fields != []
    ensures AllPairs(fields, lib) == FieldPairs(fields[0], lib) + AllPairs(fields[1..], lib)
  {
    var a, b := BuildField(fields[0], lib), BuildFields(fields[1..], lib);
    AsNodesAppend(a, b);
    ProcessAppend(AsNodes(a), AsNodes(b), lib);
  }

  lemma {:induction false} MeaningKeys(fields: seq<Field>)
    ensures MeaningFields(fields).Keys == set f | f in fields :: f.key
    decreases |fields|
  {
    if fields != [] {
      assert fields == [fields[0]] + fields[1..];
      MeaningKeys(fields[1..]);
    }
  }

  lemma FirstKeyIsNew(fields: seq<Field>)
    requires fields != [] && DistinctKeys(fields)
    ensures fields[0].key !in MeaningFields(fields[1..])
  {
    MeaningKeys(fields[1..]);
    forall g | g in fields[1..]
      ensures g.key != fields[0].key
    {
      var j :| 0 <= j < |fields| - 1 && fields[1..][j] == g;
      assert fields[j + 1] == g;
    }
  }

  /** Under each key, the values of that entry and no others. */
  lemma {:induction false} FieldsBack(fields: seq<Field>, lib: Lib)
    requires DistinctKeys(fields) && forall f :: f in fields ==> ValidName(f.key, lib) && WellKeyed(f.value, lib)
    ensures forall k :: Pick(AllPairs(fields, lib), k) ==
              if k in MeaningFields(fields) then FieldValues(MeaningFields(fields)[k], k, lib) else []
    decreases fields
  {
    hide FieldPairs, AllPairs, Pick, FieldValues, ValidName, WellKeyed;
    if fields != [] {
      var f, rest := fields[0], fields[1..];
      assert f in fields && forall x :: x in rest ==> x in fields;
      FieldBack(f, lib);
      FieldsBack(rest, lib);
      AllPairsCons(fields, lib);
      FirstKeyIsNew(fields);
      forall k ensures Pick(AllPairs(fields, lib), k) ==
        if k in MeaningFields(fields) then FieldValues(MeaningFields(fields)[k], k, lib) else []
      {
        PickFieldFirst(f, AllPairs(rest, lib), k, lib);
      }
    } else {
      NoPairs(lib);
    }
  }

  lemma NoPairs(lib: Lib)
    ensures forall k :: Pick(AllPairs([], lib), k) == []
  {}

  lemma PickFieldFirst(f: Field, rest: Pairs, k: string, lib: Lib)
    requires AllUnder(FieldPairs(f, lib), f.key, FieldValues(Meaning(f.value), f.key, lib))
    requires k == f.key ==> Pick(rest, k) == []
    ensures Pick(FieldPairs(f, lib) + rest, k) == if k == f.key then FieldValues(Meaning(f.value), k, lib) else Pick(rest, k)
  {
    var pairs := FieldPairs(f, lib);
    PickAppend(pairs, rest, k);
    PickAllUnder(pairs, f.key, FieldValues(Meaning(f.value), f.key, lib));
    PickAbsent(pairs, k);
  }

  /** The whole trip. The mediator wraps what comes back in an object under the root's name. */
  function Mediated(data: Json, lib: Lib): Value {
    var root := AsNode(Build(data, "root", lib));
    VObj(map[root.name := Process(root, lib)])
  }

  /** XML-to-JSON of JSON-to-XML is the normal form under `root`, whatever the order of entries. */
  lemma RoundTrip(data: Json, lib: Lib)
    requires WellKeyed(data, lib)
    ensures Mediated(data, lib) == VObj(map["root" := Normal(Meaning(data), "root", lib)])
  {
    BackIsNormal(data, "root", lib);
    NoOriginalKey(data, "root", lib);
  }

  lemma NeverArray(d: Doc, tag: string, lib: Lib)
    ensures !Normal(d, tag, lib).VArr?
  {}

  lemma ConsEqual(x: Value, xs: seq<Value>, y: Value, ys: seq<Value>)
    ensures [x] + xs == [y] + ys <==> x == y && xs == ys
  {
    if [x] + xs == [y] + ys { assert xs == ([x] + xs)[1..] == ([y] + ys)[1..] == ys; }
  }

  lemma {:induction false} ItemsFaithful(items: seq<Doc>, tag: string, lib: Lib)
    requires forall x :: x in items ==> (Normal(x, tag, lib) == AsValue(x) <==> Faithful(x, lib))
    ensures NormalItems(items, tag, lib) == AsValues(items) <==> forall x :: x in items ==> Faithful(x, lib)
    decreases |items|
  {
    if items != [] {
      assert items == [items[0]] + items[1..];
      ItemsFaithful(items[1..], tag, lib);
      ConsEqual(Normal(items[0], tag, lib), NormalItems(items[1..], tag, lib), AsValue(items[0]), AsValues(items[1..]));
      assert items[0] in items && forall x :: x in items[1..] ==> x in items;
    }
  }

  lemma LeafFaithful(d: Doc, tag: string, lib: Lib)
    requires !d.DArr? && !d.DObj?
    ensures Normal(d, tag, lib) == AsValue(d) <==> Faithful(d, lib)
  {
    assert TrimSpace("true") == "true" && TrimSpace("false") == "false" && TrimSpace("") == "";
    var t := TrimSpace(DocContent(d));
    assert TrimSpace(t) == t;
  }

  lemma {:induction false} FieldFaithful(d: Doc, key: string, lib: Lib)
    ensures NormalField(d, key, lib) == AsValue(d) && d != DArr([]) <==> FaithfulField(d, lib)
    decreases d, 1
  {
    if d.DArr? {
      forall x | x in d.items
        ensures Normal(x, key, lib) == AsValue(x) <==> Faithful(x, lib)
      {
        ComesBackUnchanged(x, key, lib);
      }
      ItemsFaithful(d.items, key, lib);
      if |d.items| == 1 { NeverArray(d.items[0], key, lib); }
    } else {
      ComesBackUnchanged(d, key, lib);
    }
  }

  /** Exactly the faithful documents come back unchanged. */
  lemma {:induction false} ComesBackUnchanged(d: Doc, tag: string, lib: Lib)
    ensures Normal(d, tag, lib) == AsValue(d) <==> Faithful(d, lib)
    decreases d, 0
  {
    match d
    case DObj(m) =>
      forall k | k in m
        ensures NormalField(m[k], k, lib) == AsValue(m[k]) && m[k] != DArr([]) <==> FaithfulField(m[k], lib)
      {
        FieldFaithful(m[k], k, lib);
      }
      ObjectFaithful(m, tag, lib);
    case DArr(_) => NeverArray(d, tag, lib);
    case _ => LeafFaithful(d, tag, lib);
  }

  lemma ObjectFaithful(m: map<string, Doc>, tag: string, lib: Lib)
    requires forall k :: k in m ==>
               (NormalField(m[k], k, lib) == AsValue(m[k]) && m[k] != DArr([]) <==> FaithfulField(m[k], lib))
    ensures Normal(DObj(m), tag, lib) == AsValue(DObj(m)) <==> Faithful(DObj(m), lib)
  {
    hide NormalField, AsValue, FaithfulField;
    var kept := map k | k in m && m[k] != DArr([]) :: NormalField(m[k], k, lib);
    var wanted := map k | k in m :: AsValue(m[k]);
    assert Normal(DObj(m), tag, lib) == if kept == map[] then VNull else VObj(kept);
    assert AsValue(DObj(m)) == VObj(wanted) by { AsValueObject(m); }
    if kept == wanted {
      forall k | k in m ensures FaithfulField(m[k], lib) { assert k in wanted && kept[k] == wanted[k]; }
    }
    if forall k :: k in m ==> FaithfulField(m[k], lib) {
      assert kept == wanted;
      if m != map[] { var k :| k in m; assert k in kept; }
    }
  }

  lemma AsValueObject(m: map<string, Doc>)
    ensures AsValue(DObj(m)) == VObj(map k | k in m :: AsValue(m[k]))
  {}
}
