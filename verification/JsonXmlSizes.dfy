/** The limits: a document's size does not depend on the order of entries, and is the same in both directions. */
module JsonXmlSizes {
  import opened JsonXmlSpec
  import opened JsonXmlLaws

  lemma BothLaws(a: Size, b: Size, c: Size)
    ensures Both(a, Both(b, c)) == Both(Both(a, b), c) && Both(a, b) == Both(b, a) && Both(ZERO, a) == a
  {}

  lemma {:induction false} NodesSizeAppend(a: seq<Node>, b: seq<Node>)
    ensures NodesSize(a + b) == Both(NodesSize(a), NodesSize(b))
    decreases |a|
  {
    if a == [] {
      assert [] + b == b;
    } else {
      assert (a + b)[1..] == a[1..] + b;
      NodesSizeAppend(a[1..], b);
      BothLaws(NodeSize(a[0]), NodesSize(a[1..]), NodesSize(b));
    }
  }

  /** The tree a JSON value becomes has the size its JSON says. */
  lemma {:induction false} BuiltSize(data: Json, tag: string, lib: Lib)
    ensures NodeSize(AsNode(Build(data, tag, lib))) == JsonSize(data)
    decreases data, 0
  {
    match data
    case Obj(fields) => BuiltFieldsSize(fields, lib);
    case Arr(items) => BuiltItemsSize(items, tag, lib);
    case _ => assert AsNode(Build(data, tag, lib)).nodes == [];
  }

  lemma {:induction false} BuiltItemsSize(items: seq<Json>, tag: string, lib: Lib)
    ensures NodesSize(AsNodes(BuildItems(items, tag, lib))) == ItemsSize(items)
    decreases items
  {
    if items != [] {
      BuiltSize(items[0], tag, lib);
      BuiltItemsSize(items[1..], tag, lib);
      NodesSizeCons(Build(items[0], tag, lib), BuildItems(items[1..], tag, lib));
    }
  }

  lemma NodesSizeCons(e: Elem, es: seq<Elem>)
    ensures NodesSize(AsNodes([e] + es)) == Both(NodeSize(AsNode(e)), NodesSize(AsNodes(es)))
  {
    hide NodeSize;
    assert ([e] + es)[1..] == es;
    assert ([AsNode(e)] + AsNodes(es))[1..] == AsNodes(es);
  }

  lemma {:induction false} BuiltFieldSize(f: Field, lib: Lib)
    ensures NodesSize(AsNodes(BuildField(f, lib))) == FieldSize(f)
    decreases f
  {
    if f.value.Arr? {
      BuiltItemsSize(f.value.items, f.key, lib);
    } else {
      BuiltSize(f.value, f.key, lib);
      NodesSizeCons(Build(f.value, f.key, lib), []);
      assert BuildField(f, lib) == [Build(f.value, f.key, lib)] + [];
      BothLaws(JsonSize(f.value), ZERO, ZERO);
    }
  }

  lemma {:induction false} BuiltFieldsSize(fields: seq<Field>, lib: Lib)
    ensures NodesSize(AsNodes(BuildFields(fields, lib))) == FieldsSize(fields)
    decreases fields
  {
    if fields != [] {
      BuiltFieldSize(fields[0], lib);
      BuiltFieldsSize(fields[1..], lib);
      AsNodesAppend(BuildField(fields[0], lib), BuildFields(fields[1..], lib));
      NodesSizeAppend(AsNodes(BuildField(fields[0], lib)), AsNodes(BuildFields(fields[1..], lib)));
    }
  }

  // ---------------------------------------------------------------- order of entries

  function Without(fields: seq<Field>, i: nat): seq<Field>
    requires i < |fields|
  {
    fields[..i] + fields[i + 1..]
  }

  /** Taking one entry out. */
  lemma {:induction false} FieldsSizeWithout(fields: seq<Field>, i: nat)
    requires i < |fields|
    ensures FieldsSize(fields) == Both(FieldSize(fields[i]), FieldsSize(Without(fields, i)))
    decreases i
  {
    if i == 0 {
      assert Without(fields, 0) == fields[1..];
    } else {
      FieldsSizeWithout(fields[1..], i - 1);
      assert Without(fields, i)[1..] == Without(fields[1..], i - 1);
      assert Without(fields, i)[0] == fields[0];
      var a, b, c := FieldSize(fields[0]), FieldSize(fields[i]), FieldsSize(Without(fields[1..], i - 1));
      BothLaws(a, b, c);
      BothLaws(b, a, c);
    }
  }

  lemma {:induction false} MeaningWithout(fields: seq<Field>, i: nat)
    requires i < |fields| && DistinctKeys(fields)
    ensures MeaningFields(Without(fields, i)) == MeaningFields(fields) - {fields[i].key}
    ensures fields[i].key in MeaningFields(fields) && MeaningFields(fields)[fields[i].key] == Meaning(fields[i].value)
    decreases i
  {
    FirstKeyIsNew(fields);
    if i == 0 {
      assert Without(fields, 0) == fields[1..];
    } else {
      MeaningWithout(fields[1..], i - 1);
      assert Without(fields, i)[1..] == Without(fields[1..], i - 1);
      assert Without(fields, i)[0] == fields[0];
    }
  }

  lemma WithoutIsDecoded(fields: seq<Field>, i: nat)
    requires i < |fields| && DistinctKeys(fields) && forall f :: f in fields ==> Decoded(f.value)
    ensures DistinctKeys(Without(fields, i)) && forall f :: f in Without(fields, i) ==> Decoded(f.value)
  {
    var w := Without(fields, i);
    assert forall j :: 0 <= j < |w| ==> w[j] == fields[if j < i then j else j + 1];
    assert forall f :: f in w ==> f in fields;
  }

  /** Two decodings of one document have the same size: the order in which entries are visited decides nothing. */
  lemma {:induction false} OrderDoesNotMatter(a: Json, b: Json)
    requires Decoded(a) && Decoded(b) && Meaning(a) == Meaning(b)
    ensures JsonSize(a) == JsonSize(b)
    decreases a, 0
  {
    match a
    case Obj(fields) => FieldsOrderDoesNotMatter(fields, b.fields);
    case Arr(items) => ItemsSameSize(items, b.items);
    case _ =>
  }

  lemma {:induction false} ItemsSameSize(a: seq<Json>, b: seq<Json>)
    requires (forall x :: x in a ==> Decoded(x)) && (forall x :: x in b ==> Decoded(x)) && Meanings(a) == Meanings(b)
    ensures ItemsSize(a) == ItemsSize(b)
    decreases a
  {
    if a != [] {
      assert a[0] in a && b[0] in b && (forall x :: x in a[1..] ==> x in a) && (forall x :: x in b[1..] ==> x in b);
      assert Meaning(a[0]) == Meanings(a)[0] == Meanings(b)[0] == Meaning(b[0]);
      assert Meanings(a[1..]) == Meanings(a)[1..] == Meanings(b)[1..] == Meanings(b[1..]);
      OrderDoesNotMatter(a[0], b[0]);
      ItemsSameSize(a[1..], b[1..]);
    }
  }

  lemma {:induction false} FieldSameSize(f: Field, g: Field)
    requires Decoded(f.value) && Decoded(g.value) && Meaning(f.value) == Meaning(g.value)
    ensures FieldSize(f) == FieldSize(g)
    decreases f
  {
    if f.value.Arr? {
      ItemsSameSize(f.value.items, g.value.items);
    } else {
      OrderDoesNotMatter(f.value, g.value);
    }
  }

  lemma NoEntries(fields: seq<Field>)
    ensures MeaningFields(fields) == map[] <==> fields == []
  {
    if fields != [] { assert fields[0].key in MeaningFields(fields); }
  }

  lemma {:induction false} FieldsOrderDoesNotMatter(a: seq<Field>, b: seq<Field>)
    requires DistinctKeys(a) && DistinctKeys(b)
    requires (forall f :: f in a ==> Decoded(f.value)) && (forall f :: f in b ==> Decoded(f.value))
    requires MeaningFields(a) == MeaningFields(b)
    ensures FieldsSize(a) == FieldsSize(b)
    decreases a
  {
    hide Decoded, FieldSize;
    MeaningKeys(a);
    MeaningKeys(b);
    if a == [] {
      NoEntries(b);
    } else {
      var f := a[0];
      assert f in a && f.key in MeaningFields(b);
      var g :| g in b && g.key == f.key;
      var i :| 0 <= i < |b| && b[i] == g;
      MeaningWithout(a, 0);
      MeaningWithout(b, i);
      assert Without(a, 0) == a[1..];
      FieldSameSize(f, g);
      WithoutIsDecoded(a, 0);
      WithoutIsDecoded(b, i);
      FieldsOrderDoesNotMatter(a[1..], Without(b, i));
      FieldsSizeWithout(b, i);
    }
  }

  /** What JSON-to-XML accepts, XML-to-JSON accepts: the tree has the size that was checked. */
  lemma AcceptedBackAgain(data: Json, lib: Lib)
    ensures Fits(NodeSize(AsNode(Build(data, "root", lib))), 0, MAX_ELEMENTS) <==> Fits(JsonSize(data), 0, MAX_ELEMENTS)
  {
    BuiltSize(data, "root", lib);
  }

  function Repeated(n: nat): seq<Json> { if n == 0 then [] else [Null] + Repeated(n - 1) }

  function Nested(n: nat): Json { if n == 0 then Null else Arr([Nested(n - 1)]) }

  lemma {:induction false} RepeatedSize(n: nat)
    ensures ItemsSize(Repeated(n)) == Size(n, if n == 0 then 0 else 1)
  {
    if n > 0 {
      RepeatedSize(n - 1);
      assert Repeated(n)[1..] == Repeated(n - 1);
    }
  }

  lemma {:induction false} NestedSize(n: nat)
    ensures JsonSize(Nested(n)) == Size(n + 1, n + 1)
  {
    if n > 0 {
      NestedSize(n - 1);
      var items := [Nested(n - 1)];
      assert items[1..] == [] && ItemsSize(items) == Both(JsonSize(items[0]), ItemsSize(items[1..]));
    }
  }

  /** The limits in figures: a list fits with up to 99 999 items, a nest of lists with up to 256 levels around its
      innermost value. */
  lemma LimitsInFigures(n: nat)
    ensures Fits(JsonSize(Arr(Repeated(n))), 0, MAX_ELEMENTS) <==> n <= 99_999
    ensures Fits(JsonSize(Nested(n)), 0, MAX_ELEMENTS) <==> n <= 256
  {
    RepeatedSize(n);
    NestedSize(n);
  }
}
