/** The two converters: recursive methods that debit a shared node budget. */
module JsonXml {
  import opened Wrappers
  import opened Text
  import opened JsonXmlSpec
  import opened JsonXmlSizes

  class ConversionBudget {
    var remaining: nat

    constructor ()
      ensures remaining == MAX_ELEMENTS
    {
      remaining := MAX_ELEMENTS;
    }

    method Consume() returns (ok: bool)
      modifies this
      ensures ok == (old(remaining) > 0)
      ensures remaining == if ok then old(remaining) - 1 else old(remaining)
    {
      if remaining <= 0 { return false; }
      remaining := remaining - 1;
      return true;
    }
  }

  /** Converts exactly the values that fit, debiting their node count. */
  method BuildXMLStruct(data: Json, tag: string, depth: nat, budget: ConversionBudget, lib: Lib) returns (e: Option<Elem>)
    modifies budget
    ensures e.Some? <==> Fits(JsonSize(data), depth, old(budget.remaining))
    ensures e.Some? ==> e.value == Build(data, tag, lib)
    ensures e.Some? ==> budget.remaining == old(budget.remaining) - JsonSize(data).count
    decreases data, 1
  {
    if depth > MAX_DEPTH { return None; }
    var ok := budget.Consume();
    if !ok { return None; }
    var name := Sanitize(tag, lib);
    var original := if name != tag && tag != "root" then tag else "";
    match data
    case Obj(fields) =>
      var children := BuildEntries(fields, depth, budget, lib, data);
      if children.None? { return None; }
      return Some(Elem(name, original, "", children.value));
    case Arr(items) =>
      var built := BuildChildren(items, tag, depth, budget, lib, data);
      if built.None? { return None; }
      return Some(Elem(name, original, "", built.value));
    case _ =>
      return Some(Elem(name, original, Content(data), []));
  }

  /** Visiting the entries of an object in their order. */
  method BuildEntries(fields: seq<Field>, depth: nat, budget: ConversionBudget, lib: Lib, ghost parent: Json)
    returns (children: Option<seq<Elem>>)
    requires depth <= MAX_DEPTH
    requires parent == Obj(fields)
    modifies budget
    ensures children.Some? <==> Fits(FieldsSize(fields), depth + 1, old(budget.remaining))
    ensures children.Some? ==> children.value == BuildFields(fields, lib)
    ensures children.Some? ==> budget.remaining == old(budget.remaining) - FieldsSize(fields).count
    decreases parent, 0, 1
  {
    hide BuildFields, FieldsSize, BuildField, FieldSize, BuildItems, ItemsSize;
    var built := [];
    ghost var done := ZERO;
    BothLaws(FieldsSize(fields), ZERO, ZERO);
    assert fields[0..] == fields && [] + BuildFields(fields, lib) == BuildFields(fields, lib);
    for i := 0 to |fields|
      invariant built + BuildFields(fields[i..], lib) == BuildFields(fields, lib)
      invariant Both(done, FieldsSize(fields[i..])) == FieldsSize(fields)
      invariant budget.remaining == old(budget.remaining) - done.count && depth + 1 + done.height <= MAX_DEPTH + 1
    {
      var f := fields[i];
      FieldsStep(fields, i, lib);
      BothLaws(done, FieldSize(f), FieldsSize(fields[i + 1..]));
      SingleItem(f, lib);
      var more;
      if f.value.Arr? {
        more := BuildChildren(f.value.items, f.key, depth, budget, lib, parent);
      } else {
        more := BuildChildren([f.value], f.key, depth, budget, lib, parent);
      }
      if more.None? { return None; }
      assert built + more.value + BuildFields(fields[i + 1..], lib) == built + BuildFields(fields[i..], lib);
      built := built + more.value;
      done := Both(done, FieldSize(f));
    }
    NoItems("", lib);
    assert fields[|fields|..] == [] && built + [] == built;
    BothLaws(done, ZERO, ZERO);
    return Some(built);
  }

  /** Appending one child per item, one level below. */
  method BuildChildren(items: seq<Json>, key: string, depth: nat, budget: ConversionBudget, lib: Lib, ghost parent: Json)
    returns (children: Option<seq<Elem>>)
    requires depth <= MAX_DEPTH
    requires forall x :: x in items ==> x < parent
    modifies budget
    ensures children.Some? <==> Fits(ItemsSize(items), depth + 1, old(budget.remaining))
    ensures children.Some? ==> children.value == BuildItems(items, key, lib)
    ensures children.Some? ==> budget.remaining == old(budget.remaining) - ItemsSize(items).count
    decreases parent, 0, 0
  {
    hide BuildItems, ItemsSize, Build, JsonSize;
    var built := [];
    ghost var done := ZERO;
    BothLaws(ItemsSize(items), ZERO, ZERO);
    assert items[0..] == items && [] + BuildItems(items, key, lib) == BuildItems(items, key, lib);
    for i := 0 to |items|
      invariant built + BuildItems(items[i..], key, lib) == BuildItems(items, key, lib)
      invariant Both(done, ItemsSize(items[i..])) == ItemsSize(items)
      invariant budget.remaining == old(budget.remaining) - done.count && depth + 1 + done.height <= MAX_DEPTH + 1
    {
      ItemsStep(items, i, key, lib);
      BothLaws(done, JsonSize(items[i]), ItemsSize(items[i + 1..]));
      assert items[i] in items && items[i] < parent;
      var child := BuildXMLStruct(items[i], key, depth + 1, budget, lib);
      if child.None? { return None; }
      assert built + [child.value] + BuildItems(items[i + 1..], key, lib) == built + BuildItems(items[i..], key, lib);
      built := built + [child.value];
      done := Both(done, JsonSize(items[i]));
    }
    NoItems(key, lib);
    assert items[|items|..] == [] && built + [] == built;
    BothLaws(done, ZERO, ZERO);
    return Some(built);
  }

  lemma NoItems(key: string, lib: Lib)
    ensures BuildItems([], key, lib) == [] && ItemsSize([]) == ZERO && BuildFields([], lib) == [] && FieldsSize([]) == ZERO
  {}

  lemma ItemsStep(items: seq<Json>, i: nat, key: string, lib: Lib)
    requires i < |items|
    ensures BuildItems(items[i..], key, lib) == [Build(items[i], key, lib)] + BuildItems(items[i + 1..], key, lib)
    ensures ItemsSize(items[i..]) == Both(JsonSize(items[i]), ItemsSize(items[i + 1..]))
  {
    assert items[i..][1..] == items[i + 1..];
  }

  lemma FieldsStep(fields: seq<Field>, i: nat, lib: Lib)
    requires i < |fields|
    ensures BuildFields(fields[i..], lib) == BuildField(fields[i], lib) + BuildFields(fields[i + 1..], lib)
    ensures FieldsSize(fields[i..]) == Both(FieldSize(fields[i]), FieldsSize(fields[i + 1..]))
  {
    assert fields[i..][1..] == fields[i + 1..];
  }

  lemma SingleItem(f: Field, lib: Lib)
    ensures var items := if f.value.Arr? then f.value.items else [f.value];
            BuildItems(items, f.key, lib) == BuildField(f, lib) && ItemsSize(items) == FieldSize(f)
  {
    hide Build, JsonSize;
    if !f.value.Arr? { OneItem(f.value, f.key, lib); }
  }

  lemma OneItem(item: Json, key: string, lib: Lib)
    ensures BuildItems([item], key, lib) == [Build(item, key, lib)] && ItemsSize([item]) == JsonSize(item)
  {
    hide Build, JsonSize;
    NoItems(key, lib);
    assert [item][1..] == [];
    BothLaws(JsonSize(item), ZERO, ZERO);
  }

  /** The whole conversion to elements, from a fresh budget. */
  method ConvertJSONToXML(data: Json, lib: Lib) returns (e: Option<Elem>)
    ensures e.Some? <==> Fits(JsonSize(data), 0, MAX_ELEMENTS)
    ensures e.Some? ==> e.value == Build(data, "root", lib)
  {
    var budget := new ConversionBudget();
    e := BuildXMLStruct(data, "root", 0, budget, lib);
  }

  // ---------------------------------------------------------------- XML to JSON

  function Group(nodes: seq<Node>, name: string): (g: seq<Node>)
    ensures forall n :: n in g ==> n in nodes && n.name == name
  {
    if nodes == [] then [] else (if nodes[0].name == name then [nodes[0]] else []) + Group(nodes[1..], name)
  }

  function NodeNames(nodes: seq<Node>): set<string> {
    set n | n in nodes :: n.name
  }

  function Values(pairs: Pairs): seq<Value> {
    if pairs == [] then [] else [pairs[0].1] + Values(pairs[1..])
  }

  /** The size of the nodes whose name is in `names`. */
  function NamedSize(nodes: seq<Node>, names: set<string>): Size {
    if nodes == [] then ZERO
    else Both(if nodes[0].name in names then NodeSize(nodes[0]) else ZERO, NamedSize(nodes[1..], names))
  }

  /** Processing the nodes of one group gives the values under that name. */
  lemma {:induction false} GroupIsPick(nodes: seq<Node>, name: string, lib: Lib)
    ensures Values(ProcessAll(Group(nodes, name), lib)) == Pick(ProcessAll(nodes, lib), name)
    decreases |nodes|
  {
    hide Process;
    if nodes != [] {
      GroupIsPick(nodes[1..], name, lib);
      if nodes[0].name == name {
        assert Group(nodes, name)[1..] == Group(nodes[1..], name);
      } else {
        assert Group(nodes, name) == Group(nodes[1..], name);
      }
    }
  }

  lemma {:induction false} NamesAreNodeNames(nodes: seq<Node>, lib: Lib)
    ensures Names(ProcessAll(nodes, lib)) == NodeNames(nodes)
    decreases |nodes|
  {
    hide Process;
    if nodes != [] {
      NamesAreNodeNames(nodes[1..], lib);
      var p := (nodes[0].name, Process(nodes[0], lib));
      assert ProcessAll(nodes, lib) == [p] + ProcessAll(nodes[1..], lib);
      assert Names([p] + ProcessAll(nodes[1..], lib)) == {p.0} + Names(ProcessAll(nodes[1..], lib));
      assert nodes == [nodes[0]] + nodes[1..];
    }
  }

  lemma {:induction false} NamedSizeGrows(nodes: seq<Node>, names: set<string>, name: string)
    requires name !in names
    ensures NamedSize(nodes, names + {name}) == Both(NamedSize(nodes, names), NodesSize(Group(nodes, name)))
    decreases |nodes|
  {
    hide NodeSize;
    if nodes != [] {
      NamedSizeGrows(nodes[1..], names, name);
      var own, rest, group := NodeSize(nodes[0]), NamedSize(nodes[1..], names), NodesSize(Group(nodes[1..], name));
      BothLaws(own, rest, group);
      BothLaws(rest, own, group);
      BothLaws(rest, group, own);
      if nodes[0].name == name {
        assert Group(nodes, name)[1..] == Group(nodes[1..], name);
      } else {
        assert Group(nodes, name) == Group(nodes[1..], name);
      }
    }
  }

  lemma {:induction false} NamedSizeWithin(nodes: seq<Node>, names: set<string>)
    ensures NamedSize(nodes, names).count <= NodesSize(nodes).count && NamedSize(nodes, names).height <= NodesSize(nodes).height
    ensures NodeNames(nodes) <= names ==> NamedSize(nodes, names) == NodesSize(nodes)
    ensures names == {} ==> NamedSize(nodes, names) == ZERO
    decreases |nodes|
  {
    hide NodeSize;
    if nodes != [] {
      assert nodes == [nodes[0]] + nodes[1..];
      assert nodes[0].name in NodeNames(nodes) && NodeNames(nodes[1..]) <= NodeNames(nodes);
      NamedSizeWithin(nodes[1..], names);
    }
  }

  /** Converts exactly the trees that fit, debiting their node count, whatever order the groups are visited in. */
  method ProcessXMLNode(node: Node, depth: nat, budget: ConversionBudget, lib: Lib) returns (v: Option<Value>)
    modifies budget
    ensures v.Some? <==> Fits(NodeSize(node), depth, old(budget.remaining))
    ensures v.Some? ==> v.value == Process(node, lib)
    ensures v.Some? ==> budget.remaining == old(budget.remaining) - NodeSize(node).count
    decreases node, 1
  {
    if depth > MAX_DEPTH { return None; }
    var ok := budget.Consume();
    if !ok { return None; }
    if |node.nodes| == 0 && |node.attrs| == 0 {
      var text := TrimSpace(node.content);
      if text == "" { return Some(VNull); }
      return Some(ParseValue(text, lib));
    }
    var result: map<string, Value> := map[];
    for i := 0 to |node.attrs|
      invariant result == Attributes(node.attrs[..i], lib)
    {
      assert node.attrs[..i + 1][..i] == node.attrs[..i];
      result := result["@" + node.attrs[i].0 := ParseValue(node.attrs[i].1, lib)];
    }
    assert node.attrs[..|node.attrs|] == node.attrs;
    var children := ProcessGroups(node.nodes, depth, budget, lib, node);
    if children.None? { return None; }
    result := result + children.value;
    var text := TrimSpace(node.content);
    if text != "" { result := result["#text" := ParseValue(text, lib)]; }
    return Some(VObj(result));
  }

  /** The entries of the names visited so far. */
  ghost function Bundles(names: set<string>, pairs: Pairs): map<string, Value> {
    map name | name in names :: Bundle(Pick(pairs, name))
  }

  lemma BundlesGrow(names: set<string>, name: string, pairs: Pairs)
    ensures Bundles(names + {name}, pairs) == Bundles(names, pairs)[name := Bundle(Pick(pairs, name))]
  {}

  lemma NothingBundled(pairs: Pairs)
    ensures Bundles({}, pairs) == map[]
  {}

  lemma AllBundled(pairs: Pairs)
    ensures Bundles(Names(pairs), pairs) == Collect(pairs)
  {}

  /** One entry per child name: a single child as itself, several as an array. */
  method ProcessGroups(nodes: seq<Node>, depth: nat, budget: ConversionBudget, lib: Lib, ghost parent: Node)
    returns (fields: Option<map<string, Value>>)
    requires depth <= MAX_DEPTH && parent.nodes == nodes
    modifies budget
    ensures fields.Some? <==> Fits(NodesSize(nodes), depth + 1, old(budget.remaining))
    ensures fields.Some? ==> fields.value == Collect(ProcessAll(nodes, lib))
    ensures fields.Some? ==> budget.remaining == old(budget.remaining) - NodesSize(nodes).count
    decreases parent, 0, 1
  {
    hide Process, ProcessAll, NodesSize, NamedSize, Group, Pick, Values, Bundles;
    var todo, result := NodeNames(nodes), map[];
    ghost var done: set<string>, pairs := {}, ProcessAll(nodes, lib);
    NothingBundled(pairs);
    NamesAreNodeNames(nodes, lib);
    NamedSizeWithin(nodes, {});
    while todo != {}
      invariant todo !! done && todo + done == NodeNames(nodes)
      invariant result == Bundles(done, pairs)
      invariant budget.remaining == old(budget.remaining) - NamedSize(nodes, done).count
      invariant depth + 1 + NamedSize(nodes, done).height <= MAX_DEPTH + 1
      decreases todo
    {
      var name :| name in todo;
      var group := Group(nodes, name);
      NamedSizeGrows(nodes, done, name);
      NamedSizeWithin(nodes, done + {name});
      GroupIsPick(nodes, name, lib);
      BundlesGrow(done, name, pairs);
      var values := ProcessList(group, depth, budget, lib, parent);
      if values.None? { return None; }
      result := result[name := if |values.value| == 1 then values.value[0] else VArr(values.value)];
      todo, done := todo - {name}, done + {name};
    }
    NamedSizeWithin(nodes, done);
    AllBundled(pairs);
    return Some(result);
  }

  method ProcessList(nodes: seq<Node>, depth: nat, budget: ConversionBudget, lib: Lib, ghost parent: Node)
    returns (values: Option<seq<Value>>)
    requires depth <= MAX_DEPTH && forall n :: n in nodes ==> n in parent.nodes
    modifies budget
    ensures values.Some? <==> Fits(NodesSize(nodes), depth + 1, old(budget.remaining))
    ensures values.Some? ==> values.value == Values(ProcessAll(nodes, lib))
    ensures values.Some? ==> budget.remaining == old(budget.remaining) - NodesSize(nodes).count
    decreases parent, 0, 0
  {
    hide Process, ProcessAll, NodesSize, NodeSize, Values;
    var list := [];
    ghost var done := ZERO;
    BothLaws(NodesSize(nodes), ZERO, ZERO);
    assert nodes[0..] == nodes && [] + Values(ProcessAll(nodes, lib)) == Values(ProcessAll(nodes, lib));
    for i := 0 to |nodes|
      invariant list + Values(ProcessAll(nodes[i..], lib)) == Values(ProcessAll(nodes, lib))
      invariant Both(done, NodesSize(nodes[i..])) == NodesSize(nodes)
      invariant budget.remaining == old(budget.remaining) - done.count && depth + 1 + done.height <= MAX_DEPTH + 1
    {
      NodesStep(nodes, i, lib);
      BothLaws(done, NodeSize(nodes[i]), NodesSize(nodes[i + 1..]));
      assert nodes[i] in nodes && nodes[i] in parent.nodes && nodes[i] < parent;
      var child := ProcessXMLNode(nodes[i], depth + 1, budget, lib);
      if child.None? { return None; }
      assert list + [child.value] + Values(ProcessAll(nodes[i + 1..], lib)) == list + Values(ProcessAll(nodes[i..], lib));
      list := list + [child.value];
      done := Both(done, NodeSize(nodes[i]));
    }
    NoNodes(lib);
    assert nodes[|nodes|..] == [] && list + [] == list;
    BothLaws(done, ZERO, ZERO);
    return Some(list);
  }

  lemma NoNodes(lib: Lib)
    ensures Values(ProcessAll([], lib)) == [] && NodesSize([]) == ZERO
  {}

  lemma NodesStep(nodes: seq<Node>, i: nat, lib: Lib)
    requires i < |nodes|
    ensures Values(ProcessAll(nodes[i..], lib)) == [Process(nodes[i], lib)] + Values(ProcessAll(nodes[i + 1..], lib))
    ensures NodesSize(nodes[i..]) == Both(NodeSize(nodes[i]), NodesSize(nodes[i + 1..]))
  {
    hide Process, NodeSize;
    assert nodes[i..][1..] == nodes[i + 1..];
    var p, rest := (nodes[i].name, Process(nodes[i], lib)), ProcessAll(nodes[i + 1..], lib);
    assert ProcessAll(nodes[i..], lib) == [p] + rest;
    assert ([p] + rest)[1..] == rest;
  }

  /** The whole conversion to JSON, from a fresh budget. */
  method NodeToMap(node: Node, lib: Lib) returns (v: Option<Value>)
    ensures v.Some? <==> Fits(NodeSize(node), 0, MAX_ELEMENTS)
    ensures v.Some? ==> v.value == VObj(map[node.name := Process(node, lib)])
  {
    var budget := new ConversionBudget();
    var processed := ProcessXMLNode(node, 0, budget, lib);
    if processed.None? { return None; }
    return Some(VObj(map[node.name := processed.value]));
  }
}
