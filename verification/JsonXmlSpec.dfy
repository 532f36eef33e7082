/** JSON to XML elements and back: the two conversions as functions on trees, and the sizes that limit them. */
module JsonXmlSpec {
  import opened Wrappers
  import opened Text

  /** What comes from libraries: integer and float parsing, and Unicode letters. */
  datatype Lib = Lib(atoi: string -> Option<int>, parseFloat: string -> Option<real>, isLetter: char -> bool)

  /** Decoded JSON. An object is the sequence of its entries in the order in which they happen to be visited;
      a number carries its shortest rendering. */
  datatype Json = Null | Bool(b: bool) | Number(value: real, text: string) | Str(s: string)
                | Arr(items: seq<Json>) | Obj(fields: seq<Field>)
  datatype Field = Field(key: string, value: Json)

  /** An element to be marshalled. */
  datatype Elem = Elem(name: string, originalKey: string, content: string, children: seq<Elem>)

  /** A parsed node. */
  datatype Node = Node(name: string, attrs: seq<(string, string)>, content: string, nodes: seq<Node>)

  /** The JSON values the second conversion makes. Objects are maps: their order no longer matters. */
  datatype Value = VNull | VBool(b: bool) | VNum(n: real) | VStr(s: string) | VArr(items: seq<Value>) | VObj(fields: map<string, Value>)

  const MAX_DEPTH := 256
  const MAX_ELEMENTS := 100000

  // ---------------------------------------------------------------- tag names

  predicate IsAsciiLetter(r: char) {
    'a' <= r <= 'z' || 'A' <= r <= 'Z'
  }

  predicate StartsName(r: char, lib: Lib) {
    IsAsciiLetter(r) || r == '_' || lib.isLetter(r)
  }

  predicate IsNameChar(r: char, lib: Lib) {
    IsAsciiLetter(r) || '0' <= r <= '9' || r == '_' || r == '-' || r == '.' || lib.isLetter(r)
  }

  function CleanRest(name: string, lib: Lib): string {
    if name == "" then "" else [if IsNameChar(name[0], lib) then name[0] else '_'] + CleanRest(name[1..], lib)
  }

  function Sanitize(name: string, lib: Lib): string {
    if name == "" then "empty"
    else
      var first := if StartsName(name[0], lib) then [name[0]]
                   else if IsNameChar(name[0], lib) then ['_', name[0]] else ['_'];
      first + CleanRest(name[1..], lib)
  }

  predicate ValidName(name: string, lib: Lib) {
    name != "" && StartsName(name[0], lib) && forall c :: c in name[1..] ==> IsNameChar(c, lib)
  }

  // ---------------------------------------------------------------- JSON to elements

  function Build(data: Json, tag: string, lib: Lib): Elem
    decreases data, 0
  {
    var name := Sanitize(tag, lib);
    var original := if name != tag && tag != "root" then tag else "";
    match data
    case Obj(fields) => Elem(name, original, "", BuildFields(fields, lib))
    case Arr(items) => Elem(name, original, "", BuildItems(items, tag, lib))
    case _ => Elem(name, original, Content(data), [])
  }

  /** The text of a scalar. */
  function Content(data: Json): string {
    match data
    case Str(s) => s
    case Number(_, text) => text
    case Bool(b) => if b then "true" else "false"
    case _ => ""
  }

  function BuildItems(items: seq<Json>, tag: string, lib: Lib): seq<Elem>
    decreases items
  {
    if items == [] then [] else [Build(items[0], tag, lib)] + BuildItems(items[1..], tag, lib)
  }

  /** An array under a key becomes that many elements of the key's name. */
  function BuildField(f: Field, lib: Lib): seq<Elem>
    decreases f
  {
    if f.value.Arr? then BuildItems(f.value.items, f.key, lib) else [Build(f.value, f.key, lib)]
  }

  function BuildFields(fields: seq<Field>, lib: Lib): seq<Elem>
    decreases fields
  {
    if fields == [] then [] else BuildField(fields[0], lib) + BuildFields(fields[1..], lib)
  }

  // ---------------------------------------------------------------- nodes to JSON

  function ParseValue(text: string, lib: Lib): Value {
    var value := TrimSpace(text);
    if value == "" then VStr("")
    else if value == "true" then VBool(true)
    else if value == "false" then VBool(false)
    else if lib.atoi(value).Some? then VNum(lib.atoi(value).value as real)
    else if lib.parseFloat(value).Some? && '.' in value then VNum(lib.parseFloat(value).value)
    else VStr(value)
  }

  /** A node without attributes and children. */
  function Scalar(content: string, lib: Lib): Value {
    var text := TrimSpace(content);
    if text == "" then VNull else ParseValue(text, lib)
  }

  type Pairs = seq<(string, Value)>

  function Names(pairs: Pairs): set<string> {
    set p | p in pairs :: p.0
  }

  /** The values under one name, in order. */
  function Pick(pairs: Pairs, name: string): seq<Value> {
    if pairs == [] then [] else (if pairs[0].0 == name then [pairs[0].1] else []) + Pick(pairs[1..], name)
  }

  /** One child stays itself, several become an array. */
  function Bundle(values: seq<Value>): Value {
    if |values| == 1 then values[0] else VArr(values)
  }

  function Collect(pairs: Pairs): map<string, Value> {
    map name | name in Names(pairs) :: Bundle(Pick(pairs, name))
  }

  function Attributes(attrs: seq<(string, string)>, lib: Lib): map<string, Value> {
    if attrs == [] then map[]
    else
      var n := |attrs| - 1;
      Attributes(attrs[..n], lib)["@" + attrs[n].0 := ParseValue(attrs[n].1, lib)]
  }

  function Process(node: Node, lib: Lib): Value
    decreases node, 0
  {
    if node.nodes == [] && node.attrs == [] then Scalar(node.content, lib)
    else
      var fields := Attributes(node.attrs, lib) + Collect(ProcessAll(node.nodes, lib));
      var text := TrimSpace(node.content);
      VObj(if text != "" then fields["#text" := ParseValue(text, lib)] else fields)
  }

  function ProcessAll(nodes: seq<Node>, lib: Lib): Pairs
    decreases nodes
  {
    if nodes == [] then [] else [(nodes[0].name, Process(nodes[0], lib))] + ProcessAll(nodes[1..], lib)
  }

  // ---------------------------------------------------------------- sizes

  /** How many nodes a tree or a list of trees has, and how many levels. */
  datatype Size = Size(count: nat, height: nat)

  const ZERO := Size(0, 0)

  function Both(a: Size, b: Size): Size {
    Size(a.count + b.count, if a.height > b.height then a.height else b.height)
  }

  /** One more node above. */
  function Up(below: Size): Size {
    Size(below.count + 1, below.height + 1)
  }

  function NodeSize(node: Node): Size {
    Up(NodesSize(node.nodes))
  }

  function NodesSize(nodes: seq<Node>): Size {
    if nodes == [] then ZERO else Both(NodeSize(nodes[0]), NodesSize(nodes[1..]))
  }

  /** The size of the element a JSON value becomes. */
  function JsonSize(data: Json): Size
    decreases data, 0
  {
    match data
    case Obj(fields) => Up(FieldsSize(fields))
    case Arr(items) => Up(ItemsSize(items))
    case _ => Up(ZERO)
  }

  function ItemsSize(items: seq<Json>): Size
    decreases items
  {
    if items == [] then ZERO else Both(JsonSize(items[0]), ItemsSize(items[1..]))
  }

  function FieldSize(f: Field): Size
    decreases f
  {
    if f.value.Arr? then ItemsSize(f.value.items) else JsonSize(f.value)
  }

  function FieldsSize(fields: seq<Field>): Size
    decreases fields
  {
    if fields == [] then ZERO else Both(FieldSize(fields[0]), FieldsSize(fields[1..]))
  }

  /** Whether a tree whose root stands at `depth` stays within the depth limit and the remaining budget. */
  predicate Fits(size: Size, depth: nat, remaining: nat) {
    size.count <= remaining && depth + size.height <= MAX_DEPTH + 1
  }

  /** Marshalling and parsing back, taken as the identity on trees. */
  function AsNode(e: Elem): Node {
    Node(e.name, if e.originalKey == "" then [] else [("originalKey", e.originalKey)], e.content, AsNodes(e.children))
  }

  function AsNodes(es: seq<Elem>): seq<Node> {
    if es == [] then [] else [AsNode(es[0])] + AsNodes(es[1..])
  }

  // ---------------------------------------------------------------- the normal form

  /** A JSON value with its objects as maps: what the order of entries leaves unchanged. */
  datatype Doc = DNull | DBool(b: bool) | DNumber(value: real, text: string) | DStr(s: string)
               | DArr(items: seq<Doc>) | DObj(fields: map<string, Doc>)

  function Meaning(data: Json): Doc
    decreases data
  {
    match data
    case Null => DNull
    case Bool(b) => DBool(b)
    case Number(v, t) => DNumber(v, t)
    case Str(s) => DStr(s)
    case Arr(items) => DArr(Meanings(items))
    case Obj(fields) => DObj(MeaningFields(fields))
  }

  function Meanings(items: seq<Json>): (ds: seq<Doc>)
    ensures |ds| == |items|
    decreases items
  {
    if items == [] then [] else [Meaning(items[0])] + Meanings(items[1..])
  }

  function MeaningFields(fields: seq<Field>): map<string, Doc>
    decreases fields
  {
    if fields == [] then map[] else MeaningFields(fields[1..])[fields[0].key := Meaning(fields[0].value)]
  }

  function DocContent(d: Doc): string {
    match d
    case DStr(s) => s
    case DNumber(_, text) => text
    case DBool(b) => if b then "true" else "false"
    case _ => ""
  }

  /** What a document comes back as. Scalars pass through `ParseValue`, a blank one is null. Under a key empty arrays
      vanish and singletons collapse; an array elsewhere gains a level named after the tag it stands under; an object
      or array left with nothing is null. */
  function Normal(d: Doc, tag: string, lib: Lib): Value
    decreases d, 0
  {
    match d
    case DObj(m) =>
      var kept := map k | k in m && m[k] != DArr([]) :: NormalField(m[k], k, lib);
      if kept == map[] then VNull else VObj(kept)
    case DArr(items) =>
      if items == [] then VNull else VObj(map[tag := Bundle(NormalItems(items, tag, lib))])
    case _ => Scalar(DocContent(d), lib)
  }

  function NormalItems(items: seq<Doc>, tag: string, lib: Lib): (vs: seq<Value>)
    ensures |vs| == |items|
    decreases items
  {
    if items == [] then [] else [Normal(items[0], tag, lib)] + NormalItems(items[1..], tag, lib)
  }

  function NormalField(d: Doc, key: string, lib: Lib): Value
    decreases d, 1
  {
    if d.DArr? then Bundle(NormalItems(d.items, key, lib)) else Normal(d, key, lib)
  }

  ghost predicate DistinctKeys(fields: seq<Field>) {
    forall i, j :: 0 <= i < j < |fields| ==> fields[i].key != fields[j].key
  }

  /** The keys of every object are distinct valid names. */
  ghost predicate WellKeyed(data: Json, lib: Lib)
    decreases data
  {
    match data
    case Arr(items) => forall x :: x in items ==> WellKeyed(x, lib)
    case Obj(fields) =>
      && DistinctKeys(fields)
      && forall f :: f in fields ==> ValidName(f.key, lib) && WellKeyed(f.value, lib)
    case _ => true
  }

  /** What decoding yields: the keys of every object are distinct. */
  ghost predicate Decoded(data: Json)
    decreases data
  {
    match data
    case Arr(items) => forall x :: x in items ==> Decoded(x)
    case Obj(fields) => DistinctKeys(fields) && forall f :: f in fields ==> Decoded(f.value)
    case _ => true
  }

  // ---------------------------------------------------------------- what survives unchanged

  /** A document as the value it should come back as. */
  function AsValue(d: Doc): Value
    decreases d
  {
    match d
    case DNull => VNull
    case DBool(b) => VBool(b)
    case DNumber(v, _) => VNum(v)
    case DStr(s) => VStr(s)
    case DArr(items) => VArr(AsValues(items))
    case DObj(m) => VObj(map k | k in m :: AsValue(m[k]))
  }

  function AsValues(items: seq<Doc>): (vs: seq<Value>)
    ensures |vs| == |items|
    decreases items
  {
    if items == [] then [] else [AsValue(items[0])] + AsValues(items[1..])
  }

  /** Text that reads as a number of this value. */
  predicate ReadsAsNumber(text: string, value: real, lib: Lib) {
    var t := TrimSpace(text);
    t != "" && t != "true" && t != "false" &&
    if lib.atoi(t).Some? then lib.atoi(t).value as real == value
    else lib.parseFloat(t) == Some(value) && '.' in t
  }

  /** Text that reads as itself. */
  predicate ReadsAsText(t: string, lib: Lib) {
    t != "" && TrimSpace(t) == t && t != "true" && t != "false"
    && lib.atoi(t).None? && !(lib.parseFloat(t).Some? && '.' in t)
  }

  /** Documents without arrays outside objects, empty objects, arrays of fewer than two items, and scalars that read
      as something else. */
  predicate Faithful(d: Doc, lib: Lib)
    decreases d, 0
  {
    match d
    case DNull => true
    case DBool(_) => true
    case DNumber(v, t) => ReadsAsNumber(t, v, lib)
    case DStr(s) => ReadsAsText(s, lib)
    case DArr(_) => false
    case DObj(m) => m != map[] && forall k :: k in m ==> FaithfulField(m[k], lib)
  }

  predicate FaithfulField(d: Doc, lib: Lib)
    decreases d, 1
  {
    if d.DArr? then |d.items| >= 2 && forall x :: x in d.items ==> Faithful(x, lib) else Faithful(d, lib)
  }
}
