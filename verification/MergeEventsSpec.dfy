/** Merging the JSON events of a stream into one object. */
module MergeEventsSpec {
  import opened Wrappers

  datatype Value = Null | Scalar(text: string) | Array(items: seq<Value>) | Object(fields: Obj)

  type Obj = map<string, Value>

  /** A decoded event; `None` when it does not decode to an object. */
  type Event = Option<Obj>

  predicate IsDeep(key: string) { key == "usage" || key == "usageMetadata" }

  function MergeValue(key: string, old_: Option<Value>, v: Value): Value {
    if IsDeep(key) && v.Object? && old_.Some? && old_.value.Object? then Object(old_.value.fields + v.fields) else v
  }

  function At(o: Obj, key: string): Option<Value> { if key in o then Some(o[key]) else None }

  function Merge(a: Obj, e: Obj): Obj {
    map k | k in a.Keys + e.Keys :: if k in e then MergeValue(k, At(a, k), e[k]) else a[k]
  }

  function MergeEvent(a: Obj, e: Event): Obj { if e.Some? then Merge(a, e.value) else a }

  ghost function MergeAll(events: seq<Event>): Obj {
    if events == [] then map[] else MergeEvent(MergeAll(events[..|events| - 1]), events[|events| - 1])
  }

  ghost function MergeOnto(a: Obj, events: seq<Event>): Obj {
    if events == [] then a else MergeEvent(MergeOnto(a, events[..|events| - 1]), events[|events| - 1])
  }

  // ---------------------------------------------------------------- who wins

  /** The value of `key` in the last event that carries it. */
  ghost function LastValue(events: seq<Event>, key: string): Option<Value> {
    if events == [] then None
    else
      var e := events[|events| - 1];
      if e.Some? && key in e.value then Some(e.value[key]) else LastValue(events[..|events| - 1], key)
  }

  /** A field of the object under `key`, from the last event that carries it there; an event that puts something else
      under `key` hides everything before it. */
  ghost function LastField(events: seq<Event>, key: string, field: string): Option<Value> {
    if events == [] then None
    else
      var e := events[|events| - 1];
      var rest := events[..|events| - 1];
      if e.None? || key !in e.value then LastField(rest, key, field)
      else if !e.value[key].Object? then None
      else if field in e.value[key].fields then Some(e.value[key].fields[field])
      else LastField(rest, key, field)
  }

  /** The last event wins key by key; under the usage keys, field by field. */
  lemma {:induction false} LastEventWins(events: seq<Event>, key: string)
    ensures !IsDeep(key) ==> At(MergeAll(events), key) == LastValue(events, key)
    ensures IsDeep(key) ==>
              var m, last := At(MergeAll(events), key), LastValue(events, key);
              && m.Some? == last.Some?
              && (m.Some? ==> m.value.Object? == last.value.Object?)
              && (m.Some? && !m.value.Object? ==> m == last)
              && (m.Some? && m.value.Object? ==>
                    forall x :: At(m.value.fields, x) == LastField(events, key, x))
    ensures IsDeep(key) && !(key in MergeAll(events) && MergeAll(events)[key].Object?) ==>
              forall x :: LastField(events, key, x) == None
  {
    if events != [] {
      LastEventWins(events[..|events| - 1], key);
    }
  }

  /** Every value under `key` is an object. */
  ghost predicate AllObjects(events: seq<Event>, key: string) {
    forall e :: e in events && e.Some? && key in e.value ==> e.value[key].Object?
  }

  /** Event `i` carries the field, and no later one does. */
  ghost predicate LastCarrier(events: seq<Event>, key: string, field: string, i: int) {
    && 0 <= i < |events| && Carries(events[i], key, field)
    && forall j :: i < j < |events| ==> !Carries(events[j], key, field)
  }

  predicate Carries(e: Event, key: string, field: string) {
    e.Some? && key in e.value && e.value[key].Object? && field in e.value[key].fields
  }

  /** When every usage is an object, a merged usage field is the one of the last event carrying it. */
  lemma {:induction false} UsageFieldIsLatest(events: seq<Event>, key: string, field: string, i: int)
    requires IsDeep(key) && AllObjects(events, key) && LastCarrier(events, key, field, i)
    ensures key in MergeAll(events) && MergeAll(events)[key].Object?
    ensures At(MergeAll(events)[key].fields, field) == Some(events[i].value[key].fields[field])
  {
    LastEventWins(events, key);
    FieldOfLastCarrier(events, key, field, i);
  }

  lemma {:induction false} FieldOfLastCarrier(events: seq<Event>, key: string, field: string, i: int)
    requires AllObjects(events, key) && LastCarrier(events, key, field, i)
    ensures LastField(events, key, field) == Some(events[i].value[key].fields[field])
  {
    var n := |events| - 1;
    assert events[n] in events;
    if i < n {
      assert !Carries(events[n], key, field);
      assert forall e :: e in events[..n] ==> e in events;
      FieldOfLastCarrier(events[..n], key, field, i);
    }
  }

  // ---------------------------------------------------------------- merging in parts

  lemma {:induction false} MergeAllAppend(p: seq<Event>, q: seq<Event>)
    ensures MergeAll(p + q) == MergeOnto(MergeAll(p), q)
  {
    if q == [] {
      assert p + q == p;
    } else {
      MergeAllAppend(p, q[..|q| - 1]);
      assert (p + q)[..|p + q| - 1] == p + q[..|q| - 1];
    }
  }

  /** Merging an already merged prefix with the rest equals merging everything, whatever the events hold. */
  lemma MergedPrefix(p: seq<Event>, q: seq<Event>)
    ensures MergeAll([Some(MergeAll(p))] + q) == MergeAll(p + q)
  {
    var m := MergeAll(p);
    MergeAllAppend(p, q);
    MergeAllAppend([Some(m)], q);
    assert Merge(map[], m) == m;
    assert MergeAll([Some(m)]) == m by { assert [Some(m)][..0] == []; }
  }

  /** A usage key that holds something else in one event and an object in the last event carrying it. */
  ghost predicate Reopens(q: seq<Event>, key: string) {
    IsDeep(key) && !AllObjects(q, key) && LastValue(q, key).Some? && LastValue(q, key).value.Object?
  }

  /** Merging onto `a`, key by key, in terms of the merged events alone. */
  lemma {:induction false} OntoHolds(a: Obj, q: seq<Event>, key: string)
    ensures At(MergeOnto(a, q), key) ==
              if key !in MergeAll(q) then At(a, key)
              else if Reopens(q, key) then Some(MergeAll(q)[key])
              else Some(MergeValue(key, At(a, key), MergeAll(q)[key]))
  {
    LastEventWins(q, key);
    if q != [] {
      var n := |q| - 1;
      var r, e := q[..n], q[n];
      OntoHolds(a, r, key);
      LastEventWins(r, key);
      AllObjectsOfOneMore(r, e, key);
      assert q == r + [e];
      if e.Some? && key in e.value && IsDeep(key) && e.value[key].Object? && key in a && a[key].Object?
         && key in MergeAll(r) && MergeAll(r)[key].Object? && !Reopens(r, key) {
        MapUnionAssociates(a[key].fields, MergeAll(r)[key].fields, e.value[key].fields);
      }
      LastAndAll(r, key);
    }
  }

  lemma AllObjectsOfOneMore(r: seq<Event>, e: Event, key: string)
    ensures AllObjects(r + [e], key) <==> AllObjects(r, key) && (e.Some? && key in e.value ==> e.value[key].Object?)
  {
    assert forall x :: x in r + [e] <==> x in r || x == e;
  }

  lemma {:induction false} LastAndAll(q: seq<Event>, key: string)
    ensures LastValue(q, key).None? ==> AllObjects(q, key)
    ensures LastValue(q, key).Some? && AllObjects(q, key) ==> LastValue(q, key).value.Object?
  {
    if q != [] {
      var n := |q| - 1;
      LastAndAll(q[..n], key);
      AllObjectsOfOneMore(q[..n], q[n], key);
      assert q == q[..n] + [q[n]];
    }
  }

  lemma MapUnionAssociates(a: Obj, b: Obj, c: Obj)
    ensures (a + b) + c == a + (b + c)
  {}

  /** Two parts, merged each by itself and then with each other. */
  ghost predicate PartsAgree(p: seq<Event>, q: seq<Event>) {
    MergeAll([Some(MergeAll(p)), Some(MergeAll(q))]) == MergeAll(p + q)
  }

  lemma PartsAreMerged(p: seq<Event>, q: seq<Event>)
    ensures MergeAll([Some(MergeAll(p)), Some(MergeAll(q))]) == Merge(MergeAll(p), MergeAll(q))
  {
    var m, n := MergeAll(p), MergeAll(q);
    var both := [Some(m), Some(n)];
    assert both[..1] == [Some(m)] && both[..1][..0] == [];
    assert Merge(map[], m) == m;
    assert MergeAll([Some(m)]) == m by { assert [Some(m)][..0] == []; }
  }

  /** A later part may be merged on its own before joining any earlier part exactly when it does not reopen a usage. */
  lemma PartsAgreeIff(q: seq<Event>)
    ensures (forall p :: PartsAgree(p, q)) <==> !Reopens(q, "usage") && !Reopens(q, "usageMetadata")
  {
    if !Reopens(q, "usage") && !Reopens(q, "usageMetadata") {
      forall p
        ensures PartsAgree(p, q)
      {
        PartsAreMerged(p, q);
        MergeAllAppend(p, q);
        var a, m := MergeAll(p), MergeAll(q);
        forall key
          ensures At(MergeOnto(a, q), key) == At(Merge(a, m), key)
        {
          OntoHolds(a, q, key);
        }
        SameObject(MergeOnto(a, q), Merge(a, m));
      }
    } else {
      ReopenedPartsDiffer(q, if Reopens(q, "usage") then "usage" else "usageMetadata");
    }
  }

  lemma SameObject(a: Obj, b: Obj)
    requires forall key :: At(a, key) == At(b, key)
    ensures a == b
  {
    forall key
      ensures key in a <==> key in b
      ensures key in a ==> a[key] == b[key]
    {
      assert At(a, key) == At(b, key);
    }
  }

  lemma ReopenedPartsDiffer(q: seq<Event>, key: string)
    requires Reopens(q, key)
    ensures exists p :: !PartsAgree(p, q)
  {
    LastEventWins(q, key);
    var m := MergeAll(q);
    var unused := Fresh(m[key].fields.Keys);
    var first: Obj := map[key := Object(map[unused := Null])];
    var p := [Some(first)];
    assert MergeAll(p) == first by { assert p[..0] == []; assert Merge(map[], first) == first; }
    PartsAreMerged(p, q);
    MergeAllAppend(p, q);
    OntoHolds(first, q, key);
    assert unused in Merge(first, m)[key].fields && unused !in m[key].fields;
    assert !PartsAgree(p, q);
  }

  /** A name longer than all of `names`. */
  lemma {:induction false} Fresh(names: set<string>) returns (name: string)
    ensures forall n :: n in names ==> |n| < |name|
    ensures name !in names
    decreases |names|
  {
    name := "x";
    if names != {} {
      var n :| n in names;
      var longer := Fresh(names - {n});
      name := longer + n + "x";
    }
  }

  // ---------------------------------------------------------------- accumulation

  function Concat(chunks: seq<seq<bv8>>): seq<bv8> {
    if chunks == [] then [] else chunks[0] + Concat(chunks[1..])
  }

  /** In words: the two usage objects merge field by field, any other key is replaced whole. */
  lemma UsageMergesByField(events: seq<Event>, field: string, i: int)
    ensures AllObjects(events, "usage") && LastCarrier(events, "usage", field, i) ==>
              "usage" in MergeAll(events) && MergeAll(events)["usage"].Object?
              && At(MergeAll(events)["usage"].fields, field) == Some(events[i].value["usage"].fields[field])
    ensures AllObjects(events, "usageMetadata") && LastCarrier(events, "usageMetadata", field, i) ==>
              "usageMetadata" in MergeAll(events) && MergeAll(events)["usageMetadata"].Object?
              && At(MergeAll(events)["usageMetadata"].fields, field) == Some(events[i].value["usageMetadata"].fields[field])
    ensures forall key :: key != "usage" && key != "usageMetadata" ==> At(MergeAll(events), key) == LastValue(events, key)
  {
    if AllObjects(events, "usage") && LastCarrier(events, "usage", field, i) {
      UsageFieldIsLatest(events, "usage", field, i);
    }
    if AllObjects(events, "usageMetadata") && LastCarrier(events, "usageMetadata", field, i) {
      UsageFieldIsLatest(events, "usageMetadata", field, i);
    }
    forall key | key != "usage" && key != "usageMetadata"
      ensures At(MergeAll(events), key) == LastValue(events, key)
    {
      LastEventWins(events, key);
    }
  }

  /** The last value of a key, by position. */
  lemma {:induction false} LastValueByIndex(events: seq<Event>, key: string)
    ensures forall i :: 0 <= i < |events| && events[i].Some? && key in events[i].value
                        && (forall j :: i < j < |events| && events[j].Some? ==> key !in events[j].value) ==>
              LastValue(events, key) == Some(events[i].value[key])
    ensures (forall e :: e in events && e.Some? ==> key !in e.value) ==> LastValue(events, key) == None
  {
    if events != [] {
      var n := |events| - 1;
      LastValueByIndex(events[..n], key);
      assert events[n] in events && forall e :: e in events[..n] ==> e in events;
    }
  }
}
