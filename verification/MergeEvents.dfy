/** The merge loops, and the body gathered over a streamed response. */
module MergeEvents {
  import opened Wrappers
  import opened MergeEventsSpec

  /** Overwrites `existing` field by field, in whatever order the map is walked. */
  method MergeFields(existing: Obj, newer: Obj) returns (r: Obj)
    ensures r == existing + newer
  {
    r := existing;
    var todo := newer.Keys;
    while todo != {}
      invariant todo <= newer.Keys
      invariant forall k :: At(r, k) == if k in newer && k !in todo then Some(newer[k]) else At(existing, k)
      decreases |todo|
    {
      var k :| k in todo;
      r := r[k := newer[k]];
      todo := todo - {k};
    }
    forall k
      ensures At(r, k) == At(existing + newer, k)
    {}
    SameObject(r, existing + newer);
  }

  /** The value `key` gets: usage objects are merged into the one already there, anything else replaces it. */
  method MergeKey(merged: Obj, key: string, v: Value) returns (r: Value)
    ensures r == MergeValue(key, At(merged, key), v)
  {
    if IsDeep(key) && !v.Null? {
      if v.Object? {
        if key in merged && merged[key].Object? {
          var fields := MergeFields(merged[key].fields, v.fields);
          return Object(fields);
        }
      }
    }
    return v;
  }

  /** Merges one event, key by key in whatever order the map is walked. */
  method MergeInto(start: Obj, event: Obj) returns (merged: Obj)
    ensures merged == Merge(start, event)
  {
    hide MergeValue;
    merged := start;
    var todo := event.Keys;
    while todo != {}
      invariant todo <= event.Keys
      invariant forall k :: At(merged, k) ==
                              if k in event && k !in todo then Some(MergeValue(k, At(start, k), event[k]))
                              else At(start, k)
      decreases |todo|
    {
      var k :| k in todo;
      assert At(merged, k) == At(start, k);
      var v := MergeKey(merged, k, event[k]);
      merged := merged[k := v];
      todo := todo - {k};
    }
    forall k
      ensures At(merged, k) == At(Merge(start, event), k)
    {}
    SameObject(merged, Merge(start, event));
  }

  /** `None` when no event contributes anything. */
  method MergeJSONEvents(events: seq<Event>) returns (r: Option<Obj>)
    ensures r == if MergeAll(events) == map[] then None else Some(MergeAll(events))
  {
    var merged: Obj := map[];
    for i := 0 to |events|
      invariant merged == MergeAll(events[..i])
    {
      assert events[..i + 1][..i] == events[..i];
      if events[i].None? { continue; }
      merged := MergeInto(merged, events[i].value);
    }
    assert events[..|events|] == events;
    if |merged| == 0 {
      assert merged == map[];
      return None;
    }
    return Some(merged);
  }

  class ResponseStreamContext {
    var accumulated: Option<seq<bv8>>
    ghost var received: seq<seq<bv8>>

    constructor ()
      ensures Valid() && received == []
    {
      accumulated, received := None, [];
    }

    /** What is held is all that was received since the last end of stream. */
    ghost predicate Valid()
      reads this
    {
      Concat(received) == if accumulated.Some? then accumulated.value else []
    }

    /** At the end of the stream the whole body is handed on, however it was cut, and the gathered bytes are dropped. */
    method OnResponseBodyChunk(chunk: seq<bv8>, endOfStream: bool) returns (body: Option<seq<bv8>>)
      requires Valid()
      modifies this
      ensures Valid() && body.Some? == endOfStream
      ensures endOfStream ==> body.value == Concat(old(received) + [chunk]) && received == [] && accumulated == None
      ensures !endOfStream ==> received == old(received) + [chunk]
    {
      ConcatAppends(received, chunk);
      received := received + [chunk];
      if |chunk| > 0 {
        accumulated := Some((if accumulated.Some? then accumulated.value else []) + chunk);
      }
      if !endOfStream { return None; }
      body := Some(if accumulated.Some? then accumulated.value else []);
      accumulated, received := None, [];
    }
  }

  lemma {:induction false} ConcatAppends(chunks: seq<seq<bv8>>, chunk: seq<bv8>)
    ensures Concat(chunks + [chunk]) == Concat(chunks) + chunk
  {
    if chunks == [] {
      assert chunks + [chunk] == [chunk];
    } else {
      ConcatAppends(chunks[1..], chunk);
      assert (chunks + [chunk])[1..] == chunks[1..] + [chunk];
    }
  }
}
