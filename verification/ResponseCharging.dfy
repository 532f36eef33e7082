/** Response-phase charging: in the header phase, over a buffered body, or over a streamed one. */
module ResponseChargingSpec {
  import opened Wrappers
  import opened CostExtraction
  import opened ChargingSpec

  type Byte = b: int | 0 <= b < 256
  type Body = seq<Byte>

  /** What the response offers to cost sources: values that do not depend on the body, and what a JSONPath
      or CEL expression yields on given body bytes. */
  datatype Env = Env(fixed: map<Source, real>, onBody: (Source, Body) -> Option<real>)

  /** The readable values of a quota's response sources. A JSONPath source never matches an empty body. */
  function Values(e: Extractor, env: Env, body: Body): map<Source, real> {
    map s | s in e.sources && Read(s, env, body).Some? :: Read(s, env, body).value
  }

  function Read(s: Source, env: Env, body: Body): Option<real> {
    if s.kind.ResponseBody? then (if body == [] then None else env.onBody(s, body))
    else if s.kind.ResponseCEL? then env.onBody(s, body)
    else if s in env.fixed then Some(env.fixed[s]) else None
  }

  function KeyOf(keys: map<string, string>, name: string): string {
    if name in keys then keys[name] else ""
  }

  /** Consuming after the fact: nothing for a zero cost, otherwise one call that takes unless it errs. */
  function ConsumeCall(i: nat, key: string, cost: real, errs: bool): Option<Call> {
    if cost == 0.0 then None else Some(Call(i, key, cost.Floor, !errs))
  }

  predicate InHeaderPhase(q: Quota) {
    UsesCost(q) && ResponseHeaderOnly(q.extractor.value)
  }

  predicate InBodyPhase(q: Quota) {
    UsesCost(q) && !ResponseHeaderOnly(q.extractor.value) && HasResponsePhaseSources(q.extractor.value)
  }

  function ResponseHeaderCall(q: Quota, i: nat, keys: map<string, string>, env: Env, errs: bool): Option<Call> {
    var key := KeyOf(keys, EffectiveName(q, i));
    if !InHeaderPhase(q) || key == "" then None
    else ConsumeCall(i, key, Cost(q.extractor.value, Response, Values(q.extractor.value, env, [])), errs)
  }

  function BufferedCall(q: Quota, i: nat, keys: map<string, string>, env: Env, errs: bool, body: Body): Option<Call> {
    var key := KeyOf(keys, EffectiveName(q, i));
    if !InBodyPhase(q) || key == "" then None
    else ConsumeCall(i, key, Cost(q.extractor.value, Response, Values(q.extractor.value, env, body)), errs)
  }

  /** The end-of-stream call on the bytes accumulated for the quota. It does not look at the key. */
  function StreamCall(q: Quota, i: nat, keys: map<string, string>, env: Env, errs: bool, body: Body): Option<Call> {
    if !InBodyPhase(q) then None
    else ConsumeCall(i, KeyOf(keys, EffectiveName(q, i)),
                     Cost(q.extractor.value, Response, Values(q.extractor.value, env, body)), errs)
  }

  function Add(calls: seq<Call>, call: Option<Call>): seq<Call> {
    if call.Some? then calls + [call.value] else calls
  }

  function ResponseHeaderCalls(qs: seq<Quota>, keys: map<string, string>, env: Env, errs: seq<bool>, n: nat): seq<Call>
    requires n <= |qs| == |errs|
  {
    if n == 0 then []
    else Add(ResponseHeaderCalls(qs, keys, env, errs, n - 1), ResponseHeaderCall(qs[n - 1], n - 1, keys, env, errs[n - 1]))
  }

  function BufferedCalls(qs: seq<Quota>, keys: map<string, string>, env: Env, errs: seq<bool>, body: Body, n: nat): seq<Call>
    requires n <= |qs| == |errs|
  {
    if n == 0 then []
    else Add(BufferedCalls(qs, keys, env, errs, body, n - 1), BufferedCall(qs[n - 1], n - 1, keys, env, errs[n - 1], body))
  }

  function StreamCalls(qs: seq<Quota>, keys: map<string, string>, env: Env, errs: seq<bool>, seen: map<string,
        Body>, n: nat): seq<Call>
    requires n <= |qs| == |errs|
  {
    if n == 0 then []
    else Add(StreamCalls(qs, keys, env, errs, seen, n - 1), StreamCall(qs[n - 1], n - 1, keys, env, errs[n - 1],
          Seen(qs, seen, n - 1)))
  }

  // ---------------------------------------------------------------- accumulating chunks

  predicate Accumulates(q: Quota) {
    UsesCost(q) && RequiresResponseBody(q.extractor.value)
  }

  /** One chunk: appended once per quota that needs body bytes, under the quota's name. */
  function Accumulate(qs: seq<Quota>, seen: map<string, Body>, chunk: Body, n: nat): map<string, Body>
    requires n <= |qs|
  {
    if n == 0 then seen
    else
      var m := Accumulate(qs, seen, chunk, n - 1);
      var name := EffectiveName(qs[n - 1], n - 1);
      if Accumulates(qs[n - 1]) then m[name := SeenSoFar(m, name) + chunk] else m
  }

  function SeenSoFar(seen: map<string, Body>, name: string): Body {
    if name in seen then seen[name] else []
  }

  function Seen(qs: seq<Quota>, seen: map<string, Body>, i: nat): Body
    requires i < |qs|
  {
    SeenSoFar(seen, EffectiveName(qs[i], i))
  }

  function Feed(qs: seq<Quota>, seen: map<string, Body>, chunks: seq<Body>): map<string, Body>
    decreases |chunks|
  {
    if chunks == [] then seen else Feed(qs, Accumulate(qs, seen, chunks[0], |qs|), chunks[1..])
  }

  function Concat(chunks: seq<Body>): Body {
    if chunks == [] then [] else chunks[0] + Concat(chunks[1..])
  }

  lemma {:induction false} AccumulateOwn(qs: seq<Quota>, seen: map<string, Body>, chunk: Body, n: nat, i: nat)
    requires n <= |qs| && i < |qs| && DistinctNames(qs)
    ensures Seen(qs, Accumulate(qs, seen, chunk, n), i) == Seen(qs, seen, i) + if i < n && Accumulates(qs[i]) then chunk else []
  {
    if n > 0 {
      AccumulateOwn(qs, seen, chunk, n - 1, i);
      assert i != n - 1 ==> EffectiveName(qs[i], i) != EffectiveName(qs[n - 1], n - 1);
    }
  }

  /** However the body is cut, a quota that needs it has seen all of it at the end, and the others nothing. */
  lemma {:induction false} FeedSeesWholeBody(qs: seq<Quota>, seen: map<string, Body>, chunks: seq<Body>, i: nat)
    requires i < |qs| && DistinctNames(qs)
    ensures Seen(qs, Feed(qs, seen, chunks), i) == Seen(qs, seen, i) + if Accumulates(qs[i]) then Concat(chunks) else []
    decreases |chunks|
  {
    if chunks != [] {
      AccumulateOwn(qs, seen, chunks[0], |qs|, i);
      FeedSeesWholeBody(qs, Accumulate(qs, seen, chunks[0], |qs|), chunks[1..], i);
    }
  }

  /** A quota that does not need the body costs the same whatever bytes it is shown. */
  lemma BodyDoesNotMatter(e: Extractor, env: Env, a: Body, b: Body)
    requires e.enabled && !RequiresResponseBody(e)
    ensures Cost(e, Response, Values(e, env, a)) == Cost(e, Response, Values(e, env, b))
  {
    assert Values(e, env, a) == Values(e, env, b);
  }

  lemma StreamCallNeedsBodyIfAccumulating(q: Quota, i: nat, keys: map<string, string>, env: Env, errs: bool, a: Body, b: Body)
    requires Accumulates(q) ==> a == b
    ensures StreamCall(q, i, keys, env, errs, a) == StreamCall(q, i, keys, env, errs, b)
  {
    if InBodyPhase(q) && !Accumulates(q) {
      BodyDoesNotMatter(q.extractor.value, env, a, b);
    }
  }

  /** The call a streamed response leads to, however it was cut, is the one the whole body asks for. */
  lemma StreamCallIsOnWholeBody(qs: seq<Quota>, keys: map<string, string>, env: Env, errs: bool, chunks: seq<Body>, i: nat)
    requires i < |qs| && DistinctNames(qs)
    ensures StreamCall(qs[i], i, keys, env, errs, Seen(qs, Feed(qs, map[], chunks), i))
         == StreamCall(qs[i], i, keys, env, errs, Concat(chunks))
  {
    FeedSeesWholeBody(qs, map[], chunks, i);
    assert Seen(qs, map[], i) == [];
    assert [] + Concat(chunks) == Concat(chunks);
    StreamCallNeedsBodyIfAccumulating(qs[i], i, keys, env, errs, Seen(qs, Feed(qs, map[], chunks), i), Concat(chunks));
  }

  /** The quota's end-of-stream cost on this body is not zero, but it has no key to charge it to. */
  ghost predicate KeylessCharge(qs: seq<Quota>, keys: map<string, string>, env: Env, body: Body, i: nat)
    requires i < |qs|
  {
    && InBodyPhase(qs[i]) && KeyOf(keys, EffectiveName(qs[i], i)) == ""
    && Cost(qs[i].extractor.value, Response, Values(qs[i].extractor.value, env, body)) != 0.0
  }

  lemma {:induction false} WholeBodyIsBuffered(qs: seq<Quota>, keys: map<string, string>, env: Env,
        errs: seq<bool>, body: Body, n: nat)
    requires n <= |qs| == |errs|
    ensures |WholeBodyCalls(qs, keys, env, errs, body, n)| >= |BufferedCalls(qs, keys, env, errs, body, n)|
    ensures (forall i :: 0 <= i < n ==> !KeylessCharge(qs, keys, env, body, i))
       <==> WholeBodyCalls(qs, keys, env, errs, body, n) == BufferedCalls(qs, keys, env, errs, body, n)
    decreases n
  {
    if n > 0 {
      WholeBodyIsBuffered(qs, keys, env, errs, body, n - 1);
      var a, b := WholeBodyCalls(qs, keys, env, errs, body, n - 1), BufferedCalls(qs, keys, env, errs, body, n - 1);
      var s := StreamCall(qs[n - 1], n - 1, keys, env, errs[n - 1], body);
      var t := BufferedCall(qs[n - 1], n - 1, keys, env, errs[n - 1], body);
      if KeylessCharge(qs, keys, env, body, n - 1) {
        assert s.Some? && t.None?;
      } else {
        assert s == t;
        AddIsInjective(a, b, s);
      }
    }
  }

  lemma AddIsInjective(a: seq<Call>, b: seq<Call>, call: Option<Call>)
    ensures Add(a, call) == Add(b, call) <==> a == b
  {
    if call.Some? && Add(a, call) == Add(b, call) {
      assert |a| == |b|;
      assert a == Add(a, call)[..|a|] == b;
    }
  }

  /** The consumption at the end of a streamed response is the same for every cutting of the body and equals that
      of the buffered path, precisely when no quota with something to charge has an empty key. */
  lemma StreamedIsBuffered(qs: seq<Quota>, keys: map<string, string>, env: Env, errs: seq<bool>, chunks: seq<Body>)
    requires |qs| == |errs| && DistinctNames(qs)
    ensures (forall i :: 0 <= i < |qs| ==> !KeylessCharge(qs, keys, env, Concat(chunks), i))
       <==> StreamCalls(qs, keys, env, errs, Feed(qs, map[], chunks), |qs|) == BufferedCalls(qs, keys, env, errs,
             Concat(chunks), |qs|)
  {
    StreamCallsAreOnWholeBody(qs, keys, env, errs, chunks, |qs|);
    WholeBodyIsBuffered(qs, keys, env, errs, Concat(chunks), |qs|);
  }

  /** A quota whose key was never saved: the buffered response charges nothing, the streamed one an empty key. */
  lemma KeylessQuotaIsChargedOnTheStream(chunks: seq<Body>) returns (q: Quota, env: Env)
    ensures KeylessCharge([q], map[], env, Concat(chunks), 0)
    ensures StreamCalls([q], map[], env, [false], Feed([q], map[], chunks), 1) == [Call(0, "", 5, true)]
    ensures BufferedCalls([q], map[], env, [false], Concat(chunks), 1) == []
  {
    var source := Source(ResponseMetadata, "tokens", 1.0);
    var e := Extractor(true, [source], 1.0);
    q := Quota("tokens", false, true, Some(e));
    env := Env(map[source := 5.0], (s: Source, b: Body) => None);
    assert source in e.sources && !ResponseHeaderOnly(e) && InBodyPhase(q);
    forall body
      ensures Cost(e, Response, Values(e, env, body)) == 5.0
    {
      assert Values(e, env, body)[source] == 5.0;
      SingleSourceCost(e, source, Response, Values(e, env, body));
    }
    var seen := Feed([q], map[], chunks);
    assert StreamCall(q, 0, map[], env, false, Seen([q], seen, 0)) == Some(Call(0, "", 5, true));
    assert StreamCalls([q], map[], env, [false], seen, 0) == [] && BufferedCalls([q], map[], env, [false], Concat(chunks), 0) == [];
  }

  /** The stream's calls in terms of the whole body. */
  lemma {:induction false} StreamCallsAreOnWholeBody(qs: seq<Quota>, keys: map<string, string>, env: Env, errs: seq<bool>,
                                                     chunks: seq<Body>, n: nat)
    requires n <= |qs| == |errs| && DistinctNames(qs)
    ensures StreamCalls(qs, keys, env, errs, Feed(qs, map[], chunks), n) == WholeBodyCalls(qs, keys, env, errs, Concat(chunks), n)
    decreases n
  {
    if n > 0 {
      StreamCallsAreOnWholeBody(qs, keys, env, errs, chunks, n - 1);
      StreamCallIsOnWholeBody(qs, keys, env, errs[n - 1], chunks, n - 1);
    }
  }

  function WholeBodyCalls(qs: seq<Quota>, keys: map<string, string>, env: Env, errs: seq<bool>, body: Body, n: nat): seq<Call>
    requires n <= |qs| == |errs|
  {
    if n == 0 then []
    else Add(WholeBodyCalls(qs, keys, env, errs, body, n - 1), StreamCall(qs[n - 1], n - 1, keys, env, errs[n - 1], body))
  }

  /** Two cuttings of one body are charged alike, keys or no keys. */
  lemma CuttingIsInvisible(qs: seq<Quota>, keys: map<string, string>, env: Env, errs: seq<bool>, a: seq<Body>, b: seq<Body>)
    requires |qs| == |errs| && DistinctNames(qs) && Concat(a) == Concat(b)
    ensures StreamCalls(qs, keys, env, errs, Feed(qs, map[], a), |qs|) == StreamCalls(qs, keys, env, errs, Feed(qs, map[], b), |qs|)
  {
    StreamCallsAreOnWholeBody(qs, keys, env, errs, a, |qs|);
    StreamCallsAreOnWholeBody(qs, keys, env, errs, b, |qs|);
  }

  // ---------------------------------------------------------------- at most once

  function TookOpt(call: Option<Call>): nat {
    if call.Some? && call.value.took then 1 else 0
  }

  lemma ChargedAdd(calls: seq<Call>, call: Option<Call>, i: nat)
    ensures Charged(Add(calls, call), i) == Charged(calls, i) + if call.Some? && call.value.quota == i then TookOpt(call) else 0
  {
    if call.Some? { assert (calls + [call.value])[..|calls|] == calls; }
  }

  lemma CallsAreOwn(q: Quota, i: nat, keys: map<string, string>, env: Env, errs: bool, body: Body)
    ensures ResponseHeaderCall(q, i, keys, env, errs).Some? ==> ResponseHeaderCall(q, i, keys, env, errs).value.quota == i
    ensures BufferedCall(q, i, keys, env, errs, body).Some? ==> BufferedCall(q, i, keys, env, errs, body).value.quota == i
    ensures StreamCall(q, i, keys, env, errs, body).Some? ==> StreamCall(q, i, keys, env, errs, body).value.quota == i
  {}

  lemma {:induction false} ResponseHeaderCharges(qs: seq<Quota>, keys: map<string, string>, env: Env,
        errs: seq<bool>, n: nat, i: nat)
    requires n <= |qs| == |errs| && i < |qs|
    ensures Charged(ResponseHeaderCalls(qs, keys, env, errs, n), i)
         == if i < n then TookOpt(ResponseHeaderCall(qs[i], i, keys, env, errs[i])) else 0
    decreases n
  {
    hide ResponseHeaderCall, BufferedCall, StreamCall;
    if n > 0 {
      ResponseHeaderCharges(qs, keys, env, errs, n - 1, i);
      CallsAreOwn(qs[n - 1], n - 1, keys, env, errs[n - 1], []);
      ChargedAdd(ResponseHeaderCalls(qs, keys, env, errs, n - 1), ResponseHeaderCall(qs[n - 1], n - 1, keys, env,
            errs[n - 1]), i);
    }
  }

  lemma {:induction false} BufferedCharges(qs: seq<Quota>, keys: map<string, string>, env: Env, errs: seq<bool>,
        body: Body, n: nat, i: nat)
    requires n <= |qs| == |errs| && i < |qs|
    ensures Charged(BufferedCalls(qs, keys, env, errs, body, n), i)
         == if i < n then TookOpt(BufferedCall(qs[i], i, keys, env, errs[i], body)) else 0
    decreases n
  {
    hide ResponseHeaderCall, BufferedCall, StreamCall;
    if n > 0 {
      BufferedCharges(qs, keys, env, errs, body, n - 1, i);
      CallsAreOwn(qs[n - 1], n - 1, keys, env, errs[n - 1], body);
      ChargedAdd(BufferedCalls(qs, keys, env, errs, body, n - 1), BufferedCall(qs[n - 1], n - 1, keys, env,
            errs[n - 1], body), i);
    }
  }

  lemma {:induction false} StreamCharges(qs: seq<Quota>, keys: map<string, string>, env: Env, errs: seq<bool>,
        seen: map<string, Body>, n: nat, i: nat)
    requires n <= |qs| == |errs| && i < |qs|
    ensures Charged(StreamCalls(qs, keys, env, errs, seen, n), i)
         == if i < n then TookOpt(StreamCall(qs[i], i, keys, env, errs[i], Seen(qs, seen, i))) else 0
    decreases n
  {
    hide ResponseHeaderCall, BufferedCall, StreamCall;
    if n > 0 {
      StreamCharges(qs, keys, env, errs, seen, n - 1, i);
      CallsAreOwn(qs[n - 1], n - 1, keys, env, errs[n - 1], Seen(qs, seen, n - 1));
      ChargedAdd(StreamCalls(qs, keys, env, errs, seen, n - 1), StreamCall(qs[n - 1], n - 1, keys, env,
            errs[n - 1], Seen(qs, seen, n - 1)), i);
    }
  }

  /** The calls after the response header phase. */
  function BodyPhaseCalls(qs: seq<Quota>, keys: map<string, string>, late: Env, errs: seq<bool>, chunks: seq<Body>,
                          streamed: bool): seq<Call>
    requires |qs| == |errs|
  {
    if streamed then StreamCalls(qs, keys, late, errs, Feed(qs, map[], chunks), |qs|)
    else BufferedCalls(qs, keys, late, errs, Concat(chunks), |qs|)
  }

  /** In the response phases no quota is charged twice, whether the body is buffered or streamed and whichever names
      clash. */
  lemma ResponseChargesAtMostOnce(qs: seq<Quota>, keys: map<string, string>, early: Env, late: Env,
                                  errs: seq<bool>, errs': seq<bool>, chunks: seq<Body>, streamed: bool, i: nat)
    requires |qs| == |errs| == |errs'| && i < |qs|
    ensures Charged(ResponseHeaderCalls(qs, keys, early, errs, |qs|) + BodyPhaseCalls(qs, keys, late, errs', chunks, streamed), i)
         <= 1
  {
    ResponseHeaderCharges(qs, keys, early, errs, |qs|, i);
    StreamCharges(qs, keys, late, errs', Feed(qs, map[], chunks), |qs|, i);
    BufferedCharges(qs, keys, late, errs', Concat(chunks), |qs|, i);
    ChargedAppend(ResponseHeaderCalls(qs, keys, early, errs, |qs|), BodyPhaseCalls(qs, keys, late, errs', chunks, streamed), i);
  }

  /** A quota with a key and a limiter that answers is charged exactly once if it owes anything; a streamed response
      also needs distinct names. */
  lemma ResponseChargesExactlyWhenDue(qs: seq<Quota>, keys: map<string, string>, early: Env, late: Env,
                                      errs: seq<bool>, errs': seq<bool>, chunks: seq<Body>, streamed: bool, i: nat)
    requires |qs| == |errs| == |errs'| && i < |qs| && (streamed ==> DistinctNames(qs))
    requires KeyOf(keys, EffectiveName(qs[i], i)) != "" && !errs[i] && !errs'[i]
    ensures Charged(ResponseHeaderCalls(qs, keys, early, errs, |qs|) + BodyPhaseCalls(qs, keys, late, errs', chunks, streamed), i)
         == if DueResponseCost(qs[i], early, late, Concat(chunks)) == 0.0 then 0 else 1
  {
    ResponseHeaderCharges(qs, keys, early, errs, |qs|, i);
    ChargedAppend(ResponseHeaderCalls(qs, keys, early, errs, |qs|), BodyPhaseCalls(qs, keys, late, errs', chunks, streamed), i);
    if streamed {
      StreamCharges(qs, keys, late, errs', Feed(qs, map[], chunks), |qs|, i);
      StreamCallIsOnWholeBody(qs, keys, late, errs'[i], chunks, i);
    } else {
      BufferedCharges(qs, keys, late, errs', Concat(chunks), |qs|, i);
    }
  }

  /** What a quota owes for the response: read in the header phase when its response sources are all headers. */
  function DueResponseCost(q: Quota, early: Env, late: Env, body: Body): real {
    if !UsesCost(q) || !HasResponsePhaseSources(q.extractor.value) then 0.0
    else if ResponseHeaderOnly(q.extractor.value) then Cost(q.extractor.value, Response, Values(q.extractor.value, early, []))
    else Cost(q.extractor.value, Response, Values(q.extractor.value, late, body))
  }
}
