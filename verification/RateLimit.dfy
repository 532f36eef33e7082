/** The rate-limit policy object: its request and response phases over shared per-request metadata.
    Results kept only for response headers are not modelled. */
module RateLimit {
  import opened Wrappers
  import opened CostExtraction
  import opened ChargingSpec
  import opened ResponseChargingSpec

  /** The entries this policy keeps in the request's shared metadata. */
  class Metadata {
    var keys: map<string, string>
    var headerHandled: set<string>
    var streamState: Option<map<string, Body>>

    constructor ()
      ensures keys == map[] && headerHandled == {} && streamState == None
    {
      keys, headerHandled, streamState := map[], {}, None;
    }
  }

  class Policy {
    const quotas: seq<Quota>
    const failOpen: bool  // Redis-backed and configured to let requests through on limiter errors

    constructor (quotas: seq<Quota>, failOpen: bool)
      ensures this.quotas == quotas && this.failOpen == failOpen
    {
      this.quotas, this.failOpen := quotas, failOpen;
    }

    method OnRequestHeaders(meta: Metadata, worlds: seq<World>) returns (calls: seq<Call>, rejected: bool)
      requires |worlds| == |quotas|
      modifies meta
      ensures var o := HeaderPhase(quotas, worlds, failOpen, |quotas|);
              && calls == o.calls && rejected == o.rejected
              && meta.keys == (if rejected then old(meta.keys) else o.keys)
              && meta.headerHandled == (if rejected then old(meta.headerHandled) else o.settled)
              && meta.streamState == old(meta.streamState)
    {
      var quotaKeys: map<string, string>, handled: set<string> := map[], {};
      calls := [];
      for i := 0 to |quotas|
        invariant unchanged(meta)
        invariant HeaderPhase(quotas, worlds, failOpen, i) == Outcome(calls, handled, quotaKeys, false)
      {
        var q, w, name := quotas[i], worlds[i], EffectiveName(quotas[i], i);
        if q.celKey { continue; }
        quotaKeys := quotaKeys[name := w.key];
        var act;
        if q.costEnabled && q.extractor.Some? {
          var headerOnly := HasRequestHeaderOnlyCostSources(q.extractor.value);
          if headerOnly {
            var cost, _ := ExtractCost(q.extractor.value, Request, w.values);
            act := ChargeCost(i, w, cost);
          } else {
            act := Precheck(w);
          }
        } else {
          act := Take(i, w, 1);
        }
        if act.call.Some? { calls := calls + [act.call.value]; }
        if act.rejects { RejectionStands(worlds, i + 1); return calls, true; }
        if act.settled { handled := handled + {name}; }
      }
      meta.keys, meta.headerHandled := quotaKeys, handled;
      rejected := false;
    }

    /** AllowN, and what its reply leads to. */
    method Take(i: nat, w: World, amount: int) returns (act: Act)
      ensures act == TakeAct(i, w, amount, failOpen)
    {
      if w.allow.AllowError? { return Act(Some(Call(i, w.key, amount, false)), false, !failOpen); }
      if w.allow.Denied? { return Act(Some(Call(i, w.key, amount, false)), false, true); }
      return Act(Some(Call(i, w.key, amount, true)), true, false);
    }

    method ChargeCost(i: nat, w: World, cost: real) returns (act: Act)
      ensures act == CostAct(i, w, cost, failOpen)
    {
      if cost == 0.0 {
        if w.available.AvailableError? { return Act(None, false, !failOpen); }
        return Act(None, true, false);
      }
      act := Take(i, w, cost.Floor);
    }

    /** GetAvailable before a cost that is only known later. */
    method Precheck(w: World) returns (act: Act)
      ensures act == PrecheckAct(w, failOpen)
    {
      match w.available
      case AvailableError => return Act(None, false, !failOpen);
      case Available(n) => return Act(None, false, n <= 0);
    }

    /** After a rejection nothing more happens in the phase. */
    lemma {:induction false} RejectionStands(worlds: seq<World>, n: nat)
      requires |worlds| == |quotas| && n <= |quotas| && HeaderPhase(quotas, worlds, failOpen, n).rejected
      ensures HeaderPhase(quotas, worlds, failOpen, |quotas|) == HeaderPhase(quotas, worlds, failOpen, n)
      decreases |quotas| - n
    {
      if n < |quotas| { RejectionStands(worlds, n + 1); }
    }

    lemma {:induction false} BodyRejectionStands(worlds: seq<World>, settled: set<string>, n: nat)
      requires |worlds| == |quotas| && n <= |quotas| && BodyPhase(quotas, worlds, failOpen, settled, n).rejected
      ensures BodyPhase(quotas, worlds, failOpen, settled, |quotas|) == BodyPhase(quotas, worlds, failOpen, settled, n)
      decreases |quotas| - n
    {
      if n < |quotas| { BodyRejectionStands(worlds, settled, n + 1); }
    }

    method OnRequestBody(meta: Metadata, worlds: seq<World>) returns (calls: seq<Call>, rejected: bool)
      requires |worlds| == |quotas|
      modifies meta
      ensures meta.headerHandled == old(meta.headerHandled) && meta.streamState == old(meta.streamState)
      ensures !RequiresRequestBody(quotas) ==> calls == [] && !rejected && meta.keys == old(meta.keys)
      ensures RequiresRequestBody(quotas) ==>
                var o := BodyPhase(quotas, worlds, failOpen, meta.headerHandled, |quotas|);
                calls == o.calls && rejected == o.rejected && meta.keys == if rejected then old(meta.keys) else o.keys
    {
      hide Cost, TakeAct, CostAct, PrecheckAct;
      if !RequiresRequestBody(quotas) { return [], false; }
      var quotaKeys: map<string, string>, handled := map[], meta.headerHandled;
      ghost var settled: set<string> := {};
      calls := [];
      for i := 0 to |quotas|
        invariant unchanged(meta)
        invariant BodyPhase(quotas, worlds, failOpen, handled, i) == Outcome(calls, settled, quotaKeys, false)
      {
        var q, w, name := quotas[i], worlds[i], EffectiveName(quotas[i], i);
        quotaKeys := quotaKeys[name := w.key];
        var act;
        if q.costEnabled && q.extractor.Some? {
          var headerOnly := HasRequestHeaderOnlyCostSources(q.extractor.value);
          if headerOnly { continue; }
          if HasRequestPhaseSources(q.extractor.value) {
            var cost, _ := ExtractCost(q.extractor.value, Request, w.values);
            act := ChargeCost(i, w, cost);
          } else {
            act := Precheck(w);
          }
        } else {
          if name in handled { continue; }
          act := Take(i, w, 1);
        }
        if act.call.Some? { calls := calls + [act.call.value]; }
        if act.rejects { BodyRejectionStands(worlds, handled, i + 1); return calls, true; }
        if act.settled { settled := settled + {name}; }
      }
      meta.keys := quotaKeys;
      rejected := false;
    }

    method OnResponseHeaders(meta: Metadata, env: Env, errs: seq<bool>) returns (calls: seq<Call>)
      requires |errs| == |quotas|
      ensures calls == ResponseHeaderCalls(quotas, meta.keys, env, errs, |quotas|)
    {
      calls := [];
      for i := 0 to |quotas|
        invariant calls == ResponseHeaderCalls(quotas, meta.keys, env, errs, i)
      {
        var q := quotas[i];
        if !(q.costEnabled && q.extractor.Some? && HasResponsePhaseSources(q.extractor.value)) { continue; }
        var headerOnly := HasResponseHeaderOnlyCostSources(q.extractor.value);
        if !headerOnly { continue; }
        var key := KeyOf(meta.keys, EffectiveName(q, i));
        if key == "" { continue; }
        var cost, _ := ExtractCost(q.extractor.value, Response, Values(q.extractor.value, env, []));
        if cost == 0.0 { continue; }
        calls := calls + [Call(i, key, cost.Floor, !errs[i])];
      }
    }

    /** The gate of the buffered body phase. */
    predicate RequiresAnyResponseBodyMode() {
      exists q :: q in quotas && InBodyPhase(q)
    }

    method OnResponseBody(meta: Metadata, env: Env, errs: seq<bool>, body: Body) returns (calls: seq<Call>)
      requires |errs| == |quotas|
      ensures calls == BufferedCalls(quotas, meta.keys, env, errs, body, |quotas|)
    {
      calls := [];
      if !RequiresAnyResponseBodyMode() {
        NothingInBodyPhase(meta.keys, env, errs, body, |quotas|);
        return;
      }
      for i := 0 to |quotas|
        invariant calls == BufferedCalls(quotas, meta.keys, env, errs, body, i)
      {
        var q := quotas[i];
        if !(q.costEnabled && q.extractor.Some?) { continue; }
        var headerOnly := HasResponseHeaderOnlyCostSources(q.extractor.value);
        if headerOnly || !HasResponsePhaseSources(q.extractor.value) { continue; }
        var key := KeyOf(meta.keys, EffectiveName(q, i));
        if key == "" { continue; }
        var cost, _ := ExtractCost(q.extractor.value, Response, Values(q.extractor.value, env, body));
        if cost == 0.0 { continue; }
        calls := calls + [Call(i, key, cost.Floor, !errs[i])];
      }
    }

    /** The gate skips nothing: without a quota for the body phase there is nothing to consume there. */
    lemma {:induction false} NothingInBodyPhase(keys: map<string, string>, env: Env, errs: seq<bool>, body: Body, n: nat)
      requires n <= |quotas| == |errs| && !RequiresAnyResponseBodyMode()
      ensures BufferedCalls(quotas, keys, env, errs, body, n) == []
    {
      if n > 0 {
        assert quotas[n - 1] in quotas;
        NothingInBodyPhase(keys, env, errs, body, n - 1);
      }
    }

    method OnResponseBodyChunk(meta: Metadata, env: Env, errs: seq<bool>, chunk: Body, endOfStream: bool)
      returns (calls: seq<Call>)
      requires |errs| == |quotas|
      modifies meta
      ensures meta.keys == old(meta.keys) && meta.headerHandled == old(meta.headerHandled)
      ensures var before := if old(meta.streamState).Some? then old(meta.streamState).value else map[];
              var after := Accumulate(quotas, before, chunk, |quotas|);
              && meta.streamState == Some(after)
              && calls == if endOfStream then StreamCalls(quotas, meta.keys, env, errs, after, |quotas|) else []
    {
      var before := if meta.streamState.Some? then meta.streamState.value else map[];
      var state := before;
      for i := 0 to |quotas|
        invariant state == Accumulate(quotas, before, chunk, i)
      {
        var q := quotas[i];
        if !(q.costEnabled && q.extractor.Some?) || !RequiresResponseBody(q.extractor.value) { continue; }
        var name := EffectiveName(q, i);
        state := state[name := SeenSoFar(state, name) + chunk];
      }
      meta.streamState := Some(state);
      calls := [];
      if endOfStream { calls := FinalizeAndConsumeStreamingCosts(meta, env, errs, state); }
    }

    method FinalizeAndConsumeStreamingCosts(meta: Metadata, env: Env, errs: seq<bool>, state: map<string, Body>)
      returns (calls: seq<Call>)
      requires |errs| == |quotas|
      ensures calls == StreamCalls(quotas, meta.keys, env, errs, state, |quotas|)
    {
      calls := [];
      for i := 0 to |quotas|
        invariant calls == StreamCalls(quotas, meta.keys, env, errs, state, i)
      {
        var q := quotas[i];
        if !(q.costEnabled && q.extractor.Some?) { continue; }
        var headerOnly := HasResponseHeaderOnlyCostSources(q.extractor.value);
        if headerOnly || !HasResponsePhaseSources(q.extractor.value) { continue; }
        var name := EffectiveName(q, i);
        var cost, _ := ExtractCost(q.extractor.value, Response, Values(q.extractor.value, env, SeenSoFar(state, name)));
        if cost == 0.0 { continue; }
        calls := calls + [Call(i, KeyOf(meta.keys, name), cost.Floor, !errs[i])];
      }
    }
  }
}
