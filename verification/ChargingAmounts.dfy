/** How much is taken, under which key, and when a request is turned away. */
module ChargingAmounts {
  import opened Wrappers
  import opened CostExtraction
  import opened ChargingSpec
  import opened ResponseChargingSpec

  /** What the taking calls for quota `i` took together. */
  function Taken(calls: seq<Call>, i: nat): int {
    if calls == [] then 0
    else
      var c := calls[|calls| - 1];
      Taken(calls[..|calls| - 1], i) + if c.quota == i && c.took then c.amount else 0
  }

  lemma {:induction false} TakenIsPerCharge(calls: seq<Call>, i: nat, amount: int)
    requires forall c :: c in calls && c.quota == i ==> c.amount == amount
    ensures Taken(calls, i) == Charged(calls, i) * amount
  {
    if calls != [] { TakenIsPerCharge(calls[..|calls| - 1], i, amount); }
  }

  // ---------------------------------------------------------------- request phases

  /** Every call of the header phase carries the key read there and what its quota owes, in whole tokens. */
  lemma {:induction false} HeaderCallsAreOwed(qs: seq<Quota>, header: seq<World>, body: seq<World>, failOpen: bool, n: nat)
    requires n <= |qs| == |header| == |body|
    ensures forall c :: c in HeaderPhase(qs, header, failOpen, n).calls ==>
              && c.quota < n && c.key == header[c.quota].key
              && c.amount == Owed(qs[c.quota], header[c.quota], body[c.quota]).Floor
    decreases n
  {
    hide HeaderAct, EffectiveName, HeaderKey, Owed;
    if n > 0 {
      HeaderCallsAreOwed(qs, header, body, failOpen, n - 1);
      HeaderCallIsOwed(qs[n - 1], n - 1, header[n - 1], body[n - 1], failOpen);
    }
  }

  lemma HeaderCallIsOwed(q: Quota, i: nat, header: World, body: World, failOpen: bool)
    ensures var call := HeaderAct(q, i, header, failOpen).call;
            call.Some? ==> call.value.quota == i && call.value.key == header.key
                           && call.value.amount == Owed(q, header, body).Floor
  {}

  lemma {:induction false} BodyCallsAreOwed(qs: seq<Quota>, header: seq<World>, body: seq<World>, failOpen: bool,
                                            settled: set<string>, n: nat)
    requires n <= |qs| == |header| == |body|
    ensures forall c :: c in BodyPhase(qs, body, failOpen, settled, n).calls ==>
              && c.quota < n && c.key == body[c.quota].key
              && c.amount == Owed(qs[c.quota], header[c.quota], body[c.quota]).Floor
    decreases n
  {
    hide BodyAct, EffectiveName, Owed;
    if n > 0 {
      BodyCallsAreOwed(qs, header, body, failOpen, settled, n - 1);
      BodyCallIsOwed(qs[n - 1], n - 1, header[n - 1], body[n - 1], failOpen, settled);
    }
  }

  lemma BodyCallIsOwed(q: Quota, i: nat, header: World, body: World, failOpen: bool, settled: set<string>)
    ensures var call := BodyAct(q, i, body, failOpen, settled).call;
            call.Some? ==> call.value.quota == i && call.value.key == body.key
                           && call.value.amount == Owed(q, header, body).Floor
  {}

  /** Over both phases every call is for what its quota owes, under the key read in its phase. */
  lemma RequestCallsAreOwed(qs: seq<Quota>, header: seq<World>, body: seq<World>, failOpen: bool)
    requires |qs| == |header| == |body|
    ensures forall c :: c in RequestPhases(qs, header, body, failOpen).calls ==>
              && c.quota < |qs| && c.key in {header[c.quota].key, body[c.quota].key}
              && c.amount == Owed(qs[c.quota], header[c.quota], body[c.quota]).Floor
  {
    hide HeaderPhase, BodyPhase, Owed;
    var h := HeaderPhase(qs, header, failOpen, |qs|);
    HeaderCallsAreOwed(qs, header, body, failOpen, |qs|);
    BodyCallsAreOwed(qs, header, body, failOpen, h.settled, |qs|);
  }

  /** With distinct names, no limiter error and no rejection, what is taken for a quota is what it owes, in whole
      tokens, unless it falls between the phases. */
  lemma RequestTakesWhatIsOwed(qs: seq<Quota>, header: seq<World>, body: seq<World>, failOpen: bool, i: nat)
    requires |qs| == |header| == |body| && i < |qs| && DistinctNames(qs)
    requires header[i].allow != AllowError && body[i].allow != AllowError
    requires !RequestPhases(qs, header, body, failOpen).rejected
    ensures Taken(RequestPhases(qs, header, body, failOpen).calls, i)
         == if FallsBetween(qs[i]) then 0 else Owed(qs[i], header[i], body[i]).Floor
  {
    hide RequestPhases, Owed, Charged, Taken, FallsBetween;
    RequestCallsAreOwed(qs, header, body, failOpen);
    RequestChargesExactlyWhenDue(qs, header, body, failOpen, i);
    TakenIsPerCharge(RequestPhases(qs, header, body, failOpen).calls, i, Owed(qs[i], header[i], body[i]).Floor);
  }

  // ---------------------------------------------------------------- turning a request away

  /** A limiter's reply turns the request away: a cost known only later needs something left; a cost of zero needs an
      answer; any other cost must be allowed. Errors turn it away unless they are let pass. */
  predicate TurnsAway(w: World, cost: Option<real>, failOpen: bool) {
    match cost
    case None => if w.available.AvailableError? then !failOpen else w.available.remaining <= 0
    case Some(c) =>
      if c == 0.0 then w.available.AvailableError? && !failOpen
      else w.allow.Denied? || (w.allow.AllowError? && !failOpen)
  }

  /** What the header phase asks of a quota. */
  predicate HeaderTurnsAway(q: Quota, w: World, failOpen: bool) {
    && !q.celKey
    && TurnsAway(w, if !UsesCost(q) then Some(1.0)
                    else if RequestHeaderOnly(q.extractor.value) then Some(Cost(q.extractor.value, Request, w.values))
                    else None, failOpen)
  }

  /** What the body phase asks of a quota. */
  predicate BodyTurnsAway(q: Quota, i: nat, w: World, settled: set<string>, failOpen: bool) {
    if !UsesCost(q) then EffectiveName(q, i) !in settled && TurnsAway(w, Some(1.0), failOpen)
    else
      && !RequestHeaderOnly(q.extractor.value)
      && TurnsAway(w, if HasRequestPhaseSources(q.extractor.value) then Some(Cost(q.extractor.value, Request, w.values))
                      else None, failOpen)
  }

  lemma {:induction false} HeaderRejectsIff(qs: seq<Quota>, ws: seq<World>, failOpen: bool, n: nat)
    requires n <= |qs| == |ws|
    ensures HeaderPhase(qs, ws, failOpen, n).rejected <==> exists i :: 0 <= i < n && HeaderTurnsAway(qs[i], ws[i], failOpen)
    decreases n
  {
    hide HeaderAct, HeaderTurnsAway, EffectiveName, HeaderKey;
    if n > 0 {
      HeaderRejectsIff(qs, ws, failOpen, n - 1);
      HeaderActRejects(qs[n - 1], n - 1, ws[n - 1], failOpen);
    }
  }

  lemma HeaderActRejects(q: Quota, i: nat, w: World, failOpen: bool)
    ensures HeaderAct(q, i, w, failOpen).rejects <==> HeaderTurnsAway(q, w, failOpen)
  {}

  lemma {:induction false} BodyRejectsIff(qs: seq<Quota>, ws: seq<World>, failOpen: bool, settled: set<string>, n: nat)
    requires n <= |qs| == |ws|
    ensures BodyPhase(qs, ws, failOpen, settled, n).rejected
            <==> exists i :: 0 <= i < n && BodyTurnsAway(qs[i], i, ws[i], settled, failOpen)
    decreases n
  {
    hide BodyAct, BodyTurnsAway, EffectiveName;
    if n > 0 {
      BodyRejectsIff(qs, ws, failOpen, settled, n - 1);
      BodyActRejects(qs[n - 1], n - 1, ws[n - 1], failOpen, settled);
    }
  }

  lemma BodyActRejects(q: Quota, i: nat, w: World, failOpen: bool, settled: set<string>)
    ensures BodyAct(q, i, w, failOpen, settled).rejects <==> BodyTurnsAway(q, i, w, settled, failOpen)
  {}

  /** A request is turned away exactly when some quota turns it away in the header phase, or in the body phase if any
      quota has a CEL key or reads its cost from more than request headers. */
  lemma RequestIsTurnedAwayIff(qs: seq<Quota>, header: seq<World>, body: seq<World>, failOpen: bool)
    requires |qs| == |header| == |body|
    ensures var settled := HeaderPhase(qs, header, failOpen, |qs|).settled;
            RequestPhases(qs, header, body, failOpen).rejected <==>
              || (exists i :: 0 <= i < |qs| && HeaderTurnsAway(qs[i], header[i], failOpen))
              || ((exists q :: q in qs && (q.celKey || (UsesCost(q) && HasRequestPhaseSources(q.extractor.value)
                                                        && !RequestHeaderOnly(q.extractor.value))))
                  && exists i :: 0 <= i < |qs| && BodyTurnsAway(qs[i], i, body[i], settled, failOpen))
  {
    hide HeaderPhase, BodyPhase, HeaderTurnsAway, BodyTurnsAway, HasRequestBodyPhase, HasRequestPhaseSources, RequestHeaderOnly;
    HeaderRejectsIff(qs, header, failOpen, |qs|);
    BodyRejectsIff(qs, body, failOpen, HeaderPhase(qs, header, failOpen, |qs|).settled, |qs|);
    forall e: Extractor
      ensures HasRequestBodyPhase(e) <==> HasRequestPhaseSources(e) && !RequestHeaderOnly(e)
    {
      BodyPhases(e);
    }
  }

  // ---------------------------------------------------------------- what is settled

  /** A quota settles in the header phase when it took its tokens there, or owes none and its limiter answers. */
  predicate SettlesInHeader(q: Quota, w: World) {
    && !q.celKey
    && if !UsesCost(q) then w.allow.Allowed?
       else
         && RequestHeaderOnly(q.extractor.value)
         && if Cost(q.extractor.value, Request, w.values) == 0.0 then w.available.Available? else w.allow.Allowed?
  }

  lemma HeaderActSettles(q: Quota, i: nat, w: World, failOpen: bool)
    ensures HeaderAct(q, i, w, failOpen).settled <==> SettlesInHeader(q, w)
  {}

  /** Settled are the names of the quotas reached that settle there: a limiter error leaves a quota to the body phase,
      also when it is let pass. */
  lemma {:induction false} SettledInHeaderIff(qs: seq<Quota>, ws: seq<World>, failOpen: bool, n: nat, name: string)
    requires n <= |qs| == |ws|
    ensures name in HeaderPhase(qs, ws, failOpen, n).settled <==>
              exists i :: 0 <= i < n && EffectiveName(qs[i], i) == name && SettlesInHeader(qs[i], ws[i])
                          && !HeaderPhase(qs, ws, failOpen, i).rejected
    decreases n
  {
    hide HeaderAct, SettlesInHeader, EffectiveName;
    if n > 0 {
      SettledInHeaderIff(qs, ws, failOpen, n - 1, name);
      HeaderActSettles(qs[n - 1], n - 1, ws[n - 1], failOpen);
    }
  }

  // ---------------------------------------------------------------- the keys that are saved

  lemma {:induction false} HeaderKeysSaved(qs: seq<Quota>, ws: seq<World>, failOpen: bool, n: nat, i: nat)
    requires i < n <= |qs| == |ws| && DistinctNames(qs) && !HeaderPhase(qs, ws, failOpen, n).rejected
    ensures !qs[i].celKey ==> KeyOf(HeaderPhase(qs, ws, failOpen, n).keys, EffectiveName(qs[i], i)) == ws[i].key
    decreases n
  {
    hide HeaderAct, EffectiveName;
    if i < n - 1 {
      HeaderKeysSaved(qs, ws, failOpen, n - 1, i);
      assert EffectiveName(qs[i], i) != EffectiveName(qs[n - 1], n - 1);
    }
  }

  lemma {:induction false} BodyKeysSaved(qs: seq<Quota>, ws: seq<World>, failOpen: bool, settled: set<string>, n: nat, i: nat)
    requires i < n <= |qs| == |ws| && DistinctNames(qs) && !BodyPhase(qs, ws, failOpen, settled, n).rejected
    ensures KeyOf(BodyPhase(qs, ws, failOpen, settled, n).keys, EffectiveName(qs[i], i)) == ws[i].key
    decreases n
  {
    hide BodyAct, EffectiveName;
    if i < n - 1 {
      BodyKeysSaved(qs, ws, failOpen, settled, n - 1, i);
      assert EffectiveName(qs[i], i) != EffectiveName(qs[n - 1], n - 1);
    }
  }

  /** After a request that was let through, the key saved for each quota is the one read last: in the body phase if
      there was one, else in the header phase. */
  lemma LastKeyIsSaved(qs: seq<Quota>, header: seq<World>, body: seq<World>, failOpen: bool, i: nat)
    requires |qs| == |header| == |body| && i < |qs| && DistinctNames(qs)
    requires !RequestPhases(qs, header, body, failOpen).rejected
    ensures KeyOf(RequestPhases(qs, header, body, failOpen).keys, EffectiveName(qs[i], i))
         == if RequiresRequestBody(qs) then body[i].key else header[i].key
  {
    hide HeaderPhase, BodyPhase, EffectiveName, DistinctNames;
    var settled := HeaderPhase(qs, header, failOpen, |qs|).settled;
    if RequiresRequestBody(qs) {
      BodyKeysSaved(qs, body, failOpen, settled, |qs|, i);
    } else {
      assert qs[i] in qs;
      HeaderKeysSaved(qs, header, failOpen, |qs|, i);
    }
  }

  /** A quota goes by its name, and without one by its place. */
  lemma EffectiveNames(q: Quota, i: nat)
    ensures q.name != "" ==> EffectiveName(q, i) == q.name
    ensures q.name == "" ==> EffectiveName(q, 0) == "quota-0" && EffectiveName(q, 12) == "quota-12"
  {
    assert Decimal(1) == "1" && Decimal(0) == "0";
    assert Decimal(12) == Decimal(1) + "2";
  }

  // ---------------------------------------------------------------- response phases

  /** What one source on the response body costs: a JSONPath reads nothing in an empty body, where a CEL expression is
      still evaluated; what cannot be read costs the default. */
  lemma BodySourceCost(e: Extractor, s: Source, env: Env, body: Body)
    requires e.enabled && e.sources == [s] && (s.kind.ResponseBody? || s.kind.ResponseCEL?)
    ensures var read := if s.kind.ResponseBody? && body == [] then None else env.onBody(s, body);
            var cost := if read.Some? then read.value * s.multiplier else e.default;
            Cost(e, Response, Values(e, env, body)) == if cost < 0.0 then 0.0 else cost
  {
    hide Cost;
    var values := Values(e, env, body);
    if s in values { SingleSourceCost(e, s, Response, values); } else { NothingReadCostsDefault(e, Response, values); }
  }

  lemma {:induction false} AddedCalls(calls: seq<Call>, call: Option<Call>)
    ensures forall c :: c in Add(calls, call) <==> c in calls || call == Some(c)
  {}

  lemma {:induction false} ResponseHeaderCallsAreOwed(qs: seq<Quota>, keys: map<string, string>, early: Env, late: Env,
                                                      body: Body, errs: seq<bool>, n: nat)
    requires n <= |qs| == |errs|
    ensures forall c :: c in ResponseHeaderCalls(qs, keys, early, errs, n) ==>
              && c.quota < n && c.key == KeyOf(keys, EffectiveName(qs[c.quota], c.quota)) && c.key != ""
              && c.amount == DueResponseCost(qs[c.quota], early, late, body).Floor
    decreases n
  {
    hide EffectiveName, DueResponseCost, ResponseHeaderCall;
    if n > 0 {
      ResponseHeaderCallsAreOwed(qs, keys, early, late, body, errs, n - 1);
      ResponseCallIsOwed(qs[n - 1], n - 1, keys, early, late, errs[n - 1], body);
      AddedCalls(ResponseHeaderCalls(qs, keys, early, errs, n - 1), ResponseHeaderCall(qs[n - 1], n - 1, keys, early, errs[n - 1]));
    }
  }

  lemma ResponseCallIsOwed(q: Quota, i: nat, keys: map<string, string>, early: Env, late: Env, errs: bool, body: Body)
    ensures var h, b, s := ResponseHeaderCall(q, i, keys, early, errs), BufferedCall(q, i, keys, late, errs, body),
                           StreamCall(q, i, keys, late, errs, body);
            forall call :: call in {h, b, s} && call.Some? ==>
              && call.value.quota == i && call.value.key == KeyOf(keys, EffectiveName(q, i))
              && call.value.amount == DueResponseCost(q, early, late, body).Floor
              && (call in {h, b} ==> call.value.key != "") && (call.value.took <==> !errs)
  {
    hide EffectiveName, Cost, Values;
  }

  lemma {:induction false} BufferedCallsAreOwed(qs: seq<Quota>, keys: map<string, string>, early: Env, late: Env,
                                                body: Body, errs: seq<bool>, n: nat)
    requires n <= |qs| == |errs|
    ensures forall c :: c in BufferedCalls(qs, keys, late, errs, body, n) ==>
              && c.quota < n && c.key == KeyOf(keys, EffectiveName(qs[c.quota], c.quota))
              && c.amount == DueResponseCost(qs[c.quota], early, late, body).Floor
    decreases n
  {
    hide EffectiveName, DueResponseCost, BufferedCall;
    if n > 0 {
      BufferedCallsAreOwed(qs, keys, early, late, body, errs, n - 1);
      ResponseCallIsOwed(qs[n - 1], n - 1, keys, early, late, errs[n - 1], body);
      AddedCalls(BufferedCalls(qs, keys, late, errs, body, n - 1), BufferedCall(qs[n - 1], n - 1, keys, late, errs[n - 1], body));
    }
  }

  lemma {:induction false} StreamCallsAreOwed(qs: seq<Quota>, keys: map<string, string>, early: Env, late: Env,
                                              chunks: seq<Body>, errs: seq<bool>, n: nat)
    requires n <= |qs| == |errs| && DistinctNames(qs)
    ensures forall c :: c in StreamCalls(qs, keys, late, errs, Feed(qs, map[], chunks), n) ==>
              && c.quota < n && c.key == KeyOf(keys, EffectiveName(qs[c.quota], c.quota))
              && c.amount == DueResponseCost(qs[c.quota], early, late, Concat(chunks)).Floor
    decreases n
  {
    hide EffectiveName, DueResponseCost, StreamCall, Feed, Seen, DistinctNames;
    if n > 0 {
      StreamCallsAreOwed(qs, keys, early, late, chunks, errs, n - 1);
      var seen := Feed(qs, map[], chunks);
      StreamCallIsOnWholeBody(qs, keys, late, errs[n - 1], chunks, n - 1);
      ResponseCallIsOwed(qs[n - 1], n - 1, keys, early, late, errs[n - 1], Concat(chunks));
      AddedCalls(StreamCalls(qs, keys, late, errs, seen, n - 1),
                 StreamCall(qs[n - 1], n - 1, keys, late, errs[n - 1], Seen(qs, seen, n - 1)));
    }
  }

  /** Every call of the response phases, buffered or streamed, carries the saved key and what its quota owes for the
      response, in whole tokens. */
  lemma ResponseCallsAreOwed(qs: seq<Quota>, keys: map<string, string>, early: Env, late: Env,
                             errs: seq<bool>, errs': seq<bool>, chunks: seq<Body>, streamed: bool)
    requires |qs| == |errs| == |errs'| && (streamed ==> DistinctNames(qs))
    ensures forall c :: c in ResponseHeaderCalls(qs, keys, early, errs, |qs|)
                           + BodyPhaseCalls(qs, keys, late, errs', chunks, streamed) ==>
              && c.quota < |qs| && c.key == KeyOf(keys, EffectiveName(qs[c.quota], c.quota))
              && c.amount == DueResponseCost(qs[c.quota], early, late, Concat(chunks)).Floor
  {
    hide EffectiveName, DueResponseCost, ResponseHeaderCalls, BufferedCalls, StreamCalls, Feed, DistinctNames;
    ResponseHeaderCallsAreOwed(qs, keys, early, late, Concat(chunks), errs, |qs|);
    if streamed {
      StreamCallsAreOwed(qs, keys, early, late, chunks, errs', |qs|);
    } else {
      BufferedCallsAreOwed(qs, keys, early, late, Concat(chunks), errs', |qs|);
    }
  }

  /** A quota with a key and a limiter that answers has taken for the response what it owes for it. */
  lemma ResponseTakesWhatIsOwed(qs: seq<Quota>, keys: map<string, string>, early: Env, late: Env,
                                errs: seq<bool>, errs': seq<bool>, chunks: seq<Body>, streamed: bool, i: nat)
    requires |qs| == |errs| == |errs'| && i < |qs| && (streamed ==> DistinctNames(qs))
    requires KeyOf(keys, EffectiveName(qs[i], i)) != "" && !errs[i] && !errs'[i]
    ensures Taken(ResponseHeaderCalls(qs, keys, early, errs, |qs|) + BodyPhaseCalls(qs, keys, late, errs', chunks, streamed), i)
         == DueResponseCost(qs[i], early, late, Concat(chunks)).Floor
  {
    hide EffectiveName, DueResponseCost, ResponseHeaderCalls, BodyPhaseCalls, Charged, Taken, DistinctNames;
    ResponseCallsAreOwed(qs, keys, early, late, errs, errs', chunks, streamed);
    ResponseChargesExactlyWhenDue(qs, keys, early, late, errs, errs', chunks, streamed, i);
    TakenIsPerCharge(ResponseHeaderCalls(qs, keys, early, errs, |qs|) + BodyPhaseCalls(qs, keys, late, errs', chunks, streamed),
                     i, DueResponseCost(qs[i], early, late, Concat(chunks)).Floor);
  }
}
