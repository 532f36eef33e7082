/** How one request is charged: what each phase does for each quota, and what that adds up to. */
module ChargingSpec {
  import opened Wrappers
  import opened CostExtraction

  /** `celKey` says that some key component is a CEL expression. */
  datatype Quota = Quota(name: string, celKey: bool, costEnabled: bool, extractor: Option<Extractor>)

  /** What the outside world answers while one quota is handled in one phase: the extracted key, the
      readable cost values, and the limiter's replies. */
  datatype World = World(key: string, values: map<Source, real>, allow: AllowReply, available: AvailableReply)
  datatype AllowReply = AllowError | Allowed | Denied
  datatype AvailableReply = AvailableError | Available(remaining: int)

  /** A limiter call that takes tokens, and whether it took them. */
  datatype Call = Call(quota: nat, key: string, amount: int, took: bool)

  function Decimal(n: nat): string {
    if n < 10 then [('0' as int + n) as char] else Decimal(n / 10) + [('0' as int + n % 10) as char]
  }

  function EffectiveName(q: Quota, index: nat): string {
    if q.name != "" then q.name else "quota-" + Decimal(index)
  }

  predicate DistinctNames(qs: seq<Quota>) {
    forall i, j :: 0 <= i < j < |qs| ==> EffectiveName(qs[i], i) != EffectiveName(qs[j], j)
  }

  predicate UsesCost(q: Quota) {
    q.costEnabled && q.extractor.Some?
  }

  // ---------------------------------------------------------------- one quota in one phase

  /** What handling one quota does: at most one taking call, whether the quota is now settled for the
      request phases, and whether the request is rejected. */
  datatype Act = Act(call: Option<Call>, settled: bool, rejects: bool)

  const PASS := Act(None, false, false)

  function OnError(failOpen: bool, call: Option<Call>): Act {
    Act(call, false, !failOpen)
  }

  function TakeAct(i: nat, w: World, amount: int, failOpen: bool): Act {
    match w.allow
    case AllowError => OnError(failOpen, Some(Call(i, w.key, amount, false)))
    case Denied => Act(Some(Call(i, w.key, amount, false)), false, true)
    case Allowed => Act(Some(Call(i, w.key, amount, true)), true, false)
  }

  /** A zero cost only looks the quota up. */
  function CostAct(i: nat, w: World, cost: real, failOpen: bool): Act {
    if cost == 0.0 then
      if w.available.AvailableError? then OnError(failOpen, None) else Act(None, true, false)
    else TakeAct(i, w, cost.Floor, failOpen)
  }

  /** Blocks an exhausted quota whose cost is only known later. */
  function PrecheckAct(w: World, failOpen: bool): Act {
    match w.available
    case AvailableError => OnError(failOpen, None)
    case Available(n) => Act(None, false, n <= 0)
  }

  function HeaderAct(q: Quota, i: nat, w: World, failOpen: bool): Act {
    if q.celKey then PASS
    else if UsesCost(q) then
      var e := q.extractor.value;
      if RequestHeaderOnly(e) then CostAct(i, w, Cost(e, Request, w.values), failOpen)
      else PrecheckAct(w, failOpen)
    else TakeAct(i, w, 1, failOpen)
  }

  function BodyAct(q: Quota, i: nat, w: World, failOpen: bool, settled: set<string>): Act {
    if UsesCost(q) then
      var e := q.extractor.value;
      if RequestHeaderOnly(e) then PASS
      else if HasRequestPhaseSources(e) then CostAct(i, w, Cost(e, Request, w.values), failOpen)
      else PrecheckAct(w, failOpen)
    else if EffectiveName(q, i) in settled then PASS
    else TakeAct(i, w, 1, failOpen)
  }

  // ---------------------------------------------------------------- one phase

  /** A phase handles the quotas in order and stops at the first that rejects the request. */
  datatype Outcome = Outcome(calls: seq<Call>, settled: set<string>, keys: map<string, string>, rejected: bool)

  const START := Outcome([], {}, map[], false)

  function Record(o: Outcome, name: string, key: Option<string>, act: Act): Outcome {
    Outcome(if act.call.Some? then o.calls + [act.call.value] else o.calls,
            if act.settled then o.settled + {name} else o.settled,
            if key.Some? then o.keys[name := key.value] else o.keys,
            act.rejects)
  }

  /** A CEL key cannot be evaluated in the header phase. */
  function HeaderKey(q: Quota, w: World): Option<string> {
    if q.celKey then None else Some(w.key)
  }

  function HeaderPhase(qs: seq<Quota>, ws: seq<World>, failOpen: bool, n: nat): Outcome
    requires n <= |qs| == |ws|
  {
    if n == 0 then START
    else
      var o := HeaderPhase(qs, ws, failOpen, n - 1);
      var q, w := qs[n - 1], ws[n - 1];
      if o.rejected then o
      else Record(o, EffectiveName(q, n - 1), HeaderKey(q, w), HeaderAct(q, n - 1, w, failOpen))
  }

  function BodyPhase(qs: seq<Quota>, ws: seq<World>, failOpen: bool, settled: set<string>, n: nat): Outcome
    requires n <= |qs| == |ws|
  {
    if n == 0 then START
    else
      var o := BodyPhase(qs, ws, failOpen, settled, n - 1);
      var q, w := qs[n - 1], ws[n - 1];
      if o.rejected then o
      else Record(o, EffectiveName(q, n - 1), Some(w.key), BodyAct(q, n - 1, w, failOpen, settled))
  }

  predicate RequiresRequestBody(qs: seq<Quota>) {
    exists q :: q in qs && (q.celKey || (UsesCost(q) && HasRequestBodyPhase(q.extractor.value)))
  }

  /** The request phases together: the body phase runs when some quota needs it and nothing was rejected. */
  datatype Passage = Passage(calls: seq<Call>, keys: map<string, string>, rejected: bool)

  function RequestPhases(qs: seq<Quota>, header: seq<World>, body: seq<World>, failOpen: bool): Passage
    requires |qs| == |header| == |body|
  {
    var h := HeaderPhase(qs, header, failOpen, |qs|);
    if h.rejected || !RequiresRequestBody(qs) then Passage(h.calls, h.keys, h.rejected)
    else
      var b := BodyPhase(qs, body, failOpen, h.settled, |qs|);
      Passage(h.calls + b.calls, b.keys, b.rejected)
  }

  /** How often quota `i` was charged. */
  function Charged(calls: seq<Call>, i: nat): nat {
    if calls == [] then 0
    else Charged(calls[..|calls| - 1], i) + if calls[|calls| - 1].quota == i && calls[|calls| - 1].took then 1 else 0
  }

  function Took(act: Act): nat {
    if act.call.Some? && act.call.value.took then 1 else 0
  }

  lemma {:induction false} ChargedAppend(a: seq<Call>, b: seq<Call>, i: nat)
    ensures Charged(a + b, i) == Charged(a, i) + Charged(b, i)
    decreases |b|
  {
    if b == [] {
      assert a + b == a;
    } else {
      assert (a + b)[..|a + b| - 1] == a + b[..|b| - 1];
      ChargedAppend(a, b[..|b| - 1], i);
    }
  }

  lemma ChargedRecord(o: Outcome, name: string, key: Option<string>, act: Act, j: nat, i: nat)
    requires act.call.Some? ==> act.call.value.quota == j
    ensures Charged(Record(o, name, key, act).calls, i) == Charged(o.calls, i) + if i == j then Took(act) else 0
  {
    if act.call.Some? {
      assert (o.calls + [act.call.value])[..|o.calls|] == o.calls;
    }
  }

  lemma TakingSettles(q: Quota, i: nat, w: World, failOpen: bool)
    ensures Took(HeaderAct(q, i, w, failOpen)) > 0 ==> HeaderAct(q, i, w, failOpen).settled
    ensures HeaderAct(q, i, w, failOpen).call.Some? ==> HeaderAct(q, i, w, failOpen).call.value.quota == i
  {}

  /** In the header phase a quota is charged as its own act says, or not at all after a rejection. */
  lemma {:induction false} HeaderCharges(qs: seq<Quota>, ws: seq<World>, failOpen: bool, n: nat, i: nat)
    requires n <= |qs| == |ws| && i < |qs|
    ensures Charged(HeaderPhase(qs, ws, failOpen, n).calls, i)
         <= if i < n then Took(HeaderAct(qs[i], i, ws[i], failOpen)) else 0
    ensures !HeaderPhase(qs, ws, failOpen, n).rejected ==>
              Charged(HeaderPhase(qs, ws, failOpen, n).calls, i)
              == if i < n then Took(HeaderAct(qs[i], i, ws[i], failOpen)) else 0
    decreases n
  {
    hide HeaderAct, HeaderKey, EffectiveName;
    if n > 0 {
      TakingSettles(qs[n - 1], n - 1, ws[n - 1], failOpen);
      HeaderCharges(qs, ws, failOpen, n - 1, i);
      var o, q, w := HeaderPhase(qs, ws, failOpen, n - 1), qs[n - 1], ws[n - 1];
      ChargedRecord(o, EffectiveName(q, n - 1), HeaderKey(q, w), HeaderAct(q, n - 1, w, failOpen), n - 1, i);
    }
  }

  lemma {:induction false} ChargedIsSettled(qs: seq<Quota>, ws: seq<World>, failOpen: bool, n: nat, i: nat)
    requires n <= |qs| == |ws| && i < |qs| && Charged(HeaderPhase(qs, ws, failOpen, n).calls, i) > 0
    ensures EffectiveName(qs[i], i) in HeaderPhase(qs, ws, failOpen, n).settled
    decreases n
  {
    hide HeaderAct, HeaderKey, EffectiveName;
    assert n > 0;
    var o, q, w := HeaderPhase(qs, ws, failOpen, n - 1), qs[n - 1], ws[n - 1];
    var act := HeaderAct(q, n - 1, w, failOpen);
    TakingSettles(q, n - 1, w, failOpen);
    ChargedRecord(o, EffectiveName(q, n - 1), HeaderKey(q, w), act, n - 1, i);
    if Charged(o.calls, i) > 0 { ChargedIsSettled(qs, ws, failOpen, n - 1, i); }
    assert HeaderPhase(qs, ws, failOpen, n) ==
      if o.rejected then o else Record(o, EffectiveName(q, n - 1), HeaderKey(q, w), act);
  }

  lemma BodyCallsAreOwn(q: Quota, i: nat, w: World, failOpen: bool, settled: set<string>)
    ensures BodyAct(q, i, w, failOpen, settled).call.Some? ==> BodyAct(q, i, w, failOpen, settled).call.value.quota == i
  {}

  lemma {:induction false} BodyCharges(qs: seq<Quota>, ws: seq<World>, failOpen: bool, settled: set<string>, n: nat, i: nat)
    requires n <= |qs| == |ws| && i < |qs|
    ensures Charged(BodyPhase(qs, ws, failOpen, settled, n).calls, i)
         <= if i < n then Took(BodyAct(qs[i], i, ws[i], failOpen, settled)) else 0
    ensures !BodyPhase(qs, ws, failOpen, settled, n).rejected ==>
              Charged(BodyPhase(qs, ws, failOpen, settled, n).calls, i)
              == if i < n then Took(BodyAct(qs[i], i, ws[i], failOpen, settled)) else 0
    decreases n
  {
    hide BodyAct, EffectiveName;
    if n > 0 {
      BodyCallsAreOwn(qs[n - 1], n - 1, ws[n - 1], failOpen, settled);
      BodyCharges(qs, ws, failOpen, settled, n - 1, i);
      var o, q, w := BodyPhase(qs, ws, failOpen, settled, n - 1), qs[n - 1], ws[n - 1];
      ChargedRecord(o, EffectiveName(q, n - 1), Some(w.key), BodyAct(q, n - 1, w, failOpen, settled), n - 1, i);
    }
  }

  /** No quota is charged twice in the request phases, whatever the limiter answers, whichever errors are
      let through and however quotas are named. */
  lemma RequestChargesAtMostOnce(qs: seq<Quota>, header: seq<World>, body: seq<World>, failOpen: bool, i: nat)
    requires |qs| == |header| == |body| && i < |qs|
    ensures Charged(RequestPhases(qs, header, body, failOpen).calls, i) <= 1
  {
    var h := HeaderPhase(qs, header, failOpen, |qs|);
    HeaderCharges(qs, header, failOpen, |qs|, i);
    BodyCharges(qs, body, failOpen, h.settled, |qs|, i);
    if Charged(h.calls, i) > 0 { ChargedIsSettled(qs, header, failOpen, |qs|, i); }
    if !h.rejected {
      var b := BodyPhase(qs, body, failOpen, h.settled, |qs|);
      ChargedAppend(h.calls, b.calls, i);
    }
  }

  // ---------------------------------------------------------------- exactly once

  /** What a quota owes for the request: one token, or the cost of its request-phase sources, read where they all
      become readable. */
  function Owed(q: Quota, header: World, body: World): real {
    if !UsesCost(q) then 1.0
    else
      var e := q.extractor.value;
      if RequestHeaderOnly(e) then Cost(e, Request, header.values)
      else if HasRequestPhaseSources(e) then Cost(e, Request, body.values)
      else 0.0
  }

  /** A quota that the header phase puts off, for its CEL key, and the body phase skips, for its header-only sources. */
  predicate FallsBetween(q: Quota) {
    q.celKey && UsesCost(q) && RequestHeaderOnly(q.extractor.value)
  }

  /** How often a quota should be charged, and how often it is. */
  function Times(cost: real): nat { if cost == 0.0 then 0 else 1 }

  function TimesTaken(q: Quota, header: World, body: World): nat {
    if FallsBetween(q) then 0 else Times(Owed(q, header, body))
  }

  ghost predicate NamedSettled(qs: seq<Quota>, ws: seq<World>, failOpen: bool, o: Outcome, n: nat)
    requires n <= |qs| == |ws|
  {
    forall s :: s in o.settled ==>
      exists j :: 0 <= j < n && EffectiveName(qs[j], j) == s && HeaderAct(qs[j], j, ws[j], failOpen).settled
  }

  lemma {:induction false} SettledHasOwner(qs: seq<Quota>, ws: seq<World>, failOpen: bool, n: nat)
    requires n <= |qs| == |ws|
    ensures NamedSettled(qs, ws, failOpen, HeaderPhase(qs, ws, failOpen, n), n)
    decreases n
  {
    if n > 0 {
      SettledHasOwner(qs, ws, failOpen, n - 1);
      var o := HeaderPhase(qs, ws, failOpen, n);
      forall s | s in o.settled
        ensures exists j :: 0 <= j < n && EffectiveName(qs[j], j) == s && HeaderAct(qs[j], j, ws[j], failOpen).settled
      {
        if s !in HeaderPhase(qs, ws, failOpen, n - 1).settled {
          assert EffectiveName(qs[n - 1], n - 1) == s && HeaderAct(qs[n - 1], n - 1, ws[n - 1], failOpen).settled;
        }
      }
    }
  }

  /** Handling one quota in both phases, when its own header act decides whether the body phase skips it. */
  lemma ActsAddUp(q: Quota, i: nat, header: World, body: World, failOpen: bool, settled: set<string>)
    requires header.allow != AllowError && body.allow != AllowError
    requires !UsesCost(q) ==> (EffectiveName(q, i) in settled <==> HeaderAct(q, i, header, failOpen).settled)
    requires !HeaderAct(q, i, header, failOpen).rejects && !BodyAct(q, i, body, failOpen, settled).rejects
    ensures Took(HeaderAct(q, i, header, failOpen)) + Took(BodyAct(q, i, body, failOpen, settled))
         == TimesTaken(q, header, body)
  {}

  /** Without a body phase the header act alone is due. */
  lemma HeaderActSuffices(q: Quota, i: nat, header: World, body: World, failOpen: bool)
    requires header.allow != AllowError
    requires !(q.celKey || (UsesCost(q) && HasRequestBodyPhase(q.extractor.value)))
    requires !HeaderAct(q, i, header, failOpen).rejects
    ensures Took(HeaderAct(q, i, header, failOpen)) == TimesTaken(q, header, body)
  {}

  lemma SettledByItself(qs: seq<Quota>, ws: seq<World>, failOpen: bool, i: nat)
    requires i < |qs| == |ws| && DistinctNames(qs) && !HeaderPhase(qs, ws, failOpen, |qs|).rejected
    ensures EffectiveName(qs[i], i) in HeaderPhase(qs, ws, failOpen, |qs|).settled
       <==> HeaderAct(qs[i], i, ws[i], failOpen).settled
  {
    SettledHasOwner(qs, ws, failOpen, |qs|);
    SettledIsRecorded(qs, ws, failOpen, |qs|, i);
  }

  lemma {:induction false} SettledIsRecorded(qs: seq<Quota>, ws: seq<World>, failOpen: bool, n: nat, i: nat)
    requires i < n <= |qs| == |ws| && !HeaderPhase(qs, ws, failOpen, n).rejected
    ensures HeaderAct(qs[i], i, ws[i], failOpen).settled ==> EffectiveName(qs[i], i) in HeaderPhase(qs, ws, failOpen, n).settled
    decreases n
  {
    if i < n - 1 { SettledIsRecorded(qs, ws, failOpen, n - 1, i); }
  }

  /** With distinct names, no limiter error and no rejection, a quota is charged exactly once when it owes anything and
      never when it owes nothing, exactly when it does not fall between the phases; one that does is never charged. */
  lemma RequestChargesExactlyWhenDue(qs: seq<Quota>, header: seq<World>, body: seq<World>, failOpen: bool, i: nat)
    requires |qs| == |header| == |body| && i < |qs| && DistinctNames(qs)
    requires header[i].allow != AllowError && body[i].allow != AllowError
    requires !RequestPhases(qs, header, body, failOpen).rejected
    ensures var charged, owed := Charged(RequestPhases(qs, header, body, failOpen).calls, i), Owed(qs[i], header[i], body[i]);
            && (charged == (if owed == 0.0 then 0 else 1) <==> !(FallsBetween(qs[i]) && owed != 0.0))
            && (FallsBetween(qs[i]) ==> charged == 0)
  {
    var h := HeaderPhase(qs, header, failOpen, |qs|);
    HeaderCharges(qs, header, failOpen, |qs|, i);
    HeaderActsAreDecided(qs, header, failOpen, |qs|, i);
    if RequiresRequestBody(qs) {
      BodyCharges(qs, body, failOpen, h.settled, |qs|, i);
      BodyActsAreDecided(qs, body, failOpen, h.settled, |qs|, i);
      ChargedAppend(h.calls, BodyPhase(qs, body, failOpen, h.settled, |qs|).calls, i);
      SettledByItself(qs, header, failOpen, i);
      ActsAddUp(qs[i], i, header[i], body[i], failOpen, h.settled);
    } else {
      assert qs[i] in qs;
      HeaderActSuffices(qs[i], i, header[i], body[i], failOpen);
    }
  }

  /** A phase that rejects nothing has no rejecting act. */
  lemma {:induction false} HeaderActsAreDecided(qs: seq<Quota>, ws: seq<World>, failOpen: bool, n: nat, i: nat)
    requires i < n <= |qs| == |ws| && !HeaderPhase(qs, ws, failOpen, n).rejected
    ensures !HeaderAct(qs[i], i, ws[i], failOpen).rejects
    decreases n
  {
    if i < n - 1 { HeaderActsAreDecided(qs, ws, failOpen, n - 1, i); }
  }

  lemma {:induction false} BodyActsAreDecided(qs: seq<Quota>, ws: seq<World>, failOpen: bool, settled: set<string>,
        n: nat, i: nat)
    requires i < n <= |qs| == |ws| && !BodyPhase(qs, ws, failOpen, settled, n).rejected
    ensures !BodyAct(qs[i], i, ws[i], failOpen, settled).rejects
    decreases n
  {
    if i < n - 1 { BodyActsAreDecided(qs, ws, failOpen, settled, n - 1, i); }
  }

  /** A quota keyed by CEL that owes the five tokens a header names, and is charged nothing. */
  lemma CelKeyedHeaderCostIsNotCharged(failOpen: bool) returns (q: Quota, w: World)
    ensures FallsBetween(q) && Owed(q, w, w) == 5.0 && w.allow == Allowed
    ensures !RequestPhases([q], [w], [w], failOpen).rejected
    ensures Charged(RequestPhases([q], [w], [w], failOpen).calls, 0) == 0
  {
    var source := Source(RequestHeader, "x-tokens", 1.0);
    var e := Extractor(true, [source], 1.0);
    q := Quota("tokens", true, true, Some(e));
    w := World("user", map[source := 5.0], Allowed, Available(100));
    assert source in e.sources && RequestHeaderOnly(e);
    SingleSourceCost(e, source, Request, w.values);
    assert HeaderAct(q, 0, w, failOpen) == PASS && BodyAct(q, 0, w, failOpen, {}) == PASS;
    assert HeaderPhase([q], [w], failOpen, 0) == START;
    assert BodyPhase([q], [w], failOpen, {}, 0) == START;
  }
}
