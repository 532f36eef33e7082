/** Where a quota's cost comes from: source types, the phase predicates over them, and the summed cost. */
module CostExtraction {
  import opened Wrappers

  datatype SourceType =
    | RequestHeader | RequestMetadata | RequestBody | RequestCEL
    | ResponseHeader | ResponseMetadata | ResponseBody | ResponseCEL
    | Unknown(name: string)

  /** `selector` is the header or metadata key, the JSONPath or the CEL expression, as the type needs. */
  datatype Source = Source(kind: SourceType, selector: string, multiplier: real)

  datatype Extractor = Extractor(enabled: bool, sources: seq<Source>, default: real)

  datatype Phase = Request | Response

  predicate InPhase(t: SourceType, phase: Phase) {
    match phase
    case Request => IsRequestPhase(t)
    case Response => IsResponsePhase(t)
  }

  predicate IsRequestPhase(t: SourceType) {
    t.RequestHeader? || t.RequestMetadata? || t.RequestBody? || t.RequestCEL?
  }

  predicate IsResponsePhase(t: SourceType) {
    t.ResponseHeader? || t.ResponseMetadata? || t.ResponseBody? || t.ResponseCEL?
  }

  predicate HasRequestPhaseSources(e: Extractor) {
    e.enabled && exists s :: s in e.sources && IsRequestPhase(s.kind)
  }

  predicate HasResponsePhaseSources(e: Extractor) {
    e.enabled && exists s :: s in e.sources && IsResponsePhase(s.kind)
  }

  predicate HasRequestBodyPhase(e: Extractor) {
    e.enabled && exists s :: s in e.sources && (s.kind.RequestBody? || s.kind.RequestCEL? || s.kind.RequestMetadata?)
  }

  predicate RequiresResponseBody(e: Extractor) {
    e.enabled && exists s :: s in e.sources && (s.kind.ResponseBody? || s.kind.ResponseCEL?)
  }

  /** All request-phase sources, of which there is one, are request headers. */
  predicate RequestHeaderOnly(e: Extractor) {
    HasRequestPhaseSources(e) && forall s :: s in e.sources && IsRequestPhase(s.kind) ==> s.kind.RequestHeader?
  }

  /** All response-phase sources, of which there is one, are response headers. */
  predicate ResponseHeaderOnly(e: Extractor) {
    HasResponsePhaseSources(e) && forall s :: s in e.sources && IsResponsePhase(s.kind) ==> s.kind.ResponseHeader?
  }

  /** The scan of `HasRequestHeaderOnlyCostSources`. */
  method HasRequestHeaderOnlyCostSources(e: Extractor) returns (b: bool)
    ensures b == RequestHeaderOnly(e)
  {
    if !e.enabled || HasRequestBodyPhase(e) { return false; }
    b := false;
    for i := 0 to |e.sources|
      invariant b <==> exists j :: 0 <= j < i && e.sources[j].kind.RequestHeader?
      invariant forall j :: 0 <= j < i && IsRequestPhase(e.sources[j].kind) ==> e.sources[j].kind.RequestHeader?
    {
      if e.sources[i].kind.RequestHeader? {
        b := true;
        continue;
      }
      if IsRequestPhase(e.sources[i].kind) { return false; }
    }
  }

  /** The scan of `HasResponseHeaderOnlyCostSources`. */
  method HasResponseHeaderOnlyCostSources(e: Extractor) returns (b: bool)
    ensures b == ResponseHeaderOnly(e)
  {
    if !e.enabled || RequiresResponseBody(e) { return false; }
    b := false;
    for i := 0 to |e.sources|
      invariant b <==> exists j :: 0 <= j < i && e.sources[j].kind.ResponseHeader?
      invariant forall j :: 0 <= j < i && IsResponsePhase(e.sources[j].kind) ==> e.sources[j].kind.ResponseHeader?
    {
      if e.sources[i].kind.ResponseHeader? {
        b := true;
        continue;
      }
      if IsResponsePhase(e.sources[i].kind) { return false; }
    }
  }

  // ---------------------------------------------------------------- the cost

  function Plus(a: Option<real>, b: Option<real>): Option<real> {
    if a.None? then b else if b.None? then a else Some(a.value + b.value)
  }

  function Scaled(value: real, multiplier: real): real {
    value * multiplier
  }

  /** What one source adds to the cost. */
  function Contribution(s: Source, phase: Phase, values: map<Source, real>): Option<real> {
    if InPhase(s.kind, phase) && s in values then Some(Scaled(values[s], s.multiplier)) else None
  }

  /** What the sources of one phase yield together, given the values of those that can be read;
      absent when none can. */
  function Sum(sources: seq<Source>, phase: Phase, values: map<Source, real>): Option<real> {
    if sources == [] then None
    else
      Plus(Contribution(sources[0], phase, values), Sum(sources[1..], phase, values))
  }

  /** The cost charged: the sum of what could be read, or the default; never below zero. */
  function Cost(e: Extractor, phase: Phase, values: map<Source, real>): real {
    var sum := if e.enabled then Sum(e.sources, phase, values) else None;
    var cost := if sum.Some? then sum.value else e.default;
    if cost < 0.0 then 0.0 else cost
  }

  /** Which source is read in which phase; of an unknown type, in none. */
  lemma SourcePhases(t: SourceType)
    ensures InPhase(t, Request) <==> t in {RequestHeader, RequestMetadata, RequestBody, RequestCEL}
    ensures InPhase(t, Response) <==> t in {ResponseHeader, ResponseMetadata, ResponseBody, ResponseCEL}
  {}

  /** What the headers do not hold needs the body phase, and only body and CEL sources need the body itself. */
  lemma BodyPhases(e: Extractor)
    ensures HasRequestPhaseSources(e) <==> e.enabled && exists s :: s in e.sources && InPhase(s.kind, Request)
    ensures HasResponsePhaseSources(e) <==> e.enabled && exists s :: s in e.sources && InPhase(s.kind, Response)
    ensures HasRequestBodyPhase(e) <==> HasRequestPhaseSources(e) && !RequestHeaderOnly(e)
    ensures RequiresResponseBody(e) ==> HasResponsePhaseSources(e) && !ResponseHeaderOnly(e)
    ensures HasResponsePhaseSources(e) && !ResponseHeaderOnly(e) && !RequiresResponseBody(e) ==>
              exists s :: s in e.sources && s.kind.ResponseMetadata?
  {}

  /** The cost of one source alone: its value times its multiplier, or nothing below zero. */
  lemma SingleSourceCost(e: Extractor, source: Source, phase: Phase, values: map<Source, real>)
    requires e.enabled && e.sources == [source] && InPhase(source.kind, phase) && source in values
    ensures Cost(e, phase, values) ==
              if values[source] * source.multiplier < 0.0 then 0.0 else values[source] * source.multiplier
  {
    assert e.sources[1..] == [] && Sum(e.sources[1..], phase, values) == None;
    assert Contribution(source, phase, values) == Some(values[source] * source.multiplier);
  }

  /** What several sources yield adds up, over any split of the list. */
  lemma {:induction false} SumAppends(a: seq<Source>, b: seq<Source>, phase: Phase, values: map<Source, real>)
    ensures Sum(a + b, phase, values) == Plus(Sum(a, phase, values), Sum(b, phase, values))
  {
    hide Contribution;
    if a == [] {
      assert a + b == b;
    } else {
      SumAppends(a[1..], b, phase, values);
      assert (a + b)[1..] == a[1..] + b;
    }
  }

  /** When nothing can be read the default is charged, if it is not negative. */
  lemma {:induction false} NothingReadCostsDefault(e: Extractor, phase: Phase, values: map<Source, real>)
    requires !e.enabled || forall s :: s in e.sources ==> !InPhase(s.kind, phase) || s !in values
    ensures Cost(e, phase, values) == if e.default < 0.0 then 0.0 else e.default
  {
    if e.enabled { NothingRead(e.sources, phase, values); }
  }

  lemma {:induction false} NothingRead(sources: seq<Source>, phase: Phase, values: map<Source, real>)
    requires forall s :: s in sources ==> !InPhase(s.kind, phase) || s !in values
    ensures Sum(sources, phase, values) == None
  {
    if sources != [] { NothingRead(sources[1..], phase, values); }
  }

  /** `ExtractRequestCost` and `ExtractResponseCost`, followed by the clamp every caller applies. */
  method ExtractCost(e: Extractor, phase: Phase, values: map<Source, real>) returns (cost: real, extracted: bool)
    ensures cost == Cost(e, phase, values)
    ensures extracted <==> e.enabled && exists s :: s in e.sources && InPhase(s.kind, phase) && s in values
  {
    var total, found := 0.0, false;
    if e.enabled {
      for i := 0 to |e.sources|
        invariant Plus(if found then Some(total) else None, Sum(e.sources[i..], phase, values)) == Sum(e.sources, phase, values)
        invariant !found ==> total == 0.0
        invariant found <==> exists j :: 0 <= j < i && InPhase(e.sources[j].kind, phase) && e.sources[j] in values
      {
        var source := e.sources[i];
        assert e.sources[i..][1..] == e.sources[i + 1..];
        if !InPhase(source.kind, phase) { continue; }
        if source in values {
          found := true;
          total := total + Scaled(values[source], source.multiplier);
        }
      }
    }
    cost, extracted := if found then total else e.default, found;
    if cost < 0.0 { cost := 0.0; }
  }

  /** A cost depends only on the values of the sources of its phase. */
  lemma {:induction false} SumReadsOwnSources(sources: seq<Source>, phase: Phase, v: map<Source, real>, w: map<Source, real>)
    requires forall s :: s in sources && InPhase(s.kind, phase) ==>
               (s in v <==> s in w) && (s in v ==> v[s] == w[s])
    ensures Sum(sources, phase, v) == Sum(sources, phase, w)
  {
    if sources != [] {
      assert sources[0] in sources;
      assert forall s :: s in sources[1..] ==> s in sources;
      SumReadsOwnSources(sources[1..], phase, v, w);
    }
  }
}
