# Gateway policy models

A Dafny model of the stateful, protocol-like and arithmetic parts of an API gateway's policy library, with proofs of
what they are for. Each component comes as a specification module (values and functions, with the laws proved about
them) and, where the policy changes state or loops, a second module with the classes and methods that are proved to do
exactly what the specification says.

- **Limiter cache** (`LimiterCache*.dfy`): the process-wide map of reference-counted limiters and one reconcile step
  per policy build, including builds that fail half way.
- **Charging** (`CostExtraction`, `Charging*`, `ResponseCharging`, `RateLimit`): when, and how often, a request is
  charged across the four phases.
- **Schedulers** (`Scheduler*`): weighted and plain round robin with suspensions, and the share each target gets.
- **Codecs**: Amazon event-stream framing (`EventStream*`), server-sent events scanned for a cost (`SseScan`) or parsed
  and rebuilt (`McpEventStream`), JSON/XML mediation under a shared node budget (`JsonXml*`).
- **Verdict cache** (`VerdictCache`): cached token verdicts against full verification.
- **Scope challenge** (`McpAuthz*`), **length guardrail** (`ContentLength*`), **list policies** (`McpLists*`).
- **Pricing** (`Pricing*`, `Calculators*`) and **event merging** (`MergeEvents*`) of the LLM cost policy.

Time and token counts are integers, money and costs are reals. Texts are sequences of characters; where
the program counts bytes a character stands for one byte. SHA-256 is taken as injective; JSON decoding, JSONPath, CEL, number parsing, Unicode letters and limiter
answers are parameters, so that every statement holds whatever they answer. Go map iteration is an arbitrary choice.

Where the code does not meet a natural reading of its promise, an input shows it and the exact condition under which
it does is proved:

- reference counts leak when a build fails half way or repeats a new key (`LimiterCacheSpec.FailedBuildStrandsLimiter`,
  `RepeatedKeyIsCountedTwice`; exactly then, `ExactIffCleanRun`), and a leaked limiter is never closed;
- a streamed response is charged to an empty key where a buffered one is not
  (`ResponseChargingSpec.KeylessQuotaIsChargedOnTheStream`; `StreamedIsBuffered`);
- a CEL-keyed quota whose cost is read from headers alone is never charged
  (`ChargingSpec.CelKeyedHeaderCostIsNotCharged`; `RequestChargesExactlyWhenDue`);
- the comment at policies/jwt-auth/jwtauth.go:2084-2087, that a live entry is always within the token's validity, fails
  for a negative leeway (`VerdictCacheSpec.NegativeLeewayServesStale`; `TrustworthyIffLeewayNotNegative`);
- where a streamed response is cut decides its length test: an empty last chunk escapes it, a blank last line is judged
  as another body, and content after a chunk's first five lines is not counted, where the comment at
  policies/content-length-guardrail/contentlengthguardrail.go:482 counts any line (`ContentLengthSpec.EmptyLastChunkIsUntested`,
  `BlankLastChunkIsJudgedApart`, `LateContentIsUncounted`; `TerminatedIff`, `JudgedAsABodyIff`);
- the 272k price tier forgets cache-write rates set at 200k, so a longer prompt can cost less
  (`PricingSpec.OneMoreTokenCheaperIff`; in general `PricingGrowth.CostNeverFallsIff`);
- a shown list item is not callable when a later entry reuses its key (`McpListsSpec.ReusedKeyHidesATool`;
  `ShownIsCallableIff`);
- the order of JSON entries shows after a round trip when two keys sanitize alike (`JsonXmlKeys.AlikeKeysShowOrder`;
  `OrderIsForgotten`).

## Model

| member | source | states |
|---|---|---|
| `LimiterCacheSpec.RunSafety` | policies/advanced-ratelimit/ratelimit.go:340-431 | after any run of builds, failing ones and ones with repeated keys included: a limiter has at least as many references as buckets tracking its key, every tracked key has an open limiter, no limiter is closed twice, and one is closed exactly when it left the cache |
| `LimiterCacheSpec.ExactIffCleanRun` | policies/advanced-ratelimit/ratelimit.go:340-431 | reference counts equal the number of tracking buckets after a run exactly when every build of it was clean (succeeded naming each new key once, or failed before taking a new reference); then every cached limiter is still tracked |
| `LimiterCacheSpec.BuildKeepsInv` | policies/advanced-ratelimit/ratelimit.go:345-431 | every single build, successful or not, keeps the cache invariant |
| `LimiterCacheSpec.BuildLedger` | policies/advanced-ratelimit/ratelimit.go:351-391 | a build adds to a key's surplus of references exactly what it leaks: repeats of a new key, and all new references when it fails half way |
| `LimiterCacheSpec.LeakFreeIffClean` | policies/advanced-ratelimit/ratelimit.go:351-391 | a build leaks nothing for any key exactly when it is clean |
| `LimiterCacheSpec.RunLedger` | policies/advanced-ratelimit/ratelimit.go:340-431 | over a run the surplus of a key grows by the sum of what its builds leaked, and the invariant holds at the end |
| `LimiterCacheSpec.RunLeakFreeIffClean` | policies/advanced-ratelimit/ratelimit.go:340-431 | a run leaks nothing exactly when each build is clean in the state it meets |
| `LimiterCacheSpec.TrackedIsCached` | policies/advanced-ratelimit/ratelimit.go:344-345 | a key a bucket tracks always has a cached limiter |
| `LimiterCacheSpec.ReleaseAnyOrder` | policies/advanced-ratelimit/ratelimit.go:405-428 | dropping the stale keys in any order gives the same cache and closes the same limiters |
| `LimiterCacheSpec.PinnedSurvivesBuild` | policies/advanced-ratelimit/ratelimit.go:405-428 | a limiter another bucket tracks, or one with a leaked reference, survives a build unchanged |
| `LimiterCacheSpec.HeldLimiterStaysOpen` | policies/advanced-ratelimit/ratelimit.go:331-345 | no run of builds of other policies closes or replaces the limiter a deployed policy holds |
| `LimiterCacheSpec.LeakedLimiterNeverCloses` | policies/advanced-ratelimit/ratelimit.go:385-391 | once a reference has leaked, the limiter stays cached and its Close is never called, over any run that follows |
| `LimiterCacheSpec.FailedBuildStrandsLimiter` | policies/advanced-ratelimit/ratelimit.go:384-391 | a build that creates one limiter and fails at the next leaves it with a reference nobody tracks, never to be closed |
| `LimiterCacheSpec.RepeatedKeyIsCountedTwice` | policies/advanced-ratelimit/ratelimit.go:351-357 | a build that names a new key twice takes two references for one bucket |
| `LimiterCacheSpec.RedeployIsIdempotent` | policies/advanced-ratelimit/ratelimit.go:340-431 | building an unchanged policy again changes nothing |
| `LimiterCache.Cache.Reconcile` | policies/advanced-ratelimit/ratelimit.go:340-431 | the reconcile block on the mutable maps takes exactly the specified step; on success each quota holds the open limiter cached under its key |
| `LimiterCache.Cache.AcquireQuotas` | policies/advanced-ratelimit/ratelimit.go:347-403 | the quota loop reuses or creates limiters in order and stops at the first creation that fails |
| `LimiterCache.Cache.Acquire` | policies/advanced-ratelimit/ratelimit.go:348-402 | one turn of that loop: reuse with a reference only when newly tracked, else create with one reference |
| `LimiterCache.Cache.ReleaseStale` | policies/advanced-ratelimit/ratelimit.go:405-428 | the stale-key loop, in map order, drops one reference per stale key and closes what is left without any |
| `LimiterCache.Cache.Release` | policies/advanced-ratelimit/ratelimit.go:407-427 | one stale key: decrement, and at zero close once and delete |
| `SchedulerFairness.FairShare` | policies/model-weighted-round-robin/weightedroundrobin.go:297-331 | in m rotations of consecutive selections a target that stays available is returned at least m times its slots, whatever is suspended around it |
| `SchedulerFairness.ExactShare` | policies/model-weighted-round-robin/weightedroundrobin.go:297-331 | with nothing suspended it is returned exactly that often |
| `SchedulerFairness.WeightIsHonoured` | policies/model-weighted-round-robin/weightedroundrobin.go:297-363 | in total-weight many selections an available target of weight w is returned at least w times, exactly w times if nothing is suspended |
| `SchedulerFairness.AnsweredPerSlotPassed` | policies/model-weighted-round-robin/weightedroundrobin.go:297-331 | over any run of selections and failing responses an available target is answered once per slot of it the index passes |
| `SchedulerFairness.EveryPickAnswered` | policies/model-weighted-round-robin/weightedroundrobin.go:297-331 | while some target is available no selection comes back empty |
| `SchedulerSpec.SelectSound` | policies/model-weighted-round-robin/weightedroundrobin.go:297-333 | a suspended target is never returned, and none is returned only if all are suspended; selecting changes nobody's suspension |
| `SchedulerFairness.RotationHoldsAll` | policies/model-weighted-round-robin/weightedroundrobin.go:313-315 | any stretch of list length holds each target as often as the list does |
| `SchedulerFairness.WeightedCounts` | policies/model-weighted-round-robin/weightedroundrobin.go:336-363 | the weighted list holds each distinct target exactly its positive weight many times and no other |
| `SchedulerFairness.UnitWeightsArePlainRoundRobin` | policies/model-round-robin/roundrobin.go:266-297 | with unit weights the weighted policy makes exactly the choices of plain round robin, over any run |
| `SchedulerFairness.WrappingIsInvisible` | policies/model-round-robin/roundrobin.go:274-290 | keeping the index modulo the list length changes no answer of any run |
| `SchedulerSuspension.PicksAvoidTheBarred` | policies/model-weighted-round-robin/weightedroundrobin.go:309-332 | told from the history of a run alone: a selection answers a target whose pair had no 5xx or 429 response, to a known model, within the suspension time, and nothing only if every target is barred so |
| `SchedulerSuspension.SuspensionIsHistory` | policies/model-weighted-round-robin/weightedroundrobin.go:431-456 | a target is suspended exactly when its provider and model failed less than the suspension time ago |
| `SchedulerSuspension.FailureBarsForTheDuration` | policies/model-weighted-round-robin/weightedroundrobin.go:431-456 | after a failing response no selection within the suspension time answers its pair, and from then on that failure bars it no more |
| `SchedulerSuspension.OtherResponsesChangeNothing` | policies/model-round-robin/roundrobin.go:364-389 | taking any other response out of a run leaves all answers as they were |
| `SchedulerSuspension.AnswerIsForgiven` | policies/model-weighted-round-robin/weightedroundrobin.go:313-328 | a selection forgets the suspension of the pair it answers, for any later clock, and no other |
| `SchedulerSuspension.KeyTellsPairsApart` | policies/model-weighted-round-robin/weightedroundrobin.go:74-94 | the suspension key tells provider and model pairs apart |
| `WeightedRoundRobin.BuildWeightedSequence` | policies/model-weighted-round-robin/weightedroundrobin.go:336-363 | the nested loops build the list that repeats each model by its weight, leaving out non-positive weights |
| `WeightedRoundRobin.Policy.SelectNextAvailableWeightedModel` | policies/model-weighted-round-robin/weightedroundrobin.go:297-331 | the selection loop on the policy's fields returns and leaves behind what the selection function says |
| `WeightedRoundRobin.Policy.OnResponseHeaders` | policies/model-weighted-round-robin/weightedroundrobin.go:431-456 | a 5xx or 429 answer suspends the serving pair when a duration and a model are known, anything else leaves the state alone |
| `RoundRobin.Policy.SelectNextAvailableModel` | policies/model-round-robin/roundrobin.go:266-297 | the same for plain round robin, its index kept below the list length |
| `RoundRobin.Policy.OnResponseHeaders` | policies/model-round-robin/roundrobin.go:364-389 | the suspension step of plain round robin |
| `ChargingSpec.RequestChargesAtMostOnce` | policies/advanced-ratelimit/ratelimit.go:1278-1428 | no quota is charged twice in the request phases, whatever the limiter answers, whichever names clash and whichever errors are let pass |
| `ChargingSpec.RequestChargesExactlyWhenDue` | policies/advanced-ratelimit/ratelimit.go:1278-1428 | with distinct names, no limiter error and no rejection a quota is charged exactly once when it owes anything and never otherwise, exactly when it is not a CEL-keyed quota that owes a cost read from headers alone; such a quota is never charged |
| `ChargingSpec.CelKeyedHeaderCostIsNotCharged` | policies/advanced-ratelimit/ratelimit.go:1285-1296 | such a quota, owing five tokens, passes both request phases without a charge |
| `ChargingAmounts.RequestCallsAreOwed` | policies/advanced-ratelimit/ratelimit.go:1285-1428 | every limiter call of the request phases is for its quota's cost in whole tokens, one without cost extraction, under the key read in its phase |
| `ChargingAmounts.RequestTakesWhatIsOwed` | policies/advanced-ratelimit/ratelimit.go:1285-1428 | with distinct names, no limiter error and no rejection a quota has taken in the request phases what it owes, unless it falls between them |
| `ChargingAmounts.RequestIsTurnedAwayIff` | policies/advanced-ratelimit/ratelimit.go:1298-1428 | a request is turned away exactly when a quota of either phase is: exhausted when its cost is known only later, denied its cost, or met by an error that is not let pass |
| `ChargingAmounts.SettledInHeaderIff` | policies/advanced-ratelimit/ratelimit.go:1274-1432 | settled in the header phase are the quotas reached that took their tokens there, or owe none and have a limiter that answers; one met by an error that is let pass is left to the body phase |
| `ChargingAmounts.LastKeyIsSaved` | policies/advanced-ratelimit/ratelimit.go:1430-1432 | the key saved for the response is the one read last |
| `ChargingAmounts.EffectiveNames` | policies/advanced-ratelimit/ratelimit.go:562-567 | a quota goes by its name, or by its place without one |
| `ChargingSpec.ChargedIsSettled` | policies/advanced-ratelimit/ratelimit.go:1400-1428 | a quota charged in the header phase is recorded as handled, which is what the body phase looks at |
| `RateLimit.Policy.OnRequestHeaders` | policies/advanced-ratelimit/ratelimit.go:1269-1433 | the header phase makes exactly the specified limiter calls, publishes keys and handled names only when nothing is rejected, and stops at the first rejection |
| `RateLimit.Policy.OnRequestBody` | policies/advanced-ratelimit/ratelimit.go:1531-1759 | the body phase makes exactly the specified calls, and none when no quota needs it |
| `RateLimit.Policy.OnResponseHeaders` | policies/advanced-ratelimit/ratelimit.go:1764-1985 | header-only response costs are consumed in the response header phase, under the key saved earlier |
| `RateLimit.Policy.OnResponseBody` | policies/advanced-ratelimit/ratelimit.go:1999-2163 | the buffered phase consumes the other response costs; its gate skips nothing |
| `RateLimit.Policy.OnResponseBodyChunk` | policies/advanced-ratelimit/ratelimit.go:2314-2350 | each chunk is gathered per quota that needs body bytes, and only the end of stream consumes |
| `RateLimit.Policy.FinalizeAndConsumeStreamingCosts` | policies/advanced-ratelimit/ratelimit.go:2373-2484 | the end-of-stream calls are those the gathered bytes ask for |
| `ResponseChargingSpec.ResponseChargesAtMostOnce` | policies/advanced-ratelimit/ratelimit.go:1811-1957 | in the response phases no quota is charged twice, buffered or streamed, whichever names clash |
| `ResponseChargingSpec.ResponseChargesExactlyWhenDue` | policies/advanced-ratelimit/ratelimit.go:2036-2143 | a quota with a key and a limiter that answers is charged exactly once in the response phases if it owes anything, else never; a streamed response also needs distinct names |
| `ChargingAmounts.ResponseCallsAreOwed` | policies/advanced-ratelimit/ratelimit.go:2036-2143 | every limiter call of the response phases carries the saved key and the quota's response cost in whole tokens |
| `ChargingAmounts.ResponseTakesWhatIsOwed` | policies/advanced-ratelimit/ratelimit.go:2036-2143 | a quota with a key and a limiter that answers has taken for the response what it owes for it |
| `ChargingAmounts.BodySourceCost` | policies/advanced-ratelimit/cost_extractor.go:413-440 | a JSONPath source reads nothing in an empty body, where a CEL source is still evaluated; what cannot be read costs the default |
| `ResponseChargingSpec.StreamedIsBuffered` | policies/advanced-ratelimit/ratelimit.go:2382-2484 | streamed and buffered responses lead to the same calls exactly when no quota with an empty key owes anything: the stream path does not look at the key, the buffered one does |
| `ResponseChargingSpec.KeylessQuotaIsChargedOnTheStream` | policies/advanced-ratelimit/ratelimit.go:2382-2484 | a quota whose key was never saved, charged to the empty key by every streamed response and not by the buffered one |
| `ResponseChargingSpec.CuttingIsInvisible` | policies/advanced-ratelimit/ratelimit.go:2314-2350 | two cuttings of one body lead to the same calls |
| `ResponseChargingSpec.FeedSeesWholeBody` | policies/advanced-ratelimit/ratelimit.go:2290-2350 | with distinct names each quota that needs the body has gathered all of it and the others nothing |
| `CostExtraction.ExtractCost` | policies/advanced-ratelimit/cost_extractor.go:78-185 | the summed, multiplied and clamped cost of one phase, or the default when nothing could be read, with an exact extracted flag |
| `CostExtraction.SumReadsOwnSources` | policies/advanced-ratelimit/cost_extractor.go:253-270 | a phase's cost depends on the values of that phase's sources only |
| `CostExtraction.SourcePhases` | policies/advanced-ratelimit/cost_extractor.go:253-270 | which source type is read in which phase |
| `CostExtraction.BodyPhases` | policies/advanced-ratelimit/cost_extractor.go:545-650 | the phase predicates agree: a request cost needs the body phase exactly when it is not of headers alone |
| `CostExtraction.SingleSourceCost` | policies/advanced-ratelimit/cost_extractor.go:95-118 | one source costs its value times its multiplier, never less than nothing |
| `CostExtraction.SumAppends` | policies/advanced-ratelimit/cost_extractor.go:86-118 | the costs of several sources add up |
| `CostExtraction.NothingReadCostsDefault` | policies/advanced-ratelimit/cost_extractor.go:119-134 | when nothing can be read the default is charged |
| `CostExtraction.HasRequestHeaderOnlyCostSources` | policies/advanced-ratelimit/cost_extractor.go:607-624 | true exactly when there is a request-phase source and all of them are request headers |
| `CostExtraction.HasResponseHeaderOnlyCostSources` | policies/advanced-ratelimit/cost_extractor.go:582-599 | true exactly when there is a response-phase source and all of them are response headers |
| `EventStreamSpec.RoundTrip` | policies/llm-cost/bedrock_eventstream.go:112-141 | decoding the encoding of any list of well-formed frames gives event types and payloads back, the last `:event-type` string winning |
| `EventStreamSpec.DecodesExactlyEncodings` | policies/llm-cost/bedrock_eventstream.go:112-141 | the decoder accepts exactly the encodings of non-empty lists of well-formed frames and returns what they mean |
| `EventStreamSpec.AcceptedIsEncoding` | policies/llm-cost/bedrock_eventstream.go:112-141 | for every accepted input there is a list of well-formed frames it is the encoding of, so frame lengths add up to the input |
| `EventStreamSpec.FrameRoundTrip` | policies/llm-cost/bedrock_eventstream.go:118-138 | one encoded frame in front of anything is read back with its own length |
| `EventStreamSpec.HeaderRoundTrip` | policies/llm-cost/bedrock_eventstream.go:149-187 | each of the ten header value types is read back with the length it was written with |
| `EventStreamSpec.LastEventTypeWins` | policies/llm-cost/bedrock_eventstream.go:146-191 | the decoded event type is the value of the last string header whose name reads ":event-type", character by character, and empty without one |
| `EventStreamSpec.HeaderWidths` | policies/llm-cost/bedrock_eventstream.go:161-181 | how many bytes each of the ten value types takes |
| `EventStreamSpec.KnownFrame` | policies/llm-cost/bedrock_eventstream.go:112-141 | a frame written out byte by byte, with big-endian lengths, and what it decodes to |
| `EventStreamSpec.FrameLimit` | policies/llm-cost/bedrock_eventstream.go:122-125 | a frame of up to 16 MiB in all is accepted, and no longer one |
| `EventStreamSpec.FramesAppend` | policies/llm-cost/bedrock_eventstream.go:112-141 | after an accepted input, decoding distributes over concatenation, and a rejected rest spoils it |
| `EventStreamSpec.TruncationExact` | policies/llm-cost/bedrock_eventstream.go:118-129 | a cut of accepted input is accepted exactly when it falls between frames |
| `EventStreamSpec.CutFrameRejected` | policies/llm-cost/bedrock_eventstream.go:118-129 | a proper part of a frame is rejected |
| `EventStream.BedrockEventStreamFrames` | policies/llm-cost/bedrock_eventstream.go:112-141 | the offset loop decodes exactly what the specification does, in bounds and with a falling measure |
| `EventStream.BedrockEventStreamEventType` | policies/llm-cost/bedrock_eventstream.go:146-191 | the header loop finds the last event-type string, or rejects a malformed block |
| `EventStream.ValueLayout` | policies/llm-cost/bedrock_eventstream.go:163-179 | the switch over value types gives prefix and value length of each type |
| `SseScanSpec.ChunkedIsBuffered` | policies/advanced-ratelimit/cost_extractor.go:448-542 | folding chunks with the remainder carried forward gives the buffered cost exactly when the unterminated last line adds nothing new; always, and with nothing left over, for a body that ends in a newline |
| `SseScanSpec.CuttingIsInvisible` | policies/advanced-ratelimit/cost_extractor.go:499-542 | every cutting of a body gives the reading of its complete lines and leaves the same remainder |
| `SseScanSpec.ScanAppend` | policies/advanced-ratelimit/cost_extractor.go:499-542 | scanning in two goes is scanning at once |
| `SseScanSpec.LeftOverIsLastLine` | policies/advanced-ratelimit/cost_extractor.go:499-542 | the remainder is the suffix after the last newline |
| `SseScanSpec.WholeIsScanAndLastLine` | policies/advanced-ratelimit/cost_extractor.go:448-484 | the buffered reading is that of the complete lines, overridden by the last unterminated line |
| `SseScanSpec.LastCostWins` | policies/advanced-ratelimit/cost_extractor.go:448-484 | the reading is the cost of the last line that has one |
| `SseScanSpec.PayloadInWords` | policies/advanced-ratelimit/cost_extractor.go:455-470 | what "data: " and "event:" lines carry, carriage returns aside, and that neither an empty text nor the end marker counts |
| `SseScan.ParseSSEChunk` | policies/advanced-ratelimit/cost_extractor.go:499-542 | the scanning loop returns the latest cost of the complete lines, the found flag and the remainder |
| `SseScan.ExtractFromSSEBodyBytes` | policies/advanced-ratelimit/cost_extractor.go:448-484 | the buffered loop returns the latest cost over all lines and the found flag |
| `McpEventStreamSpec.RoundTripExact` | policies/mcp-rewrite/mcp-rewrite.go:346-402 | building and parsing gives a list of events back exactly when none is empty, every field reads as a field, and no field or data line ends in a carriage return |
| `McpEventStreamSpec.BuiltReadsBack` | policies/mcp-acl-list/mcp-acl-list.go:263-319 | a built stream of such events, empty ones included, parses to its non-empty events |
| `McpEventStreamSpec.ReparseExact` | policies/mcp-rewrite/mcp-rewrite.go:346-402 | parse, build, parse equals parse without empty events exactly when parsing left no trailing carriage return |
| `McpEventStreamSpec.ReparseStable` | policies/mcp-rewrite/mcp-rewrite.go:346-402 | in particular for input without a doubled trailing carriage return |
| `McpEventStreamSpec.RebuiltWeight` | policies/mcp-rewrite/mcp-rewrite.go:346-402 | what a build-and-parse loses in characters is exactly the trailing carriage returns |
| `McpEventStreamSpec.ParseKeepsWeight` | policies/mcp-rewrite/mcp-rewrite.go:346-382 | parsing neither loses nor invents characters beyond what each line says |
| `McpEventStreamSpec.OneDataLine` | policies/mcp-rewrite/mcp-rewrite.go:363-375 | a data line reads as what follows "data:", less one space if there is one, with either line ending |
| `McpEventStreamSpec.OneFieldLine` | policies/mcp-rewrite/mcp-rewrite.go:363-375 | any other line reads as a field |
| `McpEventStreamSpec.OneEventText` | policies/mcp-rewrite/mcp-rewrite.go:385-402 | an event of a field and a line of data as it is written |
| `McpEventStream.ParseEventStream` | policies/mcp-rewrite/mcp-rewrite.go:346-382 | the parsing loop with its flush closure produces the specified events |
| `McpEventStream.BuildEventStream` | policies/mcp-rewrite/mcp-rewrite.go:385-402 | the building loop writes the specified text |
| `JsonXmlLaws.RoundTrip` | policies/json-xml-mediator/jsonxmlmediation.go:234-439 | XML-to-JSON of JSON-to-XML is `root` around the normal form (empty arrays vanish, singletons collapse, nested arrays gain a level, scalars pass through the value parser), for every visiting order and all JSON whose keys are valid tag names |
| `JsonXmlLaws.BackIsNormal` | policies/json-xml-mediator/jsonxmlmediation.go:234-439 | the same under any valid tag |
| `JsonXmlKeys.NodeParts` | policies/json-xml-mediator/jsonxmlmediation.go:386-439 | a node with attributes or children becomes an object with exactly these keys: each attribute under `@`, each child name, and `#text` if it has text; and what each of them holds |
| `JsonXmlKeys.ChildrenOfOneName` | policies/json-xml-mediator/jsonxmlmediation.go:401-425 | a child met once stays itself, children of one name become an array in their order |
| `JsonXmlKeys.TextAlone` | policies/json-xml-mediator/jsonxmlmediation.go:386-393 | a node of text alone becomes its value, an empty one null |
| `JsonXmlKeys.RoundTripAnyKeys` | policies/json-xml-mediator/jsonxmlmediation.go:234-439 | XML-to-JSON of JSON-to-XML for all JSON, whatever its keys: a key that is no valid tag name comes back as `@originalKey` beside the value under the sanitized name |
| `JsonXmlKeys.InvalidKeyIsKept` | policies/json-xml-mediator/jsonxmlmediation.go:247-251 | a scalar under such a key comes back as an object of that key and its text |
| `JsonXmlKeys.OrderIsForgotten` | policies/json-xml-mediator/jsonxmlmediation.go:262-282 | the visiting order does not matter when no two keys of an object sanitize alike |
| `JsonXmlKeys.AlikeKeysShowOrder` | policies/json-xml-mediator/jsonxmlmediation.go:262-282 | two keys that sanitize alike come back in the order in which they were visited |
| `JsonXmlLaws.ComesBackUnchanged` | policies/json-xml-mediator/jsonxmlmediation.go:234-484 | a document comes back unchanged exactly when it has no array outside an object, no empty object, no array of fewer than two items and no scalar that reads as something else |
| `JsonXmlLaws.SanitizeKeepsExactlyValid` | policies/json-xml-mediator/jsonxmlmediation.go:298-330 | exactly the valid tag names are kept as they are |
| `JsonXmlLaws.SanitizeIsValid` | policies/json-xml-mediator/jsonxmlmediation.go:298-340 | whatever the name, the sanitized one is valid |
| `JsonXmlLaws.SanitizeByCharacter` | policies/json-xml-mediator/jsonxmlmediation.go:298-330 | what sanitizing does to each character, and to the empty name |
| `Text.TrimTakesSpaces` | policies/json-xml-mediator/jsonxmlmediation.go:388-388 | trimming takes white space off both ends and nothing else |
| `JsonXmlSizes.BuiltSize` | policies/json-xml-mediator/jsonxmlmediation.go:234-296 | the tree a value becomes has the node count and height its JSON says |
| `JsonXmlSizes.OrderDoesNotMatter` | policies/json-xml-mediator/jsonxmlmediation.go:262-282 | two decodings of one document have the same size, so the visiting order does not decide acceptance |
| `JsonXmlSizes.AcceptedBackAgain` | policies/json-xml-mediator/jsonxmlmediation.go:215-229 | any tree JSON-to-XML makes within the limits is accepted by XML-to-JSON |
| `JsonXmlSizes.LimitsInFigures` | policies/json-xml-mediator/jsonxmlmediation.go:44-54 | a list of up to 99999 items and a nest of up to 256 levels are converted, and no larger ones |
| `JsonXml.BuildXMLStruct` | policies/json-xml-mediator/jsonxmlmediation.go:234-296 | succeeds exactly when the value fits the depth and the remaining budget, which then falls by exactly its node count, and builds the specified element |
| `JsonXml.ConvertJSONToXML` | policies/json-xml-mediator/jsonxmlmediation.go:215-229 | from a fresh budget: exactly the values of at most 100000 nodes, none deeper than 256, are converted |
| `JsonXml.ProcessXMLNode` | policies/json-xml-mediator/jsonxmlmediation.go:378-439 | the same in the other direction |
| `JsonXml.ProcessGroups` | policies/json-xml-mediator/jsonxmlmediation.go:401-425 | child groups, visited in any order, give one entry each: a single child as itself, several as an array |
| `JsonXml.NodeToMap` | policies/json-xml-mediator/jsonxmlmediation.go:364-372 | from a fresh budget: exactly the trees within the limits are converted, wrapped under the root name |
| `JsonXml.ConversionBudget.Consume` | policies/json-xml-mediator/jsonxmlmediation.go:73-85 | a node is debited while any budget is left |
| `VerdictCacheSpec.TrustworthyIffLeewayNotNegative` | policies/jwt-auth/jwtauth.go:218-280 | over every run of lookups, stores, evictions and rebuilds of the shared cache, each verdict served for a key is what full verification would say at that instant, exactly when the leeway of its own configuration is not negative |
| `VerdictCacheSpec.InvServesTruth` | policies/jwt-auth/jwtauth.go:251-270 | from any cache whose entry for a key stays right, every hit of that key in a run serves the truth |
| `VerdictCacheSpec.StoredStaysRight` | policies/jwt-auth/jwtauth.go:2041-2107 | what is stored stays right until it expires (exp and nbf, sections 4.1.4 and 4.1.5 of RFC 7519), for a leeway that is not negative |
| `VerdictCacheSpec.StepKeepsInv` | policies/jwt-auth/jwtauth.go:218-280 | every step of the cache keeps that |
| `VerdictCacheSpec.NegativeLeewayServesStale` | policies/jwt-auth/jwtauth.go:2084-2095 | for every key with a negative leeway there is a token and a run that serves it after it expired |
| `VerdictCacheSpec.VerifiedWindow` | policies/jwt-auth/jwtauth.go:363-401 | an accepted token is verified exactly from `nbf - leeway` on and before `exp + leeway` |
| `VerdictCacheSpec.NeverVerified` | policies/jwt-auth/jwtauth.go:2037-2062 | no other signature and no malformed token is ever verified |
| `VerdictCacheSpec.KeptUntil` | policies/jwt-auth/jwtauth.go:2041-2107 | how long a verdict is served: a success until its time to live or `exp - leeway`, a malformed or expired token for the negative time to live, any other failure never |
| `VerdictCache.JwtAuthPolicy.EnsureTokenCache` | policies/jwt-auth/jwtauth.go:218-237 | a changed size flushes the cache, an unchanged one keeps it |
| `VerdictCache.JwtAuthPolicy.GetCachedVerdict` | policies/jwt-auth/jwtauth.go:251-270 | an unexpired entry is returned and kept, an expired one is removed and missed |
| `VerdictCache.JwtAuthPolicy.PutVerdict` | policies/jwt-auth/jwtauth.go:274-280 | from then on the key is answered by this verdict until it expires, and any other key as before or not at all |
| `VerdictCache.JwtAuthPolicy.Authenticate` | policies/jwt-auth/jwtauth.go:2020-2107 | a hit is answered from the cache and leaves it alone; a miss is answered by full verification, and its verdict is stored exactly when it is safe to keep |
| `McpAuthzSpec.TwoChallengesSuffice` | policies/mcp-authz/mcp-authz.go:633-727 | a client whose claims all hold is let in after at most two challenges, for any rules; one whose claims do not all hold is never let in, however often it returns (section 3.1 of RFC 6750) |
| `McpAuthzSpec.OneChallengeSufficesIff` | policies/mcp-authz/mcp-authz.go:848-870 | one challenge is enough exactly when every rule that lacked part of `allOf` is already met on `anyOf`, counting what the challenge gave |
| `McpAuthzSpec.TwoChallengesAreNeeded` | policies/mcp-authz/mcp-authz.go:848-870 | a rule with both kinds of scopes does need two challenges |
| `McpAuthzSpec.ChallengeIsExact` | policies/mcp-authz/mcp-authz.go:633-654 | a challenge names only scopes of governing rules that the client lacks, and is empty exactly when every rule in the way fails on its claims |
| `McpAuthzSpec.AsksIsUseful` | policies/mcp-authz/mcp-authz.go:702-727 | a rule asks for something exactly when its claims hold and it does not grant, never for a scope already held |
| `McpAuthzSpec.MoreScopesNeverRevoke` | policies/mcp-authz/mcp-authz.go:702-727 | adding scopes never turns an allowed request away |
| `McpAuthzSpec.OnlyTheSetOfRulesMatters` | policies/mcp-authz/mcp-authz.go:633-698 | the answer does not depend on the order or repetition of rules |
| `McpAuthzSpec.GoverningHolds` | policies/mcp-authz/mcp-authz.go:657-698 | exactly the targeted rules govern, each exact name before each wildcard |
| `McpAuthzSpec.DecisionInWords` | policies/mcp-authz/mcp-authz.go:507-543 | ungoverned exactly when no rule targets the request, unauthenticated exactly when governed without an identity, allowed exactly when every targeted rule grants |
| `McpAuthzSpec.TargetsInWords` | policies/mcp-authz/mcp-authz.go:660-680 | which rules a request falls under |
| `McpAuthzSpec.GrantsInWords` | policies/mcp-authz/mcp-authz.go:702-752 | when a rule grants, deprecated conditions included |
| `McpAuthzSpec.ClaimsInWords` | policies/mcp-authz/mcp-authz.go:757-804 | which part of the identity each claim name reads |
| `McpAuthz.FindMatchingRules` | policies/mcp-authz/mcp-authz.go:657-698 | the matching and sorting loops return the governing rules |
| `McpAuthz.CheckScopes` | policies/mcp-authz/mcp-authz.go:848-870 | grants exactly when all of `allOf` and, if given, one of `anyOf` is held; otherwise lists the unmet part |
| `McpAuthz.CheckClaims` | policies/mcp-authz/mcp-authz.go:731-752 | true exactly when all `allOf` matchers match and, if given, one `anyOf` matcher |
| `McpAuthz.RuleGrantsAccess` | policies/mcp-authz/mcp-authz.go:702-727 | new conditions take precedence per dimension, deprecated ones fill in, and a failed claim asks for no scope |
| `McpAuthz.EvaluateRules` | policies/mcp-authz/mcp-authz.go:633-654 | every rule must grant, and the challenge is the union of what the others ask for |
| `McpAuthz.OnRequestBody` | policies/mcp-authz/mcp-authz.go:507-543 | governance is settled before identity: ungoverned requests pass, governed ones need an authenticated identity that every rule grants |
| `PricingGrowth.CostNeverFallsIff` | policies/llm-cost/pricing.go:400-607 | for every service tier, the base cost of what the calculators make never falls as the prompt grows exactly when the entry passes a check at the three context thresholds; once for counts that may overdraw the prompt, once for counts that fit it |
| `PricingGrowth.AnyStepSuffices` | policies/llm-cost/pricing.go:422-456 | the check for overdrawn counts: output, cache-read and write rates do not fall at the threshold, and neither does the input rate where audio or tool use is billed at it; otherwise one token more must make up for a plain prompt |
| `PricingGrowth.FittingStepSuffices` | policies/llm-cost/pricing.go:422-456 | the check for fitting counts: one token more makes up for a whole prompt of any category |
| `PricingGrowth.StepIsNeeded` | policies/llm-cost/pricing.go:422-607 | an entry that fails the check has two answers a calculator can make of which the longer costs less |
| `PricingGrowth.FallingInputRateCanBeFine` | policies/llm-cost/pricing.go:448-453 | an entry whose input rate falls at 128k and whose cost still never falls |
| `PricingGrowth.AscendingPasses` | policies/llm-cost/pricing.go:400-505 | ascending rates pass either check |
| `PricingSpec.LongerPromptCostsNoLess` | policies/llm-cost/pricing.go:400-607 | with ascending rates the longer of two prompts, all else equal, costs no less |
| `PricingSpec.AscendingIsMonotone` | policies/llm-cost/pricing.go:400-505 | four token counts decide it for all token counts |
| `PricingSpec.TopTierForgetsWriteRates` | policies/llm-cost/pricing.go:422-447 | the 272k tier has no cache-write rates and falls back to the base ones, so an ascending entry that defines it cannot raise them at 200k |
| `PricingSpec.OneMoreTokenCheaperIff` | policies/llm-cost/pricing.go:422-447 | when a prompt written to the cache gets cheaper by one more token at the 272k threshold: exactly when that token costs less than the forgotten write rate saves |
| `PricingGrowth.SampleCost` | policies/llm-cost/pricing.go:512-607 | tokens of one category cost that category's resolved rate each, and what they leave of the prompt the input rate |
| `PricingSpec.PromptIsBilledOnce` | policies/llm-cost/pricing.go:519-525 | unless the carved-out categories overdraw the prompt, each prompt token is billed in exactly one |
| `PricingBill.EveryTokenIsBilledOnce` | policies/llm-cost/pricing.go:512-607 | setting prompt or completion tokens apart changes the cost of the plain answer by each count times the difference between its own rate and the one it would have had |
| `PricingBill.UndefinedRatesChangeNothing` | policies/llm-cost/pricing.go:524-577 | reasoning, audio and image tokens without a rate of their own cost what any completion token costs |
| `PricingBill.PlainCost` | policies/llm-cost/pricing.go:512-607 | what an answer without special tokens costs |
| `PricingBill.ContextTiers` | policies/llm-cost/pricing.go:400-455 | where each rate comes from: the highest context tier passed and defined, and the base for what it does not set |
| `PricingBill.ServiceTiers` | policies/llm-cost/pricing.go:456-503 | what priority, flex and batch variants replace |
| `PricingBill.OneSearch` | policies/llm-cost/pricing.go:578-594 | where the price of a search comes from |
| `Pricing.ResolveRates` | policies/llm-cost/pricing.go:400-506 | the field-by-field overwriting picks the highest context tier that is reached and defined, then the service tier on top |
| `Pricing.OverrideByService` | policies/llm-cost/pricing.go:456-503 | priority, flex and batch variants replace the input rate and whatever else they define |
| `Pricing.GenericCalculateCost` | policies/llm-cost/pricing.go:512-607 | the cost is the sum of text, cache, modality, search and tool charges at the resolved rates |
| `PricingSpec.SearchIsLinear` | policies/llm-cost/pricing.go:578-594 | search costs nothing without a request and grows by the same price with each; an unstated context size is billed as medium |
| `CalculatorsSpec.AnthropicBillIsExact` | policies/llm-cost/calculator_anthropic.go:106-207 | normalise, price, adjust: multiplier times text cost plus unscaled cache and search costs, and the clamp at zero never takes effect |
| `CalculatorsSpec.AnthropicBillInReportedTokens` | policies/llm-cost/calculator_anthropic.go:106-207 | with a breakdown that adds up, that bill in the provider's own token counts |
| `CalculatorsSpec.RegularIsInputIff` | policies/llm-cost/calculator_anthropic.go:106-127 | regular tokens billed equal input tokens exactly when the breakdown sums to the creation count (or the input is empty and the breakdown overdraws) |
| `CalculatorsSpec.FirstPlaceWins` | policies/llm-cost/calculator_anthropic.go:58-86 | the first place that has a usage field decides it: top-level fields stay, missing ones come from the envelope, and hoisting again changes nothing |
| `CalculatorsSpec.AnthropicIsMade` | policies/llm-cost/calculator_anthropic.go:106-141 | the usage made from counts that are not negative tiers on the whole prompt |
| `CalculatorsSpec.AnthropicCounts` | policies/llm-cost/calculator_anthropic.go:106-141 | the balances in reported counts |
| `CalculatorsSpec.MultiplierInWords` | policies/llm-cost/calculator_anthropic.go:148-177 | what routing and speed multiply the price by |
| `CalculatorsSpec.AdjustedClamps` | policies/llm-cost/calculator_anthropic.go:179-206 | what the adjustment makes of any base price |
| `Calculators.NormalizeAnthropic` | policies/llm-cost/calculator_anthropic.go:106-141 | the normalised balances, tiering on all input categories |
| `Calculators.AdjustAnthropic` | policies/llm-cost/calculator_anthropic.go:146-207 | the adjustment of any base price |
| `Calculators.BillAnthropic` | policies/llm-cost/calculator_anthropic.go:29-207 | the three steps together give the exact bill |
| `Calculators.BedrockCacheWritesByTTL` | policies/llm-cost/calculator_bedrock.go:36-58 | one-hour writes are those classified so, and the two buckets sum to the larger of aggregate and classified writes |
| `Calculators.NormalizeBedrockNative` | policies/llm-cost/calculator_bedrock.go:122-159 | regular billed tokens equal the input tokens, cache writes the larger of aggregate and classified, and the total covers everything; the metadata event wins over the plain usage |
| `CalculatorsSpec.ClassifiedAppends` | policies/llm-cost/calculator_bedrock.go:42-49 | classified writes add up over any split of the details, so their order does not matter |
| `MergeEventsSpec.LastEventWins` | policies/llm-cost/llm_cost.go:447-476 | each key of the merged object has its value from the last event carrying it; under the usage keys each field has its own, and an event that puts something else there hides all before it |
| `MergeEventsSpec.UsageFieldIsLatest` | policies/llm-cost/llm_cost.go:458-468 | when every usage is an object, each usage field has its value from the last event carrying that field |
| `MergeEventsSpec.UsageMergesByField` | policies/llm-cost/llm_cost.go:454-470 | "usage" and "usageMetadata" merge field by field, any other key is replaced whole |
| `MergeEventsSpec.LastValueByIndex` | policies/llm-cost/llm_cost.go:454-470 | the value of a replaced key is that of the last event carrying it |
| `MergeEventsSpec.MergedPrefix` | policies/llm-cost/llm_cost.go:447-476 | merging an already merged prefix with the rest equals merging everything, whatever the events hold |
| `MergeEventsSpec.PartsAgreeIff` | policies/llm-cost/llm_cost.go:458-470 | a later part may be merged by itself first, before any earlier part, exactly when it does not put a usage object after a usage that is none |
| `MergeEvents.MergeJSONEvents` | policies/llm-cost/llm_cost.go:447-476 | the nested loops, in any map order, compute the merge and fail exactly when nothing was contributed |
| `MergeEvents.MergeInto` | policies/llm-cost/llm_cost.go:454-470 | one event merged key by key in any order |
| `MergeEvents.MergeFields` | policies/llm-cost/llm_cost.go:461-463 | usage objects merged field by field in any order |
| `MergeEvents.ResponseStreamContext.OnResponseBodyChunk` | policies/llm-cost/llm_cost.go:226-269 | however the body is cut, its whole is handed on at the end of stream and the gathered bytes are dropped |
| `ContentLengthSpec.TerminatedIff` | policies/content-length-guardrail/contentlengthguardrail.go:404-480 | whatever its chunks hold, a stream is cut off exactly when the content of its recognised chunks exceeds the maximum in normal mode, or its last chunk is recognised and that content fails the min/max/invert test, or its last chunk is other text and the unrecognised text fails the buffered test; an empty last chunk calls for no test |
| `ContentLengthSpec.BothModes` | policies/content-length-guardrail/contentlengthguardrail.go:450-478 | a stream that ends in a recognised chunk is cut off when its counted content lies outside the range, or, inverted, inside it |
| `ContentLengthSpec.SwitchedOff` | policies/content-length-guardrail/contentlengthguardrail.go:404-407 | a direction that is switched off cuts nothing off |
| `ContentLengthSpec.RecognisedByFirstFive` | policies/content-length-guardrail/contentlengthguardrail.go:482-490 | a chunk is recognised by a line that opens with a data or an event field, among its first five |
| `ContentLengthSpec.JudgedAsABodyIff` | policies/content-length-guardrail/contentlengthguardrail.go:404-490 | a line-aligned cutting is judged by the content of the whole body, for every range, exactly when its last chunk is recognised as event-stream text and no unrecognised chunk carries content |
| `ContentLengthSpec.BlankLastChunkIsJudgedApart` | policies/content-length-guardrail/contentlengthguardrail.go:418-432 | a conforming event let through whole, and cut off when its blank line comes as a last chunk of its own |
| `ContentLengthSpec.EmptyLastChunkIsUntested` | policies/content-length-guardrail/contentlengthguardrail.go:408-410 | a stream below the minimum let through because its last chunk is empty |
| `ContentLengthSpec.ForwardedWithinMax` | policies/content-length-guardrail/contentlengthguardrail.go:450-456 | in normal mode the counted content that is forwarded never exceeds the maximum, on any run, ended or not |
| `ContentLengthSpec.LateContentIsUncounted` | policies/content-length-guardrail/contentlengthguardrail.go:483-490 | content that comes after five other lines of a chunk is forwarded uncounted, past the maximum |
| `ContentLengthSpec.TotalIsCountedAndUncounted` | policies/content-length-guardrail/contentlengthguardrail.go:418-446 | all content is that of recognised chunks, which is counted, and that of the others, which is not |
| `ContentLengthSpec.TotalIsOfTheBody` | policies/content-length-guardrail/contentlengthguardrail.go:562-596 | the contents of line-aligned chunks add up to the content of the whole body |
| `ContentLengthSpec.ContentOfAligned` | policies/content-length-guardrail/contentlengthguardrail.go:562-596 | content splits where a line ends |
| `ContentLength.ParseRange` | policies/content-length-guardrail/contentlengthguardrail.go:142-180 | for a direction not switched off a range is accepted exactly when both bounds are given, the minimum is not negative, the maximum positive and they are in order |
| `ContentLength.ExtractSSEDeltaContent` | policies/content-length-guardrail/contentlengthguardrail.go:562-596 | the builder loop concatenates the content of the payload lines |
| `ContentLength.ResponseStream.OnResponseBodyChunk` | policies/content-length-guardrail/contentlengthguardrail.go:404-480 | the running count and the gathered plain body are updated, and the chunk cut off, as the step function says |
| `McpListsSpec.ShownIsCallableIff` | policies/mcp-rewrite/mcp-rewrite.go:246-282 | every shown item can be called by its shown name and reaches exactly the backend name it stands for, exactly when no later entry takes over a shown entry's key and no shown key reads as embedded JSON |
| `McpListsSpec.DistinctKeysAreTheirOwn` | policies/mcp-rewrite/mcp-rewrite.go:230-240 | distinct plain keys are enough for that |
| `McpListsSpec.ReusedKeyHidesATool` | policies/mcp-rewrite/mcp-rewrite.go:234-239 | two tools under one name: the first is listed under it and a call reaches the second |
| `McpListsSpec.ShownListReachesBackend` | policies/mcp-rewrite/mcp-rewrite.go:246-282 | then each item of a shown list stands for an item of the backend's list and its call reaches it |
| `McpListsSpec.KeptAreConfigured` | policies/mcp-rewrite/mcp-rewrite.go:256-279 | exactly the items whose name is a configured target are kept |
| `McpListsSpec.ConfiguredHolds` | policies/mcp-rewrite/mcp-rewrite.go:128-243 | both indexes point at the last entry of each key and target and nothing else, and each response shows its entry's key |
| `McpListsSpec.EntriesInOrder` | policies/mcp-rewrite/mcp-rewrite.go:128-240 | a list is accepted exactly when each of its entries is, and each becomes an entry, in order |
| `McpListsSpec.WellFormedInWords` | policies/mcp-rewrite/mcp-rewrite.go:129-170 | which entries are accepted |
| `McpListsSpec.EntryInWords` | policies/mcp-rewrite/mcp-rewrite.go:156-232 | the key, target and response of an accepted entry |
| `McpLists.ParseCapabilityConfig` | policies/mcp-rewrite/mcp-rewrite.go:128-243 | the loop builds both indexes and rejects the list at the first malformed entry |
| `McpLists.ParseEntry` | policies/mcp-rewrite/mcp-rewrite.go:129-232 | required fields, target and key of one entry |
| `McpLists.RewriteListItems` | policies/mcp-rewrite/mcp-rewrite.go:246-282 | exactly the configured items are shown, as configured; the changed flag is set exactly for lists that are not empty |
| `McpLists.RewriteCall` | policies/mcp-rewrite/mcp-rewrite.go:511-535 | an unknown name is blocked, a known one becomes its target |
| `McpListsSpec.ListedIffCallable` | policies/mcp-acl-list/mcp-acl-list.go:185-235 | an item with a non-blank name is listed exactly when a call to that name is not denied; the filtered list holds nothing else and equals the list exactly when all is listed |
| `McpListsSpec.AccessByMode` | policies/mcp-acl-list/mcp-acl-list.go:185-235 | which items are listed and which calls denied, by mode and exceptions |
| `McpListsSpec.CallsInWords` | policies/mcp-acl-list/mcp-acl-list.go:408-432 | calls without a name, and calls when the policy is not enabled |
| `McpListsSpec.NamesInWords` | policies/mcp-acl-list/mcp-acl-list.go:254-260 | what names an item or a call |
| `McpListsSpec.FilteringIsIdempotent` | policies/mcp-acl-list/mcp-acl-list.go:196-235 | filtering a filtered list changes nothing |
| `McpListsSpec.FilteringKeepsOrder` | policies/mcp-acl-list/mcp-acl-list.go:196-235 | what remains keeps its order |
| `McpLists.FilterListItems` | policies/mcp-acl-list/mcp-acl-list.go:196-235 | the loop filters so, and its changed flag is exact |

## Left out

- HTTP, Redis, AWS and key-server calls, signatures, certificates and TLS: their outcomes are arbitrary inputs.
- Limiter algorithms: `AllowN`, `ConsumeN` and `GetAvailable` answer arbitrarily.
- Locks and the memory model: each critical section is one atomic step.
- Parameter parsing, headers, error bodies, logging and analytics metadata, except where a row above says otherwise.
- Results kept for rate-limit response headers (`quotaResults`): they charge nothing.
- Float rounding and number formatting: costs are reals, and a JSON number carries its rendering as text.
- Integer wrap-around of token counts, indices and amounts: integers are unbounded.
- encoding/xml: marshalling followed by unmarshalling is taken as the identity on trees.
- Event-stream checksums: the decoder does not check them; the reference encoder carries them as given.
- Regular expressions and the buffered JSON path of the length guardrail: its verdict on a complete plain body is a parameter (`rejects`).
- The guardrail's gate for holding chunks back (`NeedsMoreResponseData`): what the kernel does with it is not visible.
- The LRU policy of the verdict cache: any other entries may be evicted at any time.
- Pricing lookup by model name, and the calculators of the other providers: table and field mapping.
- PricingGrowth.CostNeverFallsIff: speaks of the base cost, before a provider's adjustment, which is stated for Anthropic by `CalculatorsSpec.AnthropicBillIsExact`.
- Lower-casing of routing and speed fields: carried in lower case.
- The authorized flag and authentication type that a granted MCP request gets: fields of a request context owned elsewhere.
- PII masking, prompt and guardrail policies, CORS, opaque tokens, backend tokens and pass-through policies: same shapes or plumbing.
