/** Token balances and price adjustments of the Anthropic and Bedrock calculators. */
module CalculatorsSpec {
  import opened Wrappers
  import opened PricingGrowth
  import opened PricingSpec

  // ---------------------------------------------------------------- Anthropic

  datatype CacheCreation = CacheCreation(ephemeral5m: int, ephemeral1h: int)

  /** A decoded usage object; `inferenceGeo` is carried in lower case. */
  datatype AnthropicUsage = AnthropicUsage(inputTokens: int, outputTokens: int, cacheCreationInputTokens: int,
                                           cacheReadInputTokens: int, inferenceGeo: string,
                                           cacheCreation: Option<CacheCreation>, webSearchRequests: Option<int>)

  function IfZero(x: int, y: int): int { if x == 0 then y else x }

  function IfNone<T>(x: Option<T>, y: Option<T>): Option<T> { if x.None? then y else x }

  /** The usage of an answer: each field the top level lacks is taken from the message envelope. */
  function Hoisted(u: AnthropicUsage, message: Option<AnthropicUsage>): AnthropicUsage {
    match message
    case None => u
    case Some(m) =>
      AnthropicUsage(IfZero(u.inputTokens, m.inputTokens), IfZero(u.outputTokens, m.outputTokens),
                     IfZero(u.cacheCreationInputTokens, m.cacheCreationInputTokens),
                     IfZero(u.cacheReadInputTokens, m.cacheReadInputTokens),
                     if u.inferenceGeo == "" then m.inferenceGeo else u.inferenceGeo,
                     IfNone(u.cacheCreation, m.cacheCreation), IfNone(u.webSearchRequests, m.webSearchRequests))
  }

  /** The first place that has a field decides it: hoisting twice is hoisting once, what the top level has stays, and
      hoisting from one envelope and then from another is hoisting from both taken together. */
  lemma FirstPlaceWins(u: AnthropicUsage, m: AnthropicUsage, n: AnthropicUsage)
    ensures Hoisted(Hoisted(u, Some(m)), Some(m)) == Hoisted(u, Some(m)) && Hoisted(u, Some(u)) == u
    ensures Hoisted(Hoisted(u, Some(m)), Some(n)) == Hoisted(u, Some(Hoisted(m, Some(n))))
    ensures var h := Hoisted(u, Some(m));
            && (u.inputTokens != 0 ==> h.inputTokens == u.inputTokens)
            && (u.outputTokens != 0 ==> h.outputTokens == u.outputTokens)
            && (u.cacheCreationInputTokens != 0 ==> h.cacheCreationInputTokens == u.cacheCreationInputTokens)
            && (u.cacheReadInputTokens != 0 ==> h.cacheReadInputTokens == u.cacheReadInputTokens)
            && (u.cacheCreation.Some? ==> h.cacheCreation == u.cacheCreation)
            && (u.webSearchRequests.Some? ==> h.webSearchRequests == u.webSearchRequests)
            && (u.inferenceGeo != "" ==> h.inferenceGeo == u.inferenceGeo)
    ensures Hoisted(NOTHING, Some(m)) == m
  {}

  const NOTHING := AnthropicUsage(0, 0, 0, 0, "", None, None)

  /** Cache writes by time to live; without a breakdown all of them are short-lived. */
  function Breakdown(u: AnthropicUsage): CacheCreation {
    if u.cacheCreation.Some? then u.cacheCreation.value else CacheCreation(u.cacheCreationInputTokens, 0)
  }

  predicate BreakdownAgrees(u: AnthropicUsage) {
    Breakdown(u).ephemeral5m + Breakdown(u).ephemeral1h == u.cacheCreationInputTokens
  }

  function NormalizedAnthropic(u: AnthropicUsage, speed: string, searchContextSize: string): Usage {
    var prompt := u.inputTokens + u.cacheCreationInputTokens + u.cacheReadInputTokens;
    Usage(prompt, u.outputTokens, u.inputTokens + u.outputTokens, prompt, u.cacheReadInputTokens,
          Breakdown(u).ephemeral5m, Breakdown(u).ephemeral1h, 0, 0, 0, 0, 0, 0.0, 0, "", u.inferenceGeo, speed,
          if u.webSearchRequests.Some? then u.webSearchRequests.value else 0, searchContextSize)
  }

  /** Counts that are not negative make a usage that tiers on the whole prompt. */
  lemma AnthropicIsMade(u: AnthropicUsage, speed: string, size: string)
    requires NonNegativeAnswer(u) && u.cacheCreationInputTokens >= 0
    requires Breakdown(u).ephemeral5m >= 0 && Breakdown(u).ephemeral1h >= 0
    ensures Made(NormalizedAnthropic(u, speed, size))
    ensures Fits(NormalizedAnthropic(u, speed, size))
            <==> Breakdown(u).ephemeral5m + Breakdown(u).ephemeral1h <= u.inputTokens + u.cacheCreationInputTokens
  {}

  /** The regular tokens billed are the input tokens reported, exactly when the breakdown adds up to the total of
      cache writes; an empty input also survives a breakdown that adds up to more. */
  lemma RegularIsInputIff(u: AnthropicUsage, speed: string, size: string)
    requires u.inputTokens >= 0
    ensures RegularPrompt(NormalizedAnthropic(u, speed, size)) == u.inputTokens
            <==> BreakdownAgrees(u)
                 || (u.inputTokens == 0
                     && Breakdown(u).ephemeral5m + Breakdown(u).ephemeral1h > u.cacheCreationInputTokens)
  {}

  predicate GeoRouted(u: Usage) {
    u.inferenceGeo != "" && u.inferenceGeo != "global" && u.inferenceGeo != "not_available"
  }

  function Factor(p: ModelPricing, applies: bool, key: string): real {
    if applies && key in p.providerSpecific then p.providerSpecific[key] else 1.0
  }

  /** What routing and speed multiply the price by. */
  function Multiplier(u: Usage, p: ModelPricing): real {
    Times(Factor(p, GeoRouted(u), u.inferenceGeo), Factor(p, u.speed == "fast", "fast"))
  }

  function Times(x: real, y: real): real { x * y }

  function CacheCost(u: Usage, r: Rates): real { Scaled(u.cachedReadTokens, r.cacheRead) + CacheWriteCost(u, r) }

  /** The adjusted price, as the sum the billing rules ask for: text is multiplied, cache and search are not. */
  function AdjustedText(u: Usage, p: ModelPricing): real {
    var r := EffectiveRates(u, p);
    Times(TextCost(u, r), Multiplier(u, p)) + CacheCost(u, r) + SearchCost(u, p)
  }

  /** Adjustment of any base price: all but cache and search, if positive, is multiplied. */
  function Adjusted(base: real, u: Usage, p: ModelPricing): real {
    if Multiplier(u, p) == 1.0 then base
    else
      var flat := CacheCost(u, EffectiveRates(u, p)) + SearchCost(u, p);
      var rest := base - flat;
      Times(if rest < 0.0 then 0.0 else rest, Multiplier(u, p)) + flat
  }

  /** What an Anthropic answer costs before adjustment: text, cache and search, nothing else. */
  lemma AnthropicCost(a: AnthropicUsage, speed: string, size: string, p: ModelPricing)
    ensures var u := NormalizedAnthropic(a, speed, size);
            a.cacheReadInputTokens >= 0 ==>
              Cost(u, p) == TextCost(u, EffectiveRates(u, p)) + CacheCost(u, EffectiveRates(u, p)) + SearchCost(u, p)
  {
    hide RatesAt, TextCost, CacheWriteCost, SearchCost;
    var u := NormalizedAnthropic(a, speed, size);
    var r := EffectiveRates(u, p);
    assert ModalityCost(u, p, r) == 0.0;
    if a.cacheReadInputTokens >= 0 {
      assert CacheReadCost(u, p, r) == Scaled(u.cachedReadTokens, r.cacheRead) by {
        assert Scaled(u.cachedAudioInputTokens, p.cacheReadAudio) == 0.0;
      }
    }
  }

  predicate NonNegativeAnswer(a: AnthropicUsage) {
    && a.inputTokens >= 0 && a.outputTokens >= 0 && a.cacheReadInputTokens >= 0
  }

  lemma TextCostIsNonNegative(u: Usage, r: Rates)
    requires NonNegativeRates(r)
    ensures TextCost(u, r) >= 0.0
  {
    ScaledIsMonotone(RegularPrompt(u), RegularPrompt(u), r.input, r.input);
    ScaledIsMonotone(RegularCompletion(u), RegularCompletion(u), r.output, r.output);
  }

  /** Normalise, price, adjust: the result is the multiplied text price plus unscaled cache and search prices, and the
      clamp at zero never takes effect. */
  lemma AnthropicBillIsExact(a: AnthropicUsage, speed: string, size: string, p: ModelPricing)
    requires NonNegativeAnswer(a) && NonNegativePricing(p)
    ensures var u := NormalizedAnthropic(a, speed, size);
            && Adjusted(Cost(u, p), u, p) == AdjustedText(u, p)
            && Cost(u, p) - CacheCost(u, EffectiveRates(u, p)) - SearchCost(u, p) >= 0.0
  {
    hide RatesAt, TextCost, Cost, CacheCost, SearchCost, Multiplier;
    var u := NormalizedAnthropic(a, speed, size);
    AnthropicCost(a, speed, size, p);
    RatesAreNonNegative(p, u.serviceTier, TierTokens(u));
    TextCostIsNonNegative(u, EffectiveRates(u, p));
  }

  /** With an agreeing breakdown the bill is spelled out in the provider's own counts. */
  lemma AnthropicBillInReportedTokens(a: AnthropicUsage, speed: string, size: string, p: ModelPricing)
    requires NonNegativeAnswer(a) && NonNegativePricing(p) && BreakdownAgrees(a)
    ensures var u := NormalizedAnthropic(a, speed, size);
            var r := EffectiveRates(u, p);
            Adjusted(Cost(u, p), u, p)
            == Times(Scaled(a.inputTokens, r.input) + Scaled(a.outputTokens, r.output), Multiplier(u, p))
               + (Scaled(a.cacheReadInputTokens, r.cacheRead) + Scaled(Breakdown(a).ephemeral5m, r.cacheWrite5m)
                  + Scaled(Breakdown(a).ephemeral1h, r.cacheWrite1h))
               + SearchCost(u, p)
  {
    hide RatesAt, Cost, Adjusted, SearchCost, Multiplier, Scaled;
    AnthropicBillIsExact(a, speed, size, p);
    RegularIsInputIff(a, speed, size);
  }

  /** The multiplier: one unless the answer was routed to a region or served fast; then the entries of the region and
      of "fast", as far as the pricing has them, multiplied. */
  lemma MultiplierInWords(u: Usage, p: ModelPricing)
    ensures u.inferenceGeo in {"", "global", "not_available"} ==>
              Multiplier(u, p) == if u.speed == "fast" && "fast" in p.providerSpecific then p.providerSpecific["fast"] else 1.0
    ensures u.inferenceGeo !in {"", "global", "not_available"} && u.speed != "fast" ==>
              Multiplier(u, p) == if u.inferenceGeo in p.providerSpecific then p.providerSpecific[u.inferenceGeo] else 1.0
    ensures u.inferenceGeo !in {"", "global", "not_available"} && u.speed == "fast"
            && u.inferenceGeo in p.providerSpecific && "fast" in p.providerSpecific ==>
              Multiplier(u, p) == p.providerSpecific[u.inferenceGeo] * p.providerSpecific["fast"]
    ensures p.providerSpecific == map[] ==> Multiplier(u, p) == 1.0
  {}

  /** A base price below what is not multiplied is raised to it. */
  lemma AdjustedClamps(base: real, u: Usage, p: ModelPricing)
    ensures var flat := CacheCost(u, EffectiveRates(u, p)) + SearchCost(u, p);
            && (Multiplier(u, p) == 1.0 ==> Adjusted(base, u, p) == base)
            && (Multiplier(u, p) != 1.0 && base <= flat ==> Adjusted(base, u, p) == flat)
            && (Multiplier(u, p) != 1.0 && base > flat ==> Adjusted(base, u, p) == (base - flat) * Multiplier(u, p) + flat)
  {
    hide Multiplier, CacheCost, SearchCost, RatesAt;
  }

  /** The balances in reported counts. */
  lemma AnthropicCounts(a: AnthropicUsage, speed: string, size: string)
    ensures var u := NormalizedAnthropic(a, speed, size);
            && u.promptTokens == a.inputTokens + a.cacheCreationInputTokens + a.cacheReadInputTokens
            && TierTokens(u) == u.promptTokens && u.serviceTier == ""
            && u.completionTokens == a.outputTokens && u.totalTokens == a.inputTokens + a.outputTokens
            && u.cachedReadTokens == a.cacheReadInputTokens
            && (a.cacheCreation.None? ==> u.cacheWriteTokens == a.cacheCreationInputTokens && u.cacheWrite1hrTokens == 0)
            && (a.cacheCreation.Some? ==> u.cacheWriteTokens == a.cacheCreation.value.ephemeral5m
                                          && u.cacheWrite1hrTokens == a.cacheCreation.value.ephemeral1h)
            && u.webSearchRequests == (if a.webSearchRequests.Some? then a.webSearchRequests.value else 0)
            && u.searchContextSize == size && u.speed == speed && u.inferenceGeo == a.inferenceGeo
  {}

  // ---------------------------------------------------------------- Bedrock

  datatype CacheDetail = CacheDetail(ttl: string, inputTokens: int)

  datatype BedrockUsage = BedrockUsage(inputTokens: int, outputTokens: int, totalTokens: int,
                                       cacheReadInputTokens: int, cacheWriteInputTokens: int,
                                       cacheDetails: seq<CacheDetail>)

  ghost function Classified(details: seq<CacheDetail>, ttl: string): int {
    if details == [] then 0
    else
      var d := details[|details| - 1];
      Classified(details[..|details| - 1], ttl) + if d.ttl == ttl then d.inputTokens else 0
  }

  /** Classified cache writes, in whatever order they are listed. */
  lemma {:induction false} ClassifiedAppends(a: seq<CacheDetail>, b: seq<CacheDetail>, ttl: string)
    ensures Classified(a + b, ttl) == Classified(a, ttl) + Classified(b, ttl)
  {
    if b == [] {
      assert a + b == a;
    } else {
      ClassifiedAppends(a, b[..|b| - 1], ttl);
      assert (a + b)[..|a + b| - 1] == a + b[..|b| - 1];
    }
  }
}
