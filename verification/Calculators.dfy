/** The provider calculators: normalisation of usage, the Anthropic adjustment, the Bedrock cache buckets. */
module Calculators {
  import opened Wrappers
  import opened PricingGrowth
  import opened PricingSpec
  import Pricing
  import opened CalculatorsSpec

  /** Fills what the top-level usage lacks from the message envelope. */
  method Hoist(usage: AnthropicUsage, message: Option<AnthropicUsage>) returns (u: AnthropicUsage)
    ensures u == Hoisted(usage, message)
  {
    u := usage;
    if message.Some? {
      var m := message.value;
      var input, output, creation, read :=
        u.inputTokens, u.outputTokens, u.cacheCreationInputTokens, u.cacheReadInputTokens;
      var ttl, search, geo := u.cacheCreation, u.webSearchRequests, u.inferenceGeo;
      if input == 0 { input := m.inputTokens; }
      if output == 0 { output := m.outputTokens; }
      if creation == 0 { creation := m.cacheCreationInputTokens; }
      if read == 0 { read := m.cacheReadInputTokens; }
      if ttl.None? { ttl := m.cacheCreation; }
      if search.None? { search := m.webSearchRequests; }
      if geo == "" { geo := m.inferenceGeo; }
      u := AnthropicUsage(input, output, creation, read, geo, ttl, search);
    }
  }

  /** Balances the token counts so that pricing can subtract the cache tokens again. */
  method NormalizeAnthropic(usage: AnthropicUsage, message: Option<AnthropicUsage>, speed: string, size: string)
    returns (r: Usage)
    ensures r == NormalizedAnthropic(Hoisted(usage, message), speed, size)
  {
    var u := Hoist(usage, message);
    var inputForTiering := u.inputTokens + u.cacheCreationInputTokens + u.cacheReadInputTokens;
    var cacheWrite5m, cacheWrite1hr := u.cacheCreationInputTokens, 0;
    if u.cacheCreation.Some? {
      cacheWrite5m, cacheWrite1hr := u.cacheCreation.value.ephemeral5m, u.cacheCreation.value.ephemeral1h;
    }
    var webSearchRequests := 0;
    if u.webSearchRequests.Some? { webSearchRequests := u.webSearchRequests.value; }
    var promptTokens := u.inputTokens + u.cacheCreationInputTokens + u.cacheReadInputTokens;
    r := Usage(promptTokens, u.outputTokens, u.inputTokens + u.outputTokens, inputForTiering, u.cacheReadInputTokens,
               cacheWrite5m, cacheWrite1hr, 0, 0, 0, 0, 0, 0.0, 0, "", u.inferenceGeo, speed, webSearchRequests, size);
  }

  /** Multiplies what is neither cache nor search. */
  method AdjustAnthropic(base: real, u: Usage, p: ModelPricing) returns (cost: real)
    ensures cost == Adjusted(base, u, p)
  {
    hide RatesAt, Scaled, SearchCost;
    var isGeoRouted := u.inferenceGeo != "" && u.inferenceGeo != "global" && u.inferenceGeo != "not_available";
    var isFastMode := u.speed == "fast";
    if !isGeoRouted && !isFastMode { return base; }
    if |p.providerSpecific| == 0 {
      assert p.providerSpecific == map[];
      return base;
    }
    var multiplier := 1.0;
    if isGeoRouted {
      if u.inferenceGeo in p.providerSpecific { multiplier := multiplier * p.providerSpecific[u.inferenceGeo]; }
    }
    if isFastMode {
      if "fast" in p.providerSpecific { multiplier := multiplier * p.providerSpecific["fast"]; }
    }
    assert multiplier == Multiplier(u, p);
    if multiplier == 1.0 { return base; }
    var rates := Pricing.ResolveRates(u, p);
    var cacheCost := Scaled(u.cachedReadTokens, rates.cacheRead) + Scaled(u.cacheWriteTokens, rates.cacheWrite5m)
                     + Scaled(u.cacheWrite1hrTokens, rates.cacheWrite1h);
    var webSearchCost := Pricing.WebSearchCost(u, p);
    var nonCacheCost := base - cacheCost - webSearchCost;
    if nonCacheCost < 0.0 { nonCacheCost := 0.0; }
    cost := Times(nonCacheCost, multiplier) + cacheCost + webSearchCost;
  }

  /** Normalise, price and adjust one answer. */
  method BillAnthropic(usage: AnthropicUsage, message: Option<AnthropicUsage>, speed: string, size: string, p: ModelPricing)
    returns (cost: real)
    ensures var a := Hoisted(usage, message);
            NonNegativeAnswer(a) && NonNegativePricing(p) ==>
              cost == AdjustedText(NormalizedAnthropic(a, speed, size), p)
  {
    hide Cost, Adjusted, AdjustedText;
    var u := NormalizeAnthropic(usage, message, speed, size);
    var base := Pricing.GenericCalculateCost(u, p);
    cost := AdjustAnthropic(base, u, p);
    if NonNegativeAnswer(Hoisted(usage, message)) && NonNegativePricing(p) {
      AnthropicBillIsExact(Hoisted(usage, message), speed, size, p);
    }
  }

  /** Cache writes of five minutes and of an hour; what no recognised time to live accounts for is short-lived. The
      two buckets add up to the larger of the aggregate and the classified writes. */
  method BedrockCacheWritesByTTL(details: seq<CacheDetail>, aggregate: int) returns (w5m: int, w1h: int)
    ensures w1h == Classified(details, "1h")
    ensures var classified := Classified(details, "5m") + Classified(details, "1h");
            w5m + w1h == if details == [] || aggregate > classified then aggregate else classified
  {
    if |details| == 0 { return aggregate, 0; }
    w5m, w1h := 0, 0;
    for i := 0 to |details|
      invariant w5m == Classified(details[..i], "5m") && w1h == Classified(details[..i], "1h")
    {
      assert details[..i + 1][..i] == details[..i];
      match details[i].ttl {
        case "5m" => w5m := w5m + details[i].inputTokens;
        case "1h" => w1h := w1h + details[i].inputTokens;
        case _ =>
      }
    }
    assert details[..|details|] == details;
    var classified := w5m + w1h;
    if aggregate > classified { w5m := w5m + (aggregate - classified); }
  }

  /** The native usage shape, taken from the metadata event when that carries any; `None` when neither does. The
      regular tokens billed are the input tokens reported, and nothing is left out of the total. */
  method NormalizeBedrockNative(usage: BedrockUsage, metadata: BedrockUsage) returns (r: Option<Usage>)
    ensures r.None? <==> !Carries(usage) && !Carries(metadata)
    ensures r.Some? ==>
              var u := if Carries(metadata) then metadata else usage;
              && r.value.cacheWriteTokens + r.value.cacheWrite1hrTokens == BedrockWrites(u)
              && r.value.cacheWrite1hrTokens == Classified(u.cacheDetails, "1h")
              && (u.inputTokens >= 0 ==> RegularPrompt(r.value) == u.inputTokens)
              && RegularCompletion(r.value) == AtLeastZero(u.outputTokens)
              && r.value.cachedReadTokens == u.cacheReadInputTokens
              && TierTokens(r.value) == r.value.promptTokens
              && InclusiveShape(r.value)
              && r.value.completionTokens == u.outputTokens
              && r.value.totalTokens == Larger(u.totalTokens, r.value.promptTokens + u.outputTokens)
  {
    var u := usage;
    if Carries(metadata) { u := metadata; }
    if !Carries(u) { return None; }
    var cacheWrite5m, cacheWrite1h := BedrockCacheWritesByTTL(u.cacheDetails, u.cacheWriteInputTokens);
    var promptTokens := u.inputTokens + u.cacheReadInputTokens + (cacheWrite5m + cacheWrite1h);
    var totalTokens := u.totalTokens;
    if totalTokens < promptTokens + u.outputTokens { totalTokens := promptTokens + u.outputTokens; }
    return Some(Usage(promptTokens, u.outputTokens, totalTokens, promptTokens, u.cacheReadInputTokens,
                      cacheWrite5m, cacheWrite1h, 0, 0, 0, 0, 0, 0.0, 0, "", "", "", 0, ""));
  }

  function Larger(a: int, b: int): int { if a < b then b else a }

  predicate Carries(u: BedrockUsage) {
    || u.inputTokens != 0 || u.outputTokens != 0 || u.cacheReadInputTokens != 0 || u.cacheWriteInputTokens != 0
    || |u.cacheDetails| != 0
  }

  /** The cache writes a native answer is billed for. */
  ghost function BedrockWrites(u: BedrockUsage): int {
    var classified := Classified(u.cacheDetails, "5m") + Classified(u.cacheDetails, "1h");
    if u.cacheDetails == [] || u.cacheWriteInputTokens > classified then u.cacheWriteInputTokens else classified
  }
}
