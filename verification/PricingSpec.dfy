/** Tiered token prices: the rates a request is billed at, its cost, and when that cost can fall as the prompt grows. */
module PricingSpec {

  datatype Rates = Rates(input: real, output: real, cacheRead: real, cacheWrite5m: real, cacheWrite1h: real)

  /** Rates of a variant; a rate that is not positive is not defined. */
  datatype Variant = Variant(input: real, output: real, cacheRead: real)

  datatype Pair = Pair(input: real, output: real)

  datatype ModelPricing = ModelPricing(
    base: Rates, above128k: Pair, above200k: Rates, above272k: Variant,
    priority: Variant, priority200k: Variant, priority272k: Variant, flex: Variant, batches: Pair,
    cacheReadAudio: real, reasoning: real, audioInput: real, audioOutput: real, imageOutput: real,
    audioPerSecond: real, searchContext: map<string, real>, webSearch: real, providerSpecific: map<string, real>)

  datatype Usage = Usage(
    promptTokens: int, completionTokens: int, totalTokens: int, tieringTokens: int,
    cachedReadTokens: int, cacheWriteTokens: int, cacheWrite1hrTokens: int, reasoningTokens: int,
    audioInputTokens: int, audioOutputTokens: int, imageOutputTokens: int, cachedAudioInputTokens: int,
    audioInputSeconds: real, toolUsePromptTokens: int, serviceTier: string,
    inferenceGeo: string, speed: string, webSearchRequests: int, searchContextSize: string)

  // ---------------------------------------------------------------- rates

  function Or(rate: real, fallback: real): real { if rate > 0.0 then rate else fallback }

  /** A variant with an input rate replaces it, and whatever else it defines. */
  function Over(r: Rates, v: Variant): Rates {
    r.(input := v.input, output := Or(v.output, r.output), cacheRead := Or(v.cacheRead, r.cacheRead))
  }

  function BaseRates(p: ModelPricing): Rates {
    if p.base.cacheWrite1h == 0.0 then p.base.(cacheWrite1h := p.base.cacheWrite5m) else p.base
  }

  /** The highest context tier that is both reached and defined. */
  function ContextRates(p: ModelPricing, tokens: int): Rates {
    var r := BaseRates(p);
    if tokens > 272_000 && p.above272k.input > 0.0 then Over(r, p.above272k)
    else if tokens > 200_000 && p.above200k.input > 0.0 then
      var t := p.above200k;
      Over(r, Variant(t.input, t.output, t.cacheRead))
        .(cacheWrite5m := Or(t.cacheWrite5m, r.cacheWrite5m),
          cacheWrite1h := Or(t.cacheWrite1h, Or(t.cacheWrite5m, r.cacheWrite1h)))
    else if tokens > 128_000 && p.above128k.input > 0.0 then
      Over(r, Variant(p.above128k.input, p.above128k.output, 0.0))
    else r
  }

  /** The service-tier variant that applies, if any. */
  function ServiceVariant(p: ModelPricing, serviceTier: string, tokens: int): Variant {
    if serviceTier == "priority" then
      if tokens > 272_000 && p.priority272k.input > 0.0 then p.priority272k
      else if tokens > 200_000 && p.priority200k.input > 0.0 then p.priority200k
      else p.priority
    else if serviceTier == "flex" then p.flex
    else if serviceTier == "batch" then Variant(p.batches.input, p.batches.output, 0.0)
    else Variant(0.0, 0.0, 0.0)
  }

  function RatesAt(p: ModelPricing, serviceTier: string, tokens: int): Rates {
    var r, v := ContextRates(p, tokens), ServiceVariant(p, serviceTier, tokens);
    if v.input > 0.0 then Over(r, v) else r
  }

  function TierTokens(u: Usage): int { if u.tieringTokens == 0 then u.promptTokens else u.tieringTokens }

  function EffectiveRates(u: Usage, p: ModelPricing): Rates { RatesAt(p, u.serviceTier, TierTokens(u)) }

  predicate AtMost(r: Rates, s: Rates) {
    && r.input <= s.input && r.output <= s.output && r.cacheRead <= s.cacheRead
    && r.cacheWrite5m <= s.cacheWrite5m && r.cacheWrite1h <= s.cacheWrite1h
  }

  /** A pricing entry whose rates do not fall from one context band to the next. */
  predicate Ascending(p: ModelPricing, serviceTier: string) {
    && AtMost(RatesAt(p, serviceTier, 128_000), RatesAt(p, serviceTier, 200_000))
    && AtMost(RatesAt(p, serviceTier, 200_000), RatesAt(p, serviceTier, 272_000))
    && AtMost(RatesAt(p, serviceTier, 272_000), RatesAt(p, serviceTier, 272_001))
  }

  /** The largest token count of a band, which stands for it. */
  function Band(tokens: int): int {
    if tokens > 272_000 then 272_001 else if tokens > 200_000 then 272_000
    else if tokens > 128_000 then 200_000 else 128_000
  }

  lemma RatesDependOnBand(p: ModelPricing, serviceTier: string, tokens: int)
    ensures RatesAt(p, serviceTier, tokens) == RatesAt(p, serviceTier, Band(tokens))
  {}

  /** Four token counts decide it for all. */
  lemma AscendingIsMonotone(p: ModelPricing, serviceTier: string, low: int, high: int)
    requires Ascending(p, serviceTier) && low <= high
    ensures AtMost(RatesAt(p, serviceTier, low), RatesAt(p, serviceTier, high))
  {
    hide RatesAt;
    RatesDependOnBand(p, serviceTier, low);
    RatesDependOnBand(p, serviceTier, high);
  }

  /** The top tier has no cache-write rates of its own and forgets those of the tier below. */
  lemma TopTierForgetsWriteRates(p: ModelPricing, serviceTier: string)
    requires p.above272k.input > 0.0
    ensures RatesAt(p, serviceTier, 272_001).cacheWrite5m == BaseRates(p).cacheWrite5m
    ensures RatesAt(p, serviceTier, 272_001).cacheWrite1h == BaseRates(p).cacheWrite1h
    ensures Ascending(p, serviceTier) ==>
              && RatesAt(p, serviceTier, 272_000).cacheWrite5m == BaseRates(p).cacheWrite5m
              && RatesAt(p, serviceTier, 272_000).cacheWrite1h == BaseRates(p).cacheWrite1h
  {
    var first, second := RatesAt(p, serviceTier, 128_000), RatesAt(p, serviceTier, 200_000);
    assert first.cacheWrite5m == second.cacheWrite5m == BaseRates(p).cacheWrite5m;
    assert first.cacheWrite1h == second.cacheWrite1h == BaseRates(p).cacheWrite1h;
  }

  // ---------------------------------------------------------------- cost

  function Scaled(n: int, rate: real): real { n as real * rate }

  function PerSecond(seconds: real, rate: real): real { seconds * rate }

  function AtLeastZero(n: int): int { if n < 0 then 0 else n }

  /** Prompt tokens that no other category bills. */
  function RegularPrompt(u: Usage): int {
    AtLeastZero(u.promptTokens - u.cachedReadTokens - u.cacheWriteTokens - u.cacheWrite1hrTokens - u.audioInputTokens)
  }

  function RegularCompletion(u: Usage): int {
    AtLeastZero(u.completionTokens - u.reasoningTokens - u.audioOutputTokens - u.imageOutputTokens)
  }

  function Unless0(rate: real, fallback: real): real { if rate == 0.0 then fallback else rate }

  function TextCost(u: Usage, r: Rates): real {
    Scaled(RegularPrompt(u), r.input) + Scaled(RegularCompletion(u), r.output)
  }

  function CacheReadCost(u: Usage, p: ModelPricing, r: Rates): real {
    if p.cacheReadAudio > 0.0 then
      Scaled(AtLeastZero(u.cachedReadTokens - u.cachedAudioInputTokens), r.cacheRead)
      + Scaled(u.cachedAudioInputTokens, p.cacheReadAudio)
    else Scaled(u.cachedReadTokens, r.cacheRead)
  }

  function CacheWriteCost(u: Usage, r: Rates): real {
    Scaled(u.cacheWriteTokens, r.cacheWrite5m) + Scaled(u.cacheWrite1hrTokens, r.cacheWrite1h)
  }

  function SearchCost(u: Usage, p: ModelPricing): real {
    if u.webSearchRequests <= 0 then 0.0
    else if |p.searchContext| > 0 then
      var key := "search_context_size_" + (if u.searchContextSize == "" then "medium" else u.searchContextSize);
      if key in p.searchContext then Scaled(u.webSearchRequests, p.searchContext[key]) else 0.0
    else if p.webSearch > 0.0 then Scaled(u.webSearchRequests, p.webSearch)
    else 0.0
  }

  function ToolUseCost(u: Usage, p: ModelPricing, r: Rates): real {
    if u.toolUsePromptTokens <= 0 then 0.0
    else if p.webSearch > 0.0 then p.webSearch
    else Scaled(u.toolUsePromptTokens, r.input)
  }

  /** Reasoning, audio and image tokens, and audio billed by duration. */
  function ModalityCost(u: Usage, p: ModelPricing, r: Rates): real {
    Scaled(u.reasoningTokens, Unless0(p.reasoning, r.output))
    + Scaled(u.audioInputTokens, Unless0(p.audioInput, r.input))
    + Scaled(u.audioOutputTokens, Unless0(p.audioOutput, r.output))
    + Scaled(u.imageOutputTokens, Unless0(p.imageOutput, r.output))
    + PerSecond(u.audioInputSeconds, p.audioPerSecond)
  }

  /** The cost at given rates. */
  function CostAt(u: Usage, p: ModelPricing, r: Rates): real {
    TextCost(u, r) + CacheReadCost(u, p, r) + CacheWriteCost(u, r) + ModalityCost(u, p, r) + SearchCost(u, p)
    + ToolUseCost(u, p, r)
  }

  function Cost(u: Usage, p: ModelPricing): real { CostAt(u, p, EffectiveRates(u, p)) }

  predicate NonNegativeUsage(u: Usage) {
    && u.promptTokens >= 0 && u.completionTokens >= 0 && u.tieringTokens >= 0
    && u.cachedReadTokens >= 0 && u.cacheWriteTokens >= 0 && u.cacheWrite1hrTokens >= 0 && u.reasoningTokens >= 0
    && u.audioInputTokens >= 0 && u.audioOutputTokens >= 0 && u.imageOutputTokens >= 0
    && u.cachedAudioInputTokens >= 0 && u.audioInputSeconds >= 0.0 && u.toolUsePromptTokens >= 0
  }

  predicate NonNegativeRates(r: Rates) {
    r.input >= 0.0 && r.output >= 0.0 && r.cacheRead >= 0.0 && r.cacheWrite5m >= 0.0 && r.cacheWrite1h >= 0.0
  }

  predicate NonNegativePricing(p: ModelPricing) {
    && NonNegativeRates(p.base)
    && p.cacheReadAudio >= 0.0 && p.reasoning >= 0.0 && p.audioInput >= 0.0 && p.audioOutput >= 0.0
    && p.imageOutput >= 0.0 && p.audioPerSecond >= 0.0
  }

  lemma RatesAreNonNegative(p: ModelPricing, serviceTier: string, tokens: int)
    requires NonNegativePricing(p)
    ensures NonNegativeRates(RatesAt(p, serviceTier, tokens))
  {}

  /** Unless a category overdraws the prompt, each prompt token is billed in exactly one category. */
  lemma PromptIsBilledOnce(u: Usage)
    ensures var carved := u.cachedReadTokens + u.cacheWriteTokens + u.cacheWrite1hrTokens + u.audioInputTokens;
            RegularPrompt(u) + carved == if carved <= u.promptTokens then u.promptTokens else carved
  {}

  /** Search is billed by the request, and not at all without one; an unstated context size is a medium one. */
  lemma SearchIsLinear(u: Usage, p: ModelPricing, n: int)
    ensures u.webSearchRequests <= 0 ==> SearchCost(u, p) == 0.0
    ensures n >= 0 ==>
              SearchCost(u.(webSearchRequests := n), p) == Scaled(n, SearchCost(u.(webSearchRequests := 1), p))
    ensures u.searchContextSize == "" ==> SearchCost(u, p) == SearchCost(u.(searchContextSize := "medium"), p)
  {
    assert forall rate :: Scaled(1, rate) == rate;
    assert forall m :: Scaled(m, 0.0) == 0.0;
    assert forall rate :: Scaled(0, rate) == 0.0;
  }

  // ---------------------------------------------------------------- growing prompts

  /** The same usage with a longer prompt. */
  predicate Grows(u: Usage, v: Usage) {
    && v == u.(promptTokens := v.promptTokens, tieringTokens := v.tieringTokens)
    && u.promptTokens <= v.promptTokens && TierTokens(u) <= TierTokens(v)
  }

  lemma ScaledIsMonotone(n: int, m: int, r: real, s: real)
    requires 0 <= n <= m && 0.0 <= r <= s
    ensures 0.0 <= Scaled(n, r) <= Scaled(m, s)
  {
    assert n as real * r <= m as real * r <= m as real * s;
  }

  lemma ModalityIsMonotone(u: Usage, p: ModelPricing, r: Rates, s: Rates)
    requires NonNegativeUsage(u) && NonNegativePricing(p) && NonNegativeRates(r) && AtMost(r, s)
    ensures ModalityCost(u, p, r) <= ModalityCost(u, p, s)
  {
    hide Scaled;
    ScaledIsMonotone(u.reasoningTokens, u.reasoningTokens, Unless0(p.reasoning, r.output), Unless0(p.reasoning, s.output));
    ScaledIsMonotone(u.audioInputTokens, u.audioInputTokens, Unless0(p.audioInput, r.input), Unless0(p.audioInput, s.input));
    ScaledIsMonotone(u.audioOutputTokens, u.audioOutputTokens,
                     Unless0(p.audioOutput, r.output), Unless0(p.audioOutput, s.output));
    ScaledIsMonotone(u.imageOutputTokens, u.imageOutputTokens,
                     Unless0(p.imageOutput, r.output), Unless0(p.imageOutput, s.output));
  }

  lemma TextAndCacheAreMonotone(u: Usage, v: Usage, p: ModelPricing, r: Rates, s: Rates)
    requires NonNegativeUsage(u) && NonNegativeUsage(v) && Grows(u, v) && NonNegativePricing(p)
    requires NonNegativeRates(r) && AtMost(r, s)
    ensures TextCost(u, r) <= TextCost(v, s)
    ensures CacheReadCost(u, p, r) <= CacheReadCost(v, p, s)
    ensures CacheWriteCost(u, r) <= CacheWriteCost(v, s)
    ensures ToolUseCost(u, p, r) <= ToolUseCost(v, p, s)
  {
    hide Scaled;
    ScaledIsMonotone(RegularPrompt(u), RegularPrompt(v), r.input, s.input);
    ScaledIsMonotone(RegularCompletion(u), RegularCompletion(v), r.output, s.output);
    var text := AtLeastZero(u.cachedReadTokens - u.cachedAudioInputTokens);
    ScaledIsMonotone(text, text, r.cacheRead, s.cacheRead);
    ScaledIsMonotone(u.cachedReadTokens, u.cachedReadTokens, r.cacheRead, s.cacheRead);
    ScaledIsMonotone(u.cacheWriteTokens, u.cacheWriteTokens, r.cacheWrite5m, s.cacheWrite5m);
    ScaledIsMonotone(u.cacheWrite1hrTokens, u.cacheWrite1hrTokens, r.cacheWrite1h, s.cacheWrite1h);
    ScaledIsMonotone(u.toolUsePromptTokens, u.toolUsePromptTokens, r.input, s.input);
  }

  /** With ascending rates a longer prompt never costs less. */
  lemma LongerPromptCostsNoLess(u: Usage, v: Usage, p: ModelPricing)
    requires NonNegativeUsage(u) && NonNegativeUsage(v) && Grows(u, v) && NonNegativePricing(p)
    requires Ascending(p, u.serviceTier)
    ensures Cost(u, p) <= Cost(v, p)
  {
    hide RatesAt, Ascending, TextCost, CacheReadCost, CacheWriteCost, ModalityCost, ToolUseCost;
    var r, s := EffectiveRates(u, p), EffectiveRates(v, p);
    AscendingIsMonotone(p, u.serviceTier, TierTokens(u), TierTokens(v));
    RatesAreNonNegative(p, u.serviceTier, TierTokens(u));
    TextAndCacheAreMonotone(u, v, p, r, s);
    ModalityIsMonotone(u, p, r, s);
    assert ModalityCost(v, p, s) == ModalityCost(u, p, s) by { SameModality(u, v, p, s); }
  }

  lemma SameModality(u: Usage, v: Usage, p: ModelPricing, r: Rates)
    requires Grows(u, v)
    ensures ModalityCost(v, p, r) == ModalityCost(u, p, r)
  {}

  /** A prompt of which 272 000 tokens are written to the cache. */
  function Written(promptTokens: int): Usage {
    Usage(promptTokens, 0, promptTokens, 0, 0, 272_000, 0, 0, 0, 0, 0, 0, 0.0, 0, "", "", "", 0, "")
  }

  lemma WrittenCost(p: ModelPricing, promptTokens: int)
    requires promptTokens >= 272_000
    ensures var r := RatesAt(p, "", promptTokens);
            Cost(Written(promptTokens), p) == Scaled(promptTokens - 272_000, r.input) + Scaled(272_000, r.cacheWrite5m)
  {
    hide RatesAt;
    var u := Written(promptTokens);
    var r := EffectiveRates(u, p);
    assert ModalityCost(u, p, r) == 0.0 && CacheReadCost(u, p, r) == 0.0;
    assert RegularPrompt(u) == promptTokens - 272_000;
    assert TextCost(u, r) == Scaled(promptTokens - 272_000, r.input);
  }

  /** What goes wrong at the top tier: a prompt that fills the cache gets cheaper by one more token exactly when that
      token costs less than what is saved by forgetting the write rate of the tier below. */
  lemma OneMoreTokenCheaperIff(p: ModelPricing)
    requires p.above272k.input > 0.0
    ensures Cost(Written(272_001), p) < Cost(Written(272_000), p)
            <==> p.above272k.input + Scaled(272_000, BaseRates(p).cacheWrite5m)
                 < Scaled(272_000, RatesAt(p, "", 272_000).cacheWrite5m)
  {
    hide Cost;
    WrittenCost(p, 272_000);
    WrittenCost(p, 272_001);
    TopTierForgetsWriteRates(p, "");
    assert RatesAt(p, "", 272_001).input == p.above272k.input;
    assert Scaled(1, p.above272k.input) == p.above272k.input;
    assert Scaled(0, RatesAt(p, "", 272_000).input) == 0.0;
  }
}
