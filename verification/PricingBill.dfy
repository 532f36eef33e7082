/** The bill in figures: every token billed once, at the rate of its category, and where each rate comes from. */
module PricingBill {
  import opened PricingSpec

  // ---------------------------------------------------------------- every token once

  /** The same answer with no token set apart: all of the prompt and all of the completion regular. */
  function Plain(u: Usage): Usage {
    u.(cachedReadTokens := 0, cacheWriteTokens := 0, cacheWrite1hrTokens := 0, reasoningTokens := 0,
       audioInputTokens := 0, audioOutputTokens := 0, imageOutputTokens := 0, cachedAudioInputTokens := 0)
  }

  /** No category overdraws what it is part of. */
  predicate AddsUp(u: Usage) {
    && u.cachedReadTokens + u.cacheWriteTokens + u.cacheWrite1hrTokens + u.audioInputTokens <= u.promptTokens
    && u.reasoningTokens + u.audioOutputTokens + u.imageOutputTokens <= u.completionTokens
    && u.cachedAudioInputTokens <= u.cachedReadTokens
  }

  lemma Nothing(rate: real)
    ensures Scaled(0, rate) == 0.0
  {}

  lemma PlainParts(u: Usage, p: ModelPricing, r: Rates)
    requires u.promptTokens >= 0 && u.completionTokens >= 0
    ensures CostAt(Plain(u), p, r) ==
              Scaled(u.promptTokens, r.input) + Scaled(u.completionTokens, r.output)
              + PerSecond(u.audioInputSeconds, p.audioPerSecond) + SearchCost(u, p) + ToolUseCost(u, p, r)
  {
    hide Scaled, PerSecond;
    forall rate: real ensures Scaled(0, rate) == 0.0 { Nothing(rate); }
  }

  /** A plain answer costs its prompt at the input rate and its completion at the output rate, its audio by the second,
      its searches, and its tool use at a flat fee if there is one and at the input rate otherwise. */
  lemma PlainCost(u: Usage, p: ModelPricing)
    requires u.promptTokens >= 0 && u.completionTokens >= 0
    ensures var r := EffectiveRates(u, p);
            var toolUse := if u.toolUsePromptTokens <= 0 then 0.0 else if p.webSearch > 0.0 then p.webSearch
                           else u.toolUsePromptTokens as real * r.input;
            Cost(Plain(u), p) ==
              u.promptTokens as real * r.input + u.completionTokens as real * r.output
              + u.audioInputSeconds * p.audioPerSecond + SearchCost(u, p) + toolUse
  {
    hide RatesAt, CostAt;
    PlainParts(u, p, EffectiveRates(u, p));
    assert EffectiveRates(Plain(u), p) == EffectiveRates(u, p);
  }

  /** Moving `n` tokens to another rate. */
  lemma Moved(m: int, n: int, from_: real, to: real)
    ensures Scaled(m - n, from_) + Scaled(n, to) == Scaled(m, from_) + Scaled(n, to - from_)
  {}

  lemma MovedThree(m: int, a: int, b: int, c: int, rate: real, x: real, y: real, z: real)
    ensures Scaled(m - a - b - c, rate) + Scaled(a, x) + Scaled(b, y) + Scaled(c, z)
         == Scaled(m, rate) + Scaled(a, x - rate) + Scaled(b, y - rate) + Scaled(c, z - rate)
  {
    hide Scaled;
    Moved(m, a, rate, x);
    Moved(m - a, b, rate, y);
    Moved(m - a - b, c, rate, z);
  }

  /** What the prompt's categories change about the price. */
  function PromptMoves(u: Usage, p: ModelPricing, r: Rates): real {
    Scaled(u.cachedReadTokens - u.cachedAudioInputTokens, r.cacheRead - r.input)
    + Scaled(u.cachedAudioInputTokens, (if p.cacheReadAudio > 0.0 then p.cacheReadAudio else r.cacheRead) - r.input)
    + Scaled(u.cacheWriteTokens, r.cacheWrite5m - r.input) + Scaled(u.cacheWrite1hrTokens, r.cacheWrite1h - r.input)
    + Scaled(u.audioInputTokens, (if p.audioInput == 0.0 then r.input else p.audioInput) - r.input)
  }

  /** What the completion's categories change about the price. */
  function CompletionMoves(u: Usage, p: ModelPricing, r: Rates): real {
    Scaled(u.reasoningTokens, (if p.reasoning == 0.0 then r.output else p.reasoning) - r.output)
    + Scaled(u.audioOutputTokens, (if p.audioOutput == 0.0 then r.output else p.audioOutput) - r.output)
    + Scaled(u.imageOutputTokens, (if p.imageOutput == 0.0 then r.output else p.imageOutput) - r.output)
  }

  lemma CompletionMoved(u: Usage, p: ModelPricing, r: Rates)
    requires NonNegativeUsage(u) && AddsUp(u)
    ensures Scaled(RegularCompletion(u), r.output) + Scaled(u.reasoningTokens, Unless0(p.reasoning, r.output))
            + Scaled(u.audioOutputTokens, Unless0(p.audioOutput, r.output))
            + Scaled(u.imageOutputTokens, Unless0(p.imageOutput, r.output))
         == Scaled(u.completionTokens, r.output) + CompletionMoves(u, p, r)
  {
    hide Scaled;
    MovedThree(u.completionTokens, u.reasoningTokens, u.audioOutputTokens, u.imageOutputTokens, r.output,
               Unless0(p.reasoning, r.output), Unless0(p.audioOutput, r.output), Unless0(p.imageOutput, r.output));
  }

  lemma PromptMoved(u: Usage, p: ModelPricing, r: Rates)
    requires NonNegativeUsage(u) && AddsUp(u)
    ensures Scaled(RegularPrompt(u), r.input) + CacheReadCost(u, p, r) + CacheWriteCost(u, r)
            + Scaled(u.audioInputTokens, Unless0(p.audioInput, r.input))
         == Scaled(u.promptTokens, r.input) + PromptMoves(u, p, r)
  {
    hide Scaled;
    var rest := u.promptTokens - u.cachedReadTokens;
    var text, audio := u.cachedReadTokens - u.cachedAudioInputTokens, u.cachedAudioInputTokens;
    MovedThree(rest, u.cacheWriteTokens, u.cacheWrite1hrTokens, u.audioInputTokens, r.input,
               r.cacheWrite5m, r.cacheWrite1h, Unless0(p.audioInput, r.input));
    Moved(u.promptTokens, text, r.input, r.cacheRead);
    Moved(u.promptTokens - text, audio, r.input, if p.cacheReadAudio > 0.0 then p.cacheReadAudio else r.cacheRead);
    assert p.cacheReadAudio <= 0.0 ==> Scaled(u.cachedReadTokens, r.cacheRead) == Scaled(text, r.cacheRead) + Scaled(audio, r.cacheRead) by {
      TwoShares(text, audio, r.cacheRead);
    }
  }

  lemma TwoShares(m: int, n: int, rate: real)
    ensures Scaled(m + n, rate) == Scaled(m, rate) + Scaled(n, rate)
  {}

  /** Every prompt and completion token is billed once: setting tokens apart changes the price of the plain answer by
      each count times the difference between its own rate and the one it would have had. */
  lemma EveryTokenIsBilledOnce(u: Usage, p: ModelPricing)
    requires NonNegativeUsage(u) && AddsUp(u)
    ensures var r := EffectiveRates(u, p);
            Cost(u, p) == Cost(Plain(u), p) + PromptMoves(u, p, r) + CompletionMoves(u, p, r)
  {
    hide Scaled, RatesAt, PerSecond, PromptMoves, CompletionMoves, RegularPrompt, RegularCompletion, CacheReadCost,
      CacheWriteCost, SearchCost, ToolUseCost, Unless0;
    var r := EffectiveRates(u, p);
    assert EffectiveRates(Plain(u), p) == r;
    PlainParts(u, p, r);
    PromptMoved(u, p, r);
    CompletionMoved(u, p, r);
  }

  /** Rates that are not defined leave the price alone: reasoning, audio and image tokens then cost what any
      completion token costs. */
  lemma UndefinedRatesChangeNothing(u: Usage, p: ModelPricing)
    requires NonNegativeUsage(u) && AddsUp(u)
    requires p.reasoning == 0.0 && p.audioOutput == 0.0 && p.imageOutput == 0.0
    ensures Cost(u, p) == Cost(u.(reasoningTokens := 0, audioOutputTokens := 0, imageOutputTokens := 0), p)
  {
    hide Cost, PromptMoves;
    var v := u.(reasoningTokens := 0, audioOutputTokens := 0, imageOutputTokens := 0);
    var r := EffectiveRates(u, p);
    EveryTokenIsBilledOnce(u, p);
    EveryTokenIsBilledOnce(v, p);
    assert EffectiveRates(v, p) == r && Plain(v) == Plain(u);
    assert PromptMoves(v, p, r) == PromptMoves(u, p, r) by { SamePrompt(u, v, p, r); }
    assert CompletionMoves(u, p, r) == 0.0 == CompletionMoves(v, p, r);
  }

  lemma SamePrompt(u: Usage, v: Usage, p: ModelPricing, r: Rates)
    requires v == u.(reasoningTokens := 0, audioOutputTokens := 0, imageOutputTokens := 0)
    ensures PromptMoves(v, p, r) == PromptMoves(u, p, r)
  {}

  // ---------------------------------------------------------------- where rates come from

  /** The rates of the context tier that applies: of the tiers whose threshold is passed and whose input rate is set
      the one with the highest threshold. It gives what it sets, and leaves the rest to the base. */
  lemma ContextTiers(p: ModelPricing, tokens: int)
    ensures var r := RatesAt(p, "", tokens);
            var write1h := if p.base.cacheWrite1h == 0.0 then p.base.cacheWrite5m else p.base.cacheWrite1h;
            if tokens > 272_000 && p.above272k.input > 0.0 then
              && r.input == p.above272k.input
              && r.output == (if p.above272k.output > 0.0 then p.above272k.output else p.base.output)
              && r.cacheRead == (if p.above272k.cacheRead > 0.0 then p.above272k.cacheRead else p.base.cacheRead)
              && r.cacheWrite5m == p.base.cacheWrite5m && r.cacheWrite1h == write1h
            else if tokens > 200_000 && p.above200k.input > 0.0 then
              && r.input == p.above200k.input
              && r.output == (if p.above200k.output > 0.0 then p.above200k.output else p.base.output)
              && r.cacheRead == (if p.above200k.cacheRead > 0.0 then p.above200k.cacheRead else p.base.cacheRead)
              && r.cacheWrite5m == (if p.above200k.cacheWrite5m > 0.0 then p.above200k.cacheWrite5m else p.base.cacheWrite5m)
              && r.cacheWrite1h == (if p.above200k.cacheWrite1h > 0.0 then p.above200k.cacheWrite1h
                                    else if p.above200k.cacheWrite5m > 0.0 then p.above200k.cacheWrite5m else write1h)
            else if tokens > 128_000 && p.above128k.input > 0.0 then
              && r.input == p.above128k.input
              && r.output == (if p.above128k.output > 0.0 then p.above128k.output else p.base.output)
              && r.cacheRead == p.base.cacheRead && r.cacheWrite5m == p.base.cacheWrite5m && r.cacheWrite1h == write1h
            else r == p.base.(cacheWrite1h := write1h)
  {}

  /** A service tier replaces the rates of the context tier by those its variant sets, if that sets an input rate. The
      priority variant is the one for the highest threshold passed that has one. */
  lemma ServiceTiers(p: ModelPricing, tier: string, tokens: int)
    ensures var r, context := RatesAt(p, tier, tokens), RatesAt(p, "", tokens);
            var variant :=
              if tier == "flex" then p.flex
              else if tier == "batch" then Variant(p.batches.input, p.batches.output, 0.0)
              else if tier != "priority" then Variant(0.0, 0.0, 0.0)
              else if tokens > 272_000 && p.priority272k.input > 0.0 then p.priority272k
              else if tokens > 200_000 && p.priority200k.input > 0.0 then p.priority200k
              else p.priority;
            && r.cacheWrite5m == context.cacheWrite5m && r.cacheWrite1h == context.cacheWrite1h
            && (variant.input <= 0.0 ==> r == context)
            && (variant.input > 0.0 ==>
                  && r.input == variant.input
                  && r.output == (if variant.output > 0.0 then variant.output else context.output)
                  && r.cacheRead == (if variant.cacheRead > 0.0 then variant.cacheRead else context.cacheRead))
  {}

  /** Tiers are chosen by the tiering count, or by the prompt without one. */
  lemma TiersByPrompt(u: Usage, p: ModelPricing)
    ensures EffectiveRates(u, p) == RatesAt(p, u.serviceTier, if u.tieringTokens != 0 then u.tieringTokens else u.promptTokens)
  {}

  /** One search: priced by its context size when the entry lists any, and by the flat rate otherwise. */
  lemma OneSearch(u: Usage, p: ModelPricing)
    requires u.webSearchRequests == 1 && u.searchContextSize != ""
    ensures var key := "search_context_size_" + u.searchContextSize;
            && (p.searchContext == map[] ==> SearchCost(u, p) == if p.webSearch > 0.0 then p.webSearch else 0.0)
            && (key in p.searchContext ==> SearchCost(u, p) == p.searchContext[key])
            && (p.searchContext != map[] && key !in p.searchContext ==> SearchCost(u, p) == 0.0)
  {
    if |p.searchContext| == 0 { assert p.searchContext == map[]; }
  }
}
