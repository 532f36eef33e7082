/** Price resolution and cost calculation as the policy carries them out. */
module Pricing {
  import opened PricingSpec

  /** Overwrites the rates step by step: context tier first, service tier on top. */
  method ResolveRates(u: Usage, p: ModelPricing) returns (r: Rates)
    ensures r == EffectiveRates(u, p)
  {
    r := p.base;
    if r.cacheWrite1h == 0.0 { r := r.(cacheWrite1h := r.cacheWrite5m); }
    var tierTokens := u.tieringTokens;
    if tierTokens == 0 { tierTokens := u.promptTokens; }

    if tierTokens > 272_000 && p.above272k.input > 0.0 {
      r := r.(input := p.above272k.input);
      if p.above272k.output > 0.0 { r := r.(output := p.above272k.output); }
      if p.above272k.cacheRead > 0.0 { r := r.(cacheRead := p.above272k.cacheRead); }
    } else if tierTokens > 200_000 && p.above200k.input > 0.0 {
      r := r.(input := p.above200k.input);
      if p.above200k.output > 0.0 { r := r.(output := p.above200k.output); }
      if p.above200k.cacheRead > 0.0 { r := r.(cacheRead := p.above200k.cacheRead); }
      if p.above200k.cacheWrite5m > 0.0 {
        r := r.(cacheWrite5m := p.above200k.cacheWrite5m);
        r := r.(cacheWrite1h := p.above200k.cacheWrite5m);
      }
      if p.above200k.cacheWrite1h > 0.0 { r := r.(cacheWrite1h := p.above200k.cacheWrite1h); }
    } else if tierTokens > 128_000 && p.above128k.input > 0.0 {
      r := r.(input := p.above128k.input);
      if p.above128k.output > 0.0 { r := r.(output := p.above128k.output); }
    }
    assert r == ContextRates(p, tierTokens);
    r := OverrideByService(r, u.serviceTier, tierTokens, p);
  }

  method OverrideByService(context: Rates, serviceTier: string, tierTokens: int, p: ModelPricing) returns (r: Rates)
    ensures r == var v := ServiceVariant(p, serviceTier, tierTokens);
                 if v.input > 0.0 then Over(context, v) else context
  {
    r := context;
    match serviceTier {
      case "priority" =>
        if tierTokens > 272_000 && p.priority272k.input > 0.0 {
          r := r.(input := p.priority272k.input);
          if p.priority272k.output > 0.0 { r := r.(output := p.priority272k.output); }
          if p.priority272k.cacheRead > 0.0 { r := r.(cacheRead := p.priority272k.cacheRead); }
        } else if tierTokens > 200_000 && p.priority200k.input > 0.0 {
          r := r.(input := p.priority200k.input);
          if p.priority200k.output > 0.0 { r := r.(output := p.priority200k.output); }
          if p.priority200k.cacheRead > 0.0 { r := r.(cacheRead := p.priority200k.cacheRead); }
        } else if p.priority.input > 0.0 {
          r := r.(input := p.priority.input);
          if p.priority.output > 0.0 { r := r.(output := p.priority.output); }
          if p.priority.cacheRead > 0.0 { r := r.(cacheRead := p.priority.cacheRead); }
        }
      case "flex" =>
        if p.flex.input > 0.0 {
          r := r.(input := p.flex.input);
          if p.flex.output > 0.0 { r := r.(output := p.flex.output); }
          if p.flex.cacheRead > 0.0 { r := r.(cacheRead := p.flex.cacheRead); }
        }
      case "batch" =>
        if p.batches.input > 0.0 {
          r := r.(input := p.batches.input);
          if p.batches.output > 0.0 { r := r.(output := p.batches.output); }
        }
      case _ =>
    }
  }

  method GenericCalculateCost(u: Usage, p: ModelPricing) returns (cost: real)
    ensures cost == Cost(u, p)
  {
    hide RatesAt, Scaled, PerSecond;
    var r := ResolveRates(u, p);
    var regularPrompt :=
      u.promptTokens - u.cachedReadTokens - u.cacheWriteTokens - u.cacheWrite1hrTokens - u.audioInputTokens;
    if regularPrompt < 0 { regularPrompt := 0; }
    var regularCompletion := u.completionTokens - u.reasoningTokens - u.audioOutputTokens - u.imageOutputTokens;
    if regularCompletion < 0 { regularCompletion := 0; }
    var cacheRead: real;
    if p.cacheReadAudio > 0.0 {
      var textCached := u.cachedReadTokens - u.cachedAudioInputTokens;
      if textCached < 0 { textCached := 0; }
      cacheRead := Scaled(textCached, r.cacheRead) + Scaled(u.cachedAudioInputTokens, p.cacheReadAudio);
    } else {
      cacheRead := Scaled(u.cachedReadTokens, r.cacheRead);
    }
    var reasoningRate, audioInputRate, audioOutputRate, imageOutputRate :=
      p.reasoning, p.audioInput, p.audioOutput, p.imageOutput;
    if reasoningRate == 0.0 { reasoningRate := r.output; }
    if audioInputRate == 0.0 { audioInputRate := r.input; }
    if audioOutputRate == 0.0 { audioOutputRate := r.output; }
    if imageOutputRate == 0.0 { imageOutputRate := r.output; }
    var search := WebSearchCost(u, p);
    var toolUse := 0.0;
    if u.toolUsePromptTokens > 0 {
      if p.webSearch > 0.0 { toolUse := p.webSearch; } else { toolUse := Scaled(u.toolUsePromptTokens, r.input); }
    }
    assert CacheReadCost(u, p, r) == cacheRead && ToolUseCost(u, p, r) == toolUse;
    assert ModalityCost(u, p, r) ==
           Scaled(u.reasoningTokens, reasoningRate) + Scaled(u.audioInputTokens, audioInputRate)
           + Scaled(u.audioOutputTokens, audioOutputRate) + Scaled(u.imageOutputTokens, imageOutputRate)
           + PerSecond(u.audioInputSeconds, p.audioPerSecond);
    cost := Scaled(regularPrompt, r.input) + Scaled(regularCompletion, r.output) + cacheRead
            + (Scaled(u.cacheWriteTokens, r.cacheWrite5m) + Scaled(u.cacheWrite1hrTokens, r.cacheWrite1h))
            + Scaled(u.reasoningTokens, reasoningRate) + search + toolUse
            + Scaled(u.audioInputTokens, audioInputRate) + Scaled(u.audioOutputTokens, audioOutputRate)
            + Scaled(u.imageOutputTokens, imageOutputRate) + PerSecond(u.audioInputSeconds, p.audioPerSecond);
  }

  method WebSearchCost(u: Usage, p: ModelPricing) returns (cost: real)
    ensures cost == SearchCost(u, p)
  {
    cost := 0.0;
    if u.webSearchRequests > 0 {
      if |p.searchContext| > 0 {
        var size := u.searchContextSize;
        if size == "" { size := "medium"; }
        var key := "search_context_size_" + size;
        if key in p.searchContext { cost := Scaled(u.webSearchRequests, p.searchContext[key]); }
      } else if p.webSearch > 0.0 {
        cost := Scaled(u.webSearchRequests, p.webSearch);
      }
    }
  }
}
