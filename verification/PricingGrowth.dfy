/** Exactly when the base cost never falls as a prompt grows, on the usages the calculators make. */
module PricingGrowth {
  import opened PricingSpec

  // ---------------------------------------------------------------- what the calculators make

  /** The service tiers a calculator reports. */
  predicate IsServiceTier(tier: string) { tier == "" || tier == "priority" || tier == "flex" || tier == "batch" }

  /** OpenAI, also as Bedrock converts its answers to it, with cache writes beside. */
  predicate OpenAIShape(u: Usage) {
    && u.tieringTokens == 0 && IsServiceTier(u.serviceTier)
    && u.cachedAudioInputTokens == 0 && u.imageOutputTokens == 0 && u.audioInputSeconds == 0.0
    && u.toolUsePromptTokens == 0
  }

  predicate GeminiShape(u: Usage) {
    && u.tieringTokens == 0 && IsServiceTier(u.serviceTier) && u.serviceTier != "batch"
    && u.cacheWriteTokens == 0 && u.cacheWrite1hrTokens == 0 && u.audioInputSeconds == 0.0
  }

  /** Mistral, and Titan without the seconds. */
  predicate MistralShape(u: Usage) {
    && u.tieringTokens == 0 && u.serviceTier == "" && u.toolUsePromptTokens == 0
    && u.cachedReadTokens == 0 && u.cacheWriteTokens == 0 && u.cacheWrite1hrTokens == 0 && u.reasoningTokens == 0
    && u.audioInputTokens == 0 && u.audioOutputTokens == 0 && u.imageOutputTokens == 0
    && u.cachedAudioInputTokens == 0
  }

  /** Anthropic and native Bedrock, which tier on a prompt count that includes the cache. */
  predicate InclusiveShape(u: Usage) {
    && u.tieringTokens == u.promptTokens && u.serviceTier == "" && u.toolUsePromptTokens == 0
    && u.reasoningTokens == 0 && u.audioInputTokens == 0 && u.audioOutputTokens == 0 && u.imageOutputTokens == 0
    && u.cachedAudioInputTokens == 0 && u.audioInputSeconds == 0.0
  }

  predicate Made(u: Usage) {
    NonNegativeUsage(u) && (OpenAIShape(u) || GeminiShape(u) || MistralShape(u) || InclusiveShape(u))
  }

  /** The prompt tokens billed in a category of their own. */
  function Carved(u: Usage): int {
    u.cachedReadTokens + u.cacheWriteTokens + u.cacheWrite1hrTokens + u.audioInputTokens
  }

  /** A provider's counts in which no category overdraws the prompt. */
  predicate Fits(u: Usage) { Carved(u) <= u.promptTokens }

  /** The promise: of two answers that differ in the prompt alone, the one with the longer prompt costs no less. With
      `fitting` it is made for fitting counts only. */
  ghost predicate CostNeverFalls(p: ModelPricing, tier: string, fitting: bool) {
    forall u, v :: Made(u) && Made(v) && u.serviceTier == tier && Grows(u, v) && (fitting ==> Fits(u)) ==>
                     Cost(u, p) <= Cost(v, p)
  }

  // ---------------------------------------------------------------- the condition

  predicate IsThreshold(t: int) { t == 128_000 || t == 200_000 || t == 272_000 }

  /** Crossing `t` by one token lowers no bill of completions, of tool use, or of a plain prompt; the one token more
      may make up for a lower input rate. */
  predicate CommonStep(p: ModelPricing, tier: string, t: int) {
    var r, s := RatesAt(p, tier, t), RatesAt(p, tier, t + 1);
    && Scaled(t, r.input) <= Scaled(t + 1, s.input)
    && r.output <= s.output
    && (p.webSearch <= 0.0 && tier != "batch" ==> r.input <= s.input)
  }

  /** With overdrawn counts the carved-out tokens get no such help: their rates must not fall. */
  predicate AnyStep(p: ModelPricing, tier: string, t: int) {
    var r, s := RatesAt(p, tier, t), RatesAt(p, tier, t + 1);
    && CommonStep(p, tier, t)
    && r.cacheRead <= s.cacheRead && r.cacheWrite5m <= s.cacheWrite5m && r.cacheWrite1h <= s.cacheWrite1h
    && (p.audioInput == 0.0 ==> r.input <= s.input)
  }

  /** With fitting counts it is enough that the one token more makes up for a whole prompt of any category. */
  predicate FittingStep(p: ModelPricing, tier: string, t: int) {
    var r, s := RatesAt(p, tier, t), RatesAt(p, tier, t + 1);
    && CommonStep(p, tier, t)
    && Scaled(t, r.cacheRead) <= Scaled(t, s.cacheRead) + s.input
    && Scaled(t, r.cacheWrite5m) <= Scaled(t, s.cacheWrite5m) + s.input
    && Scaled(t, r.cacheWrite1h) <= Scaled(t, s.cacheWrite1h) + s.input
  }

  predicate Step(p: ModelPricing, tier: string, t: int, fitting: bool) {
    if fitting then FittingStep(p, tier, t) else AnyStep(p, tier, t)
  }

  // ---------------------------------------------------------------- the price as a function of the prompt

  function AtPrompt(u: Usage, prompt: int): Usage { u.(promptTokens := prompt, tieringTokens := 0) }

  function Price(u: Usage, p: ModelPricing, prompt: int): real {
    CostAt(AtPrompt(u, prompt), p, RatesAt(p, u.serviceTier, prompt))
  }

  /** Every calculator tiers on the prompt count. */
  lemma CostIsPrice(u: Usage, p: ModelPricing)
    requires Made(u)
    ensures Cost(u, p) == Price(u, p, u.promptTokens)
  {
    hide RatesAt;
    assert TierTokens(u) == u.promptTokens;
  }

  lemma WithinBand(u: Usage, p: ModelPricing, low: int, high: int)
    requires NonNegativeUsage(u) && NonNegativePricing(p) && 0 <= low <= high && Band(low) == Band(high)
    ensures Price(u, p, low) <= Price(u, p, high)
  {
    hide RatesAt, TextCost, CacheReadCost, CacheWriteCost, ModalityCost, ToolUseCost;
    RatesDependOnBand(p, u.serviceTier, low);
    RatesDependOnBand(p, u.serviceTier, high);
    RatesAreNonNegative(p, u.serviceTier, low);
    var r := RatesAt(p, u.serviceTier, low);
    TextAndCacheAreMonotone(AtPrompt(u, low), AtPrompt(u, high), p, r, r);
    SameModality(AtPrompt(u, low), AtPrompt(u, high), p, r);
  }

  /** Prices that fall at no threshold fall nowhere. */
  lemma {:induction false} AcrossBands(u: Usage, p: ModelPricing, low: int, high: int)
    requires NonNegativeUsage(u) && NonNegativePricing(p) && 0 <= low <= high
    requires forall t :: IsThreshold(t) && low <= t < high ==> Price(u, p, t) <= Price(u, p, t + 1)
    ensures Price(u, p, low) <= Price(u, p, high)
    decreases high - low
  {
    hide Price;
    if Band(low) == Band(high) {
      WithinBand(u, p, low, high);
    } else {
      var t := if low <= 128_000 then 128_000 else if low <= 200_000 then 200_000 else 272_000;
      WithinBand(u, p, low, t);
      assert Price(u, p, t) <= Price(u, p, t + 1);
      AcrossBands(u, p, t + 1, high);
    }
  }

  // ---------------------------------------------------------------- the condition is enough

  /** One more token makes up for a lower rate on any part of the prompt. */
  lemma RegularStep(t: int, k: int, r: real, s: real)
    requires t > 0 && k >= 0 && r >= 0.0 && s >= 0.0 && Scaled(t, r) <= Scaled(t + 1, s)
    ensures Scaled(AtLeastZero(t - k), r) <= Scaled(AtLeastZero(t + 1 - k), s)
  {
    if t > k {
      var x, y, a := t as real, (t + 1) as real, (t - k) as real;
      assert x * (a * r) == a * (x * r) <= a * (y * s) == (a * y) * s;
      assert a * y <= x * (a + 1.0);
      assert (a * y) * s <= (x * (a + 1.0)) * s == x * ((a + 1.0) * s);
      CancelFactor(x, a * r, (a + 1.0) * s);
    } else {
      assert Scaled(0, r) == 0.0 && Scaled(AtLeastZero(t + 1 - k), s) >= 0.0;
    }
  }

  lemma CancelFactor(x: real, a: real, b: real)
    requires x > 0.0 && x * a <= x * b
    ensures a <= b
  {}

  /** A category whose whole prompt loses no more than `e`. */
  lemma CategoryStep(t: int, n: int, a: real, b: real, e: real)
    requires t > 0 && n >= 0 && Scaled(t, a) <= Scaled(t, b) + e
    ensures Scaled(t, Scaled(n, a)) <= Scaled(t, Scaled(n, b)) + Scaled(n, e)
  {
    var x, y := t as real, n as real;
    assert y * (x * a) <= y * (x * b + e) == y * (x * b) + y * e;
    assert y * (x * a) == x * (y * a) && y * (x * b) == x * (y * b);
  }

  lemma WholeShare(t: int, n: int, a: real, b: real, e: real)
    requires t > 0 && n <= t && e >= 0.0 && Scaled(t, a) <= Scaled(t, b) + Scaled(n, e)
    ensures a <= b + e
  {
    hide Scaled;
    Distributes(t, b, e);
    FewerCostLess(n, t, e);
    CancelScaled(t, a, b + e);
  }

  lemma FewerCostLess(n: int, m: int, rate: real)
    requires n <= m && rate >= 0.0
    ensures Scaled(n, rate) <= Scaled(m, rate)
  {
    var x, y := n as real, m as real;
    assert (y - x) * rate >= 0.0;
  }

  lemma CancelScaled(t: int, a: real, b: real)
    requires t > 0 && Scaled(t, a) <= Scaled(t, b)
    ensures a <= b
  {
    CancelFactor(t as real, a, b);
  }

  /** Categories that share a prompt of `t` tokens lose no more than `e` together. */
  lemma SharedStep(t: int, n: seq<int>, a: seq<real>, b: seq<real>, e: real)
    requires t > 0 && e >= 0.0 && |n| == |a| == |b| && Sum(n) <= t
    requires forall i :: 0 <= i < |n| ==> n[i] >= 0 && Scaled(t, a[i]) <= Scaled(t, b[i]) + e
    ensures Bill(n, a) <= Bill(n, b) + e
  {
    hide Bill, Sum;
    SharedBills(t, n, a, b, e);
    WholeShare(t, Sum(n), Bill(n, a), Bill(n, b), e);
  }

  function Sum(n: seq<int>): int { if n == [] then 0 else n[0] + Sum(n[1..]) }

  function Bill(n: seq<int>, rates: seq<real>): real
    requires |n| == |rates|
  {
    if n == [] then 0.0 else Scaled(n[0], rates[0]) + Bill(n[1..], rates[1..])
  }

  lemma {:induction false} SharedBills(t: int, n: seq<int>, a: seq<real>, b: seq<real>, e: real)
    requires t > 0 && |n| == |a| == |b|
    requires forall i :: 0 <= i < |n| ==> n[i] >= 0 && Scaled(t, a[i]) <= Scaled(t, b[i]) + e
    ensures Scaled(t, Bill(n, a)) <= Scaled(t, Bill(n, b)) + Scaled(Sum(n), e)
    decreases |n|
  {
    if n == [] {
      assert Scaled(t, 0.0) == 0.0 && Scaled(0, e) == 0.0;
    } else {
      SharedBills(t, n[1..], a[1..], b[1..], e);
      CategoryStep(t, n[0], a[0], b[0], e);
      Distributes(t, Scaled(n[0], a[0]), Bill(n[1..], a[1..]));
      Distributes(t, Scaled(n[0], b[0]), Bill(n[1..], b[1..]));
      assert Scaled(Sum(n), e) == Scaled(n[0], e) + Scaled(Sum(n[1..]), e);
    }
  }

  lemma Distributes(t: int, a: real, b: real)
    ensures Scaled(t, a + b) == Scaled(t, a) + Scaled(t, b)
  {}

  /** What does not depend on how the prompt is carved up. */
  function Unprompted(u: Usage, p: ModelPricing, r: Rates): real {
    Scaled(RegularCompletion(u), r.output) + Scaled(u.reasoningTokens, Unless0(p.reasoning, r.output))
    + Scaled(u.audioOutputTokens, Unless0(p.audioOutput, r.output))
    + Scaled(u.imageOutputTokens, Unless0(p.imageOutput, r.output)) + PerSecond(u.audioInputSeconds, p.audioPerSecond)
    + SearchCost(u, p) + ToolUseCost(u, p, r)
  }

  /** Cached tokens billed at the text rate, and the audio among them. */
  function CachedText(u: Usage, p: ModelPricing): int {
    if p.cacheReadAudio > 0.0 then AtLeastZero(u.cachedReadTokens - u.cachedAudioInputTokens) else u.cachedReadTokens
  }

  function CachedAudioCost(u: Usage, p: ModelPricing): real {
    if p.cacheReadAudio > 0.0 then Scaled(u.cachedAudioInputTokens, p.cacheReadAudio) else 0.0
  }

  lemma PriceParts(u: Usage, p: ModelPricing, r: Rates)
    ensures CostAt(u, p, r) ==
              Scaled(RegularPrompt(u), r.input) + Scaled(CachedText(u, p), r.cacheRead)
              + Scaled(u.cacheWriteTokens, r.cacheWrite5m) + Scaled(u.cacheWrite1hrTokens, r.cacheWrite1h)
              + Scaled(u.audioInputTokens, Unless0(p.audioInput, r.input)) + CachedAudioCost(u, p) + Unprompted(u, p, r)
  {
    hide Scaled, PerSecond;
  }

  lemma UnpromptedStep(u: Usage, p: ModelPricing, t: int)
    requires Made(u) && NonNegativePricing(p) && t > 0 && CommonStep(p, u.serviceTier, t)
    ensures Unprompted(AtPrompt(u, t), p, RatesAt(p, u.serviceTier, t))
         <= Unprompted(AtPrompt(u, t + 1), p, RatesAt(p, u.serviceTier, t + 1))
  {
    hide Scaled, RatesAt;
    var r, s := RatesAt(p, u.serviceTier, t), RatesAt(p, u.serviceTier, t + 1);
    RatesAreNonNegative(p, u.serviceTier, t);
    ScaledIsMonotone(RegularCompletion(u), RegularCompletion(u), r.output, s.output);
    ScaledIsMonotone(u.reasoningTokens, u.reasoningTokens, Unless0(p.reasoning, r.output), Unless0(p.reasoning, s.output));
    ScaledIsMonotone(u.audioOutputTokens, u.audioOutputTokens,
                     Unless0(p.audioOutput, r.output), Unless0(p.audioOutput, s.output));
    ScaledIsMonotone(u.imageOutputTokens, u.imageOutputTokens,
                     Unless0(p.imageOutput, r.output), Unless0(p.imageOutput, s.output));
    if u.toolUsePromptTokens > 0 && p.webSearch <= 0.0 {
      ScaledIsMonotone(u.toolUsePromptTokens, u.toolUsePromptTokens, r.input, s.input);
    }
  }

  lemma AnyStepSuffices(u: Usage, p: ModelPricing, t: int)
    requires Made(u) && NonNegativePricing(p) && t > 0 && AnyStep(p, u.serviceTier, t)
    ensures Price(u, p, t) <= Price(u, p, t + 1)
  {
    hide Scaled, RatesAt, CostAt, Unprompted;
    var r, s := RatesAt(p, u.serviceTier, t), RatesAt(p, u.serviceTier, t + 1);
    var a, b := AtPrompt(u, t), AtPrompt(u, t + 1);
    RatesAreNonNegative(p, u.serviceTier, t);
    RatesAreNonNegative(p, u.serviceTier, t + 1);
    PriceParts(a, p, r);
    PriceParts(b, p, s);
    UnpromptedStep(u, p, t);
    RegularStep(t, Carved(u), r.input, s.input);
    ScaledIsMonotone(CachedText(u, p), CachedText(u, p), r.cacheRead, s.cacheRead);
    ScaledIsMonotone(u.cacheWriteTokens, u.cacheWriteTokens, r.cacheWrite5m, s.cacheWrite5m);
    ScaledIsMonotone(u.cacheWrite1hrTokens, u.cacheWrite1hrTokens, r.cacheWrite1h, s.cacheWrite1h);
    ScaledIsMonotone(u.audioInputTokens, u.audioInputTokens, Unless0(p.audioInput, r.input), Unless0(p.audioInput, s.input));
  }

  lemma FittingStepSuffices(u: Usage, p: ModelPricing, t: int)
    requires Made(u) && NonNegativePricing(p) && t > 0 && Carved(u) <= t && FittingStep(p, u.serviceTier, t)
    ensures Price(u, p, t) <= Price(u, p, t + 1)
  {
    hide Scaled, RatesAt, CostAt, Unprompted;
    var r, s := RatesAt(p, u.serviceTier, t), RatesAt(p, u.serviceTier, t + 1);
    var a, b := AtPrompt(u, t), AtPrompt(u, t + 1);
    RatesAreNonNegative(p, u.serviceTier, t + 1);
    PriceParts(a, p, r);
    PriceParts(b, p, s);
    UnpromptedStep(u, p, t);
    var n := [t - Carved(u), CachedText(u, p), u.cacheWriteTokens, u.cacheWrite1hrTokens, u.audioInputTokens];
    var x := [r.input, r.cacheRead, r.cacheWrite5m, r.cacheWrite1h, Unless0(p.audioInput, r.input)];
    var y := [s.input, s.cacheRead, s.cacheWrite5m, s.cacheWrite1h, Unless0(p.audioInput, s.input)];
    OneMore(t, s.input);
    OneMore(t - Carved(u), s.input);
    FiveBills(n, x);
    FiveBills(n, y);
    SharedStep(t, n, x, y, s.input);
  }

  lemma OneMore(n: int, rate: real)
    ensures Scaled(n + 1, rate) == Scaled(n, rate) + rate
  {}

  lemma FiveBills(n: seq<int>, rates: seq<real>)
    requires |n| == |rates| == 5
    ensures Sum(n) == n[0] + n[1] + n[2] + n[3] + n[4]
    ensures Bill(n, rates) == Scaled(n[0], rates[0]) + Scaled(n[1], rates[1]) + Scaled(n[2], rates[2])
                              + Scaled(n[3], rates[3]) + Scaled(n[4], rates[4])
  {
    hide Scaled;
    forall i | 0 <= i < 5
      ensures Sum(n[i..]) == n[i] + Sum(n[i + 1..])
      ensures Bill(n[i..], rates[i..]) == Scaled(n[i], rates[i]) + Bill(n[i + 1..], rates[i + 1..])
    {
      assert n[i..][1..] == n[i + 1..] && rates[i..][1..] == rates[i + 1..];
    }
    assert n[0..] == n && rates[0..] == rates;
    assert Sum(n[5..]) == 0 && Bill(n[5..], rates[5..]) == 0.0;
  }

  // ---------------------------------------------------------------- the condition is needed

  datatype Category = Completion | CacheRead | Write5m | Write1h | AudioIn | ToolUse

  /** A prompt with `n` tokens of one more category, as the OpenAI calculators report it, or Gemini's for tool use. */
  function Sample(tier: string, prompt: int, c: Category, n: int): Usage {
    Usage(prompt, if c.Completion? then n else 0, 0, 0,
          if c.CacheRead? then n else 0, if c.Write5m? then n else 0, if c.Write1h? then n else 0, 0,
          if c.AudioIn? then n else 0, 0, 0, 0, 0.0, if c.ToolUse? then n else 0, tier, "", "", 0, "")
  }

  function RateOf(p: ModelPricing, r: Rates, c: Category): real {
    match c
    case Completion => r.output
    case CacheRead => r.cacheRead
    case Write5m => r.cacheWrite5m
    case Write1h => r.cacheWrite1h
    case AudioIn => Unless0(p.audioInput, r.input)
    case ToolUse => r.input
  }

  predicate InPrompt(c: Category) { !c.Completion? && !c.ToolUse? }

  /** `n` tokens of a category cost `n` times its rate, and what they leave of the prompt costs the input rate. */
  lemma SampleCost(p: ModelPricing, tier: string, prompt: int, c: Category, n: int)
    requires prompt >= 0 && n >= 0 && (c.ToolUse? ==> p.webSearch <= 0.0)
    ensures var r := RatesAt(p, tier, prompt);
            Cost(Sample(tier, prompt, c, n), p) ==
              Scaled(if InPrompt(c) then AtLeastZero(prompt - n) else prompt, r.input) + Scaled(n, RateOf(p, r, c))
  {
    hide RatesAt, Scaled, PerSecond;
    var u := Sample(tier, prompt, c, n);
    var r := EffectiveRates(u, p);
    assert forall x :: Scaled(0, x) == 0.0 by { NothingCosts(); }
    assert PerSecond(0.0, p.audioPerSecond) == 0.0 by { NothingCosts(); }
    PriceParts(u, p, r);
  }

  lemma NothingCosts()
    ensures forall x :: Scaled(0, x) == 0.0 && PerSecond(0.0, x) == 0.0
  {}

  /** The promise for one pair of samples. */
  lemma SampleStep(p: ModelPricing, tier: string, fitting: bool, t: int, c: Category, n: int)
    requires CostNeverFalls(p, tier, fitting) && IsServiceTier(tier) && t > 0 && n >= 0
    requires c.ToolUse? ==> p.webSearch <= 0.0 && tier != "batch"
    requires fitting && InPrompt(c) ==> n <= t
    ensures var r, s := RatesAt(p, tier, t), RatesAt(p, tier, t + 1);
            Scaled(if InPrompt(c) then AtLeastZero(t - n) else t, r.input) + Scaled(n, RateOf(p, r, c))
            <= Scaled(if InPrompt(c) then AtLeastZero(t + 1 - n) else t + 1, s.input) + Scaled(n, RateOf(p, s, c))
  {
    hide RatesAt, Scaled, Cost;
    SampleCost(p, tier, t, c, n);
    SampleCost(p, tier, t + 1, c, n);
    var u, v := Sample(tier, t, c, n), Sample(tier, t + 1, c, n);
    assert Made(u) && Made(v) && Grows(u, v) && (fitting ==> Fits(u));
  }

  /** Enough tokens outweigh any fixed difference. */
  lemma Overtakes(a: real, b: real, e: real) returns (n: nat)
    requires a > b
    ensures Scaled(n, a) > Scaled(n, b) + e
  {
    var d := a - b;
    n := if e < 0.0 then 0 else (e / d).Floor + 1;
    if e >= 0.0 {
      assert n as real > e / d && (e / d) * d == e;
      assert n as real * d > e;
    }
    assert n as real * a == n as real * b + n as real * d;
  }

  lemma Outweighs(a: real, b: real, e: real)
    requires forall n: nat :: Scaled(n, a) <= Scaled(n, b) + e
    ensures a <= b
  {
    if a > b { var n := Overtakes(a, b, e); }
  }

  lemma CommonIsNeeded(p: ModelPricing, tier: string, fitting: bool, t: int)
    requires CostNeverFalls(p, tier, fitting) && IsServiceTier(tier) && t > 0
    ensures CommonStep(p, tier, t)
  {
    hide RatesAt, Scaled, CostNeverFalls;
    var r, s := RatesAt(p, tier, t), RatesAt(p, tier, t + 1);
    NothingCosts();
    SampleStep(p, tier, fitting, t, Completion, 0);
    var e := Scaled(t + 1, s.input) - Scaled(t, r.input);
    forall n: nat
      ensures Scaled(n, r.output) <= Scaled(n, s.output) + e
    {
      SampleStep(p, tier, fitting, t, Completion, n);
    }
    Outweighs(r.output, s.output, e);
    if p.webSearch <= 0.0 && tier != "batch" {
      forall n: nat
        ensures Scaled(n, r.input) <= Scaled(n, s.input) + e
      {
        SampleStep(p, tier, fitting, t, ToolUse, n);
      }
      Outweighs(r.input, s.input, e);
    }
  }

  /** An overdrawn prompt shows the category's own rates. */
  lemma OverdrawnShowsRate(p: ModelPricing, tier: string, t: int, c: Category)
    requires CostNeverFalls(p, tier, false) && IsServiceTier(tier) && t > 0 && InPrompt(c)
    ensures RateOf(p, RatesAt(p, tier, t), c) <= RateOf(p, RatesAt(p, tier, t + 1), c)
  {
    hide RatesAt, CostNeverFalls;
    SampleStep(p, tier, false, t, c, t + 1);
    var a, b := RateOf(p, RatesAt(p, tier, t), c), RateOf(p, RatesAt(p, tier, t + 1), c);
    NothingCosts();
    assert Scaled(t + 1, a) <= Scaled(t + 1, b);
    CancelFactor((t + 1) as real, a, b);
  }

  lemma StepIsNeeded(p: ModelPricing, tier: string, fitting: bool, t: int)
    requires CostNeverFalls(p, tier, fitting) && IsServiceTier(tier) && t > 0
    ensures Step(p, tier, t, fitting)
  {
    hide RatesAt, Scaled, CostNeverFalls;
    CommonIsNeeded(p, tier, fitting, t);
    if fitting {
      NothingCosts();
      OneMore(0, RatesAt(p, tier, t + 1).input);
      SampleStep(p, tier, true, t, CacheRead, t);
      SampleStep(p, tier, true, t, Write5m, t);
      SampleStep(p, tier, true, t, Write1h, t);
    } else {
      OverdrawnShowsRate(p, tier, t, CacheRead);
      OverdrawnShowsRate(p, tier, t, Write5m);
      OverdrawnShowsRate(p, tier, t, Write1h);
      OverdrawnShowsRate(p, tier, t, AudioIn);
    }
  }

  // ---------------------------------------------------------------- both ways

  lemma StepsSuffice(p: ModelPricing, tier: string, fitting: bool, u: Usage, v: Usage)
    requires NonNegativePricing(p) && forall t :: IsThreshold(t) ==> Step(p, tier, t, fitting)
    requires Made(u) && Made(v) && u.serviceTier == tier && Grows(u, v) && (fitting ==> Fits(u))
    ensures Cost(u, p) <= Cost(v, p)
  {
    hide Price, AnyStep, FittingStep, Cost;
    CostIsPrice(u, p);
    CostIsPrice(v, p);
    SamePrice(u, v, p);
    forall t | IsThreshold(t) && u.promptTokens <= t < v.promptTokens
      ensures Price(u, p, t) <= Price(u, p, t + 1)
    {
      assert Step(p, tier, t, fitting);
      if fitting { FittingStepSuffices(u, p, t); } else { AnyStepSuffices(u, p, t); }
    }
    AcrossBands(u, p, u.promptTokens, v.promptTokens);
  }

  lemma SamePrice(u: Usage, v: Usage, p: ModelPricing)
    requires Grows(u, v)
    ensures Price(u, p, v.promptTokens) == Price(v, p, v.promptTokens)
  {
    assert AtPrompt(u, v.promptTokens) == AtPrompt(v, v.promptTokens);
  }

  /** The base cost of what the calculators make never falls as the prompt grows exactly when the entry passes the
      check at the three thresholds, for counts that may overdraw the prompt and for counts that fit it. */
  lemma CostNeverFallsIff(p: ModelPricing, tier: string, fitting: bool)
    requires NonNegativePricing(p) && IsServiceTier(tier)
    ensures CostNeverFalls(p, tier, fitting) <==> forall t :: IsThreshold(t) ==> Step(p, tier, t, fitting)
  {
    hide Cost, Step, Made;
    if CostNeverFalls(p, tier, fitting) {
      forall t | IsThreshold(t)
        ensures Step(p, tier, t, fitting)
      {
        StepIsNeeded(p, tier, fitting, t);
      }
    }
    if forall t :: IsThreshold(t) ==> Step(p, tier, t, fitting) {
      forall u, v | Made(u) && Made(v) && u.serviceTier == tier && Grows(u, v) && (fitting ==> Fits(u))
        ensures Cost(u, p) <= Cost(v, p)
      {
        StepsSuffice(p, tier, fitting, u, v);
      }
    }
  }

  /** Rates that ascend pass either check. */
  lemma AscendingPasses(p: ModelPricing, tier: string, t: int, fitting: bool)
    requires NonNegativePricing(p) && Ascending(p, tier) && t > 0
    ensures Step(p, tier, t, fitting)
  {
    hide RatesAt, Scaled;
    var r, s := RatesAt(p, tier, t), RatesAt(p, tier, t + 1);
    AscendingIsMonotone(p, tier, t, t + 1);
    RatesAreNonNegative(p, tier, t);
    ScaledIsMonotone(t, t + 1, r.input, s.input);
    ScaledIsMonotone(t, t, r.cacheRead, s.cacheRead);
    ScaledIsMonotone(t, t, r.cacheWrite5m, s.cacheWrite5m);
    ScaledIsMonotone(t, t, r.cacheWrite1h, s.cacheWrite1h);
  }

  /** Rates need not ascend: an input rate that falls no faster than the prompt grows does no harm to an entry that
      bills audio and tool use by themselves. */
  lemma FallingInputRateCanBeFine() returns (p: ModelPricing)
    ensures NonNegativePricing(p) && !Ascending(p, "") && CostNeverFalls(p, "", false)
  {
    var none := Variant(0.0, 0.0, 0.0);
    var lower := 128_000.0 / 128_001.0;
    p := ModelPricing(Rates(1.0, 1.0, 0.0, 0.0, 0.0), Pair(lower, 0.0), Rates(0.0, 0.0, 0.0, 0.0, 0.0), none,
                      none, none, none, none, Pair(0.0, 0.0), 0.0, 0.0, 1.0, 0.0, 0.0, 0.0, map[], 1.0, map[]);
    assert 0.0 < lower < 1.0 && 128_001.0 * lower == 128_000.0;
    assert RatesAt(p, "", 128_000) == Rates(1.0, 1.0, 0.0, 0.0, 0.0);
    assert forall t :: t > 128_000 ==> RatesAt(p, "", t) == Rates(lower, 1.0, 0.0, 0.0, 0.0);
    assert Step(p, "", 128_000, false) && Step(p, "", 200_000, false) && Step(p, "", 272_000, false);
    CostNeverFallsIff(p, "", false);
  }
}
