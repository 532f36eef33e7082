/** The weighted round-robin policy object. */
module WeightedRoundRobin {
  import opened Wrappers
  import opened SchedulerSpec
  import opened SchedulerFairness

  /** Repeat each model as often as its weight says; models without a positive weight are left out. */
  method BuildWeightedSequence(models: seq<Target>) returns (sequence: seq<Target>)
    ensures sequence == Weighted(models)
  {
    hide Weighted, Repeat, TotalWeight;
    sequence := [];
    var totalWeight := 0;
    TotalWeightFrom(models, 0);
    for i := 0 to |models|
      invariant totalWeight + TotalWeight(models[i..]) == TotalWeight(models) && totalWeight >= 0
    {
      TotalWeightFrom(models, i);
      if models[i].weight > 0 { totalWeight := totalWeight + models[i].weight; }
    }
    TotalWeightFrom(models, |models|);
    if totalWeight == 0 {
      NoWeightNoSlots(models);
      return;
    }
    assert models[0..] == models && [] + Weighted(models) == Weighted(models);
    for i := 0 to |models|
      invariant sequence + Weighted(models[i..]) == Weighted(models)
    {
      ghost var before := sequence;
      RepeatSteps(models[i]);
      if models[i].weight > 0 {
        for j := 0 to models[i].weight
          invariant sequence == before + Repeat(models[i], j)
        {
          sequence := sequence + [models[i]];
        }
      }
      WeightedFrom(models, i, before);
      assert sequence == before + Repeat(models[i], models[i].weight);
    }
    assert models[|models|..] == [] && Weighted([]) == [] by { TotalWeightFrom([], 0); NoWeightNoSlots([]); }
  }

  lemma TotalWeightFrom(models: seq<Target>, i: nat)
    requires i <= |models|
    ensures TotalWeight(models[i..]) ==
            if i == |models| then 0 else (if models[i].weight > 0 then models[i].weight else 0) + TotalWeight(models[i + 1..])
    ensures models[0..] == models
  {
    if i < |models| { assert models[i..][1..] == models[i + 1..]; }
  }

  lemma RepeatSteps(t: Target)
    ensures forall n :: n <= 0 ==> Repeat(t, n) == []
    ensures forall j :: j >= 0 ==> Repeat(t, j + 1) == Repeat(t, j) + [t]
  {}

  lemma WeightedFrom(models: seq<Target>, i: nat, before: seq<Target>)
    requires i < |models|
    ensures before + Repeat(models[i], models[i].weight) + Weighted(models[i + 1..]) == before + Weighted(models[i..])
  {
    assert models[i..][1..] == models[i + 1..];
  }

  lemma {:induction false} NoWeightNoSlots(models: seq<Target>)
    requires TotalWeight(models) == 0
    ensures Weighted(models) == []
  {
    if models != [] { NoWeightNoSlots(models[1..]); }
  }

  class Policy {
    var currentIndex: nat
    var suspendedModels: map<string, Time>
    const weightedSequence: seq<Target>
    const suspendDuration: int

    constructor (models: seq<Target>, suspendDuration: int)
      ensures weightedSequence == Weighted(models) && this.suspendDuration == suspendDuration
      ensures Now() == State(0, map[])
    {
      var sequence := BuildWeightedSequence(models);
      currentIndex, suspendedModels := 0, map[];
      weightedSequence, this.suspendDuration := sequence, suspendDuration;
    }

    ghost function Now(): State
      reads this
    {
      State(currentIndex, suspendedModels)
    }

    method SelectNextAvailableWeightedModel(now: Time) returns (selected: Option<Target>)
      modifies this
      ensures (selected, Now()) == Select(weightedSequence, old(Now()), now)
    {
      var n := |weightedSequence|;
      if n == 0 { return None; }
      var attemptCount := 0;
      while attemptCount < n
        invariant attemptCount <= n
        invariant currentIndex == old(currentIndex) + attemptCount && suspendedModels == old(suspendedModels)
        invariant SuspendedAhead(weightedSequence, old(currentIndex), n, suspendedModels, now)
               == attemptCount + SuspendedAhead(weightedSequence, currentIndex, n - attemptCount, suspendedModels, now)
      {
        var selectedModel := weightedSequence[currentIndex % n];
        currentIndex := currentIndex + 1;
        var key := SuspensionKey(selectedModel.provider, selectedModel.model);
        if key in suspendedModels {
          if now < suspendedModels[key] {
            attemptCount := attemptCount + 1;
            continue;
          }
          suspendedModels := suspendedModels - {key};
        }
        assert suspendedModels == old(suspendedModels) - {key};
        return Some(selectedModel);
      }
      return None;
    }

    method OnResponseHeaders(status: int, provider: string, model: string, now: Time)
      modifies this
      ensures Now() == Respond(old(Now()), status, provider, model, now, suspendDuration)
    {
      if status >= 500 || status == 429 {
        if suspendDuration > 0 && model != "" {
          var key := SuspensionKey(provider, model);
          suspendedModels := suspendedModels[key := now + suspendDuration];
        }
      }
    }
  }
}

/** The plain round-robin policy object. */
module RoundRobin {
  import opened Wrappers
  import opened SchedulerSpec
  import opened SchedulerFairness

  class Policy {
    var currentIndex: nat
    var suspendedModels: map<string, Time>
    const models: seq<Target>
    const suspendDuration: int

    ghost predicate Valid()
      reads this
    {
      currentIndex < |models| || currentIndex == |models| == 0
    }

    constructor (models: seq<Target>, suspendDuration: int)
      ensures this.models == models && this.suspendDuration == suspendDuration
      ensures Valid() && Now() == State(0, map[])
    {
      currentIndex, suspendedModels := 0, map[];
      this.models, this.suspendDuration := models, suspendDuration;
    }

    ghost function Now(): State
      reads this
    {
      State(currentIndex, suspendedModels)
    }

    method SelectNextAvailableModel(now: Time) returns (selected: Option<Target>)
      requires Valid()
      modifies this
      ensures Valid()
      ensures selected == Select(models, old(Now()), now).0
      ensures Now() == Wrap(Select(models, old(Now()), now).1, |models|)
    {
      var attemptCount, totalModels := 0, |models|;
      ghost var p, s0 := currentIndex, Now();
      if totalModels > 0 { ModUnique(p, 0, p, totalModels); }
      while attemptCount < totalModels
        invariant attemptCount <= totalModels && Valid() && suspendedModels == s0.suspended
        invariant p == s0.index + attemptCount && Now() == Wrap(State(p, suspendedModels), totalModels)
        invariant totalModels > 0 ==>
                    SuspendedAhead(models, s0.index, totalModels, s0.suspended, now)
                    == attemptCount + SuspendedAhead(models, p, totalModels - attemptCount, s0.suspended, now)
      {
        var selectedModel := models[currentIndex];
        var key := SuspensionKey(selectedModel.provider, selectedModel.model);
        assert selectedModel == Slot(models, p);
        NextWrapped(p, totalModels);
        p := p + 1;
        currentIndex := (currentIndex + 1) % totalModels;
        if key in suspendedModels {
          if now < suspendedModels[key] {
            attemptCount := attemptCount + 1;
            continue;
          }
          suspendedModels := suspendedModels - {key};
        }
        assert suspendedModels == s0.suspended - {key};
        return Some(selectedModel);
      }
      return None;
    }

    method OnResponseHeaders(status: int, provider: string, model: string, now: Time)
      requires Valid()
      modifies this
      ensures Valid() && Now() == Respond(old(Now()), status, provider, model, now, suspendDuration)
    {
      if status >= 500 || status == 429 {
        if suspendDuration > 0 && model != "" {
          var key := SuspensionKey(provider, model);
          suspendedModels := suspendedModels[key := now + suspendDuration];
        }
      }
    }
  }
}
