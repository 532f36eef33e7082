/** The share of selections each target is guaranteed, over whole runs of picks and responses. */
module SchedulerFairness {
  import opened Wrappers
  import opened SchedulerSpec

  function Count(answers: seq<Option<Target>>, t: Target): nat {
    if answers == [] then 0 else (if answers[0] == Some(t) then 1 else 0) + Count(answers[1..], t)
  }

  /** How many of the `n` positions from `i` on hold `t`. */
  function Slots(targets: seq<Target>, i: nat, n: nat, t: Target): nat
    requires targets != []
    decreases n
  {
    if n == 0 then 0 else (if Slot(targets, i) == t then 1 else 0) + Slots(targets, i + 1, n - 1, t)
  }

  function Picks(ops: seq<Op>): nat {
    if ops == [] then 0 else (if ops[0].Pick? then 1 else 0) + Picks(ops[1..])
  }

  /** `t` is not suspended at any pick of the run. */
  ghost predicate Available(targets: seq<Target>, duration: int, s: State, ops: seq<Op>, t: Target)
    decreases |ops|
  {
    ops != [] ==>
      && (ops[0].Pick? ==> !IsSuspended(s.suspended, t, ops[0].now))
      && Available(targets, duration, Step(targets, duration, s, ops[0]), ops[1..], t)
  }

  lemma {:induction false} SlotsAppend(targets: seq<Target>, i: nat, a: nat, b: nat, t: Target)
    requires targets != []
    ensures Slots(targets, i, a + b, t) == Slots(targets, i, a, t) + Slots(targets, i + a, b, t)
    decreases a
  {
    if a > 0 { SlotsAppend(targets, i + 1, a - 1, b, t); }
  }

  lemma {:induction false} NoSlots(targets: seq<Target>, i: nat, n: nat, t: Target)
    requires targets != []
    requires forall p :: i <= p < i + n ==> Slot(targets, p) != t
    ensures Slots(targets, i, n, t) == 0
    decreases n
  {
    if n > 0 { NoSlots(targets, i + 1, n - 1, t); }
  }

  /** A full rotation from anywhere holds `t` as often as the list does. */
  lemma {:induction false} RotationHoldsAll(targets: seq<Target>, i: nat, t: Target)
    requires targets != []
    ensures Slots(targets, i, |targets|, t) == multiset(targets)[t]
    decreases i
  {
    var n := |targets|;
    if i == 0 {
      SlotsFromStart(targets, 0, t);
      assert targets[0..] == targets;
    } else {
      RotationHoldsAll(targets, i - 1, t);
      SlotsAppend(targets, i - 1, 1, n - 1, t);
      SlotsAppend(targets, i, n - 1, 1, t);
      AddModulus(i - 1, n);
      assert i + (n - 1) == i - 1 + n;
      assert Slot(targets, i + (n - 1)) == Slot(targets, i - 1);
      assert Slots(targets, i - 1, 1, t) == Slots(targets, i + (n - 1), 1, t);
    }
  }

  lemma {:induction false} SlotsFromStart(targets: seq<Target>, i: nat, t: Target)
    requires i <= |targets| && targets != []
    ensures Slots(targets, i, |targets| - i, t) == multiset(targets[i..])[t]
    decreases |targets| - i
  {
    if i < |targets| {
      SlotsFromStart(targets, i + 1, t);
      ModUnique(i, 0, i, |targets|);
      assert targets[i..] == [targets[i]] + targets[i + 1..];
    }
  }

  lemma {:induction false} RotationsHoldAll(targets: seq<Target>, i: nat, m: nat, t: Target)
    requires targets != []
    ensures Slots(targets, i, m * |targets|, t) == m * multiset(targets)[t]
    decreases m
  {
    hide Slot;
    if m > 0 {
      var n, w := |targets|, multiset(targets)[t];
      OneRoundMore(m, n);
      OneRoundMore(m, w);
      SlotsAppend(targets, i, n, (m - 1) * n, t);
      RotationHoldsAll(targets, i, t);
      RotationsHoldAll(targets, i + n, m - 1, t);
    }
  }

  lemma OneRoundMore(m: nat, n: nat)
    requires m > 0
    ensures m * n == n + (m - 1) * n && (m - 1) * n >= 0
  {}

  /** A stretch of at least m rotations holds each target at least m times as often as the list. */
  lemma LongStretch(targets: seq<Target>, i: nat, n: nat, m: nat, t: Target)
    requires targets != [] && n >= m * |targets|
    ensures Slots(targets, i, n, t) >= m * multiset(targets)[t]
  {
    hide Slots;
    var k := m * |targets|;
    assert k >= 0;
    RotationsHoldAll(targets, i, m, t);
    SlotsAppend(targets, i, k, n - k, t);
  }

  /** One pick consumes a stretch of the rotation and answers `t` once per available slot of `t` in it. */
  lemma PickCounts(targets: seq<Target>, s: State, now: Time, t: Target)
    requires t in targets && !IsSuspended(s.suspended, t, now)
    ensures var (r, s') := Select(targets, s, now);
            && r.Some? && s'.index > s.index
            && Slots(targets, s.index, s'.index - s.index, t) == if r == Some(t) then 1 else 0
  {
    SelectSound(targets, s, now);
    var k := SuspendedAhead(targets, s.index, |targets|, s.suspended, now);
    SlotsAppend(targets, s.index, k, 1, t);
    NoSlots(targets, s.index, k, t);
  }

  lemma CountCons(r: Option<Target>, rest: seq<Option<Target>>, t: Target)
    ensures Count([r] + rest, t) == (if r == Some(t) then 1 else 0) + Count(rest, t)
  {
    assert ([r] + rest)[1..] == rest;
  }

  /** While `t` is available, it is answered exactly as often as the rotation passes one of its slots,
      and every pick moves the rotation on. */
  lemma {:induction false} AnsweredPerSlotPassed(targets: seq<Target>, duration: int, s: State, ops: seq<Op>, t: Target)
    requires t in targets && Available(targets, duration, s, ops, t)
    ensures Run(targets, duration, s, ops).index >= s.index + Picks(ops)
    ensures Count(Picked(targets, duration, s, ops), t)
         == Slots(targets, s.index, Run(targets, duration, s, ops).index - s.index, t)
    decreases |ops|
  {
    hide SuspendedAhead, Slot;
    if ops != [] {
      var s1 := Step(targets, duration, s, ops[0]);
      AnsweredPerSlotPassed(targets, duration, s1, ops[1..], t);
      var rest := Picked(targets, duration, s1, ops[1..]);
      if ops[0].Pick? {
        PickCounts(targets, s, ops[0].now, t);
        SlotsAppend(targets, s.index, s1.index - s.index, Run(targets, duration, s, ops).index - s1.index, t);
        CountCons(Select(targets, s, ops[0].now).0, rest, t);
      } else {
        assert Picked(targets, duration, s, ops) == [] + rest == rest;
      }
    }
  }

  /** While some target is available, every pick is answered. */
  lemma {:induction false} EveryPickAnswered(targets: seq<Target>, duration: int, s: State, ops: seq<Op>, t: Target)
    requires t in targets && Available(targets, duration, s, ops, t)
    ensures |Picked(targets, duration, s, ops)| == Picks(ops)
    ensures None !in Picked(targets, duration, s, ops)
    decreases |ops|
  {
    if ops != [] {
      EveryPickAnswered(targets, duration, Step(targets, duration, s, ops[0]), ops[1..], t);
      if ops[0].Pick? { PickCounts(targets, s, ops[0].now, t); }
    }
  }

  /** The guarantee: in any m rounds of consecutive picks a target that stays available is returned at least
      m times per slot it holds, whatever happens to the others. */
  lemma FairShare(targets: seq<Target>, duration: int, s: State, ops: seq<Op>, t: Target, m: nat)
    requires t in targets && Available(targets, duration, s, ops, t)
    requires Picks(ops) >= m * |targets|
    ensures Count(Picked(targets, duration, s, ops), t) >= m * multiset(targets)[t]
  {
    hide Slots, Picks, Picked, Run, Available;
    AnsweredPerSlotPassed(targets, duration, s, ops, t);
    LongStretch(targets, s.index, Run(targets, duration, s, ops).index - s.index, m, t);
  }

  ghost predicate AllAvailable(targets: seq<Target>, duration: int, s: State, ops: seq<Op>) {
    forall t :: t in targets ==> Available(targets, duration, s, ops, t)
  }

  lemma {:induction false} NothingSkipped(targets: seq<Target>, duration: int, s: State, ops: seq<Op>)
    requires targets != [] && AllAvailable(targets, duration, s, ops)
    ensures Run(targets, duration, s, ops).index == s.index + Picks(ops)
    decreases |ops|
  {
    if ops != [] {
      var s1 := Step(targets, duration, s, ops[0]);
      if ops[0].Pick? {
        assert Slot(targets, s.index) in targets;
        assert Available(targets, duration, s, ops, Slot(targets, s.index));
      }
      forall t | t in targets ensures Available(targets, duration, s1, ops[1..], t) {
        assert Available(targets, duration, s, ops, t);
      }
      NothingSkipped(targets, duration, s1, ops[1..]);
    }
  }

  /** With nothing suspended the share is exact. */
  lemma ExactShare(targets: seq<Target>, duration: int, s: State, ops: seq<Op>, t: Target, m: nat)
    requires t in targets && AllAvailable(targets, duration, s, ops)
    requires Picks(ops) == m * |targets|
    ensures Count(Picked(targets, duration, s, ops), t) == m * multiset(targets)[t]
  {
    AnsweredPerSlotPassed(targets, duration, s, ops, t);
    NothingSkipped(targets, duration, s, ops);
    RotationsHoldAll(targets, s.index, m, t);
  }

  // ---------------------------------------------------------------- the weighted list

  /** The weighted list: each target repeated as often as its weight says. */
  function Weighted(models: seq<Target>): seq<Target> {
    if models == [] then [] else Repeat(models[0], models[0].weight) + Weighted(models[1..])
  }

  function Repeat(t: Target, n: int): seq<Target> {
    if n <= 0 then [] else seq(n, i => t)
  }

  function TotalWeight(models: seq<Target>): nat {
    if models == [] then 0 else (if models[0].weight > 0 then models[0].weight else 0) + TotalWeight(models[1..])
  }

  lemma {:induction false} RepeatCount(t: Target, n: nat, u: Target)
    ensures multiset(Repeat(t, n))[u] == if t == u then n else 0
  {
    if n > 0 {
      assert Repeat(t, n) == Repeat(t, n - 1) + [t];
      RepeatCount(t, n - 1, u);
    }
  }

  /** Each entry of a list of distinct targets with positive weights holds exactly its weight in slots. */
  lemma {:induction false} WeightedCounts(models: seq<Target>, t: Target)
    requires forall i, j :: 0 <= i < j < |models| ==> models[i] != models[j]
    ensures |Weighted(models)| == TotalWeight(models)
    ensures multiset(Weighted(models))[t] == if t in models && t.weight > 0 then t.weight else 0
  {
    if models != [] {
      WeightedCounts(models[1..], t);
      assert models == [models[0]] + models[1..];
      if models[0].weight > 0 { RepeatCount(models[0], models[0].weight, t); }
    }
  }

  /** The promise in configured terms: over any stretch with total-weight many picks, a target of weight w that
      is never suspended meanwhile is returned at least w times, and exactly w times if nothing is suspended. */
  lemma WeightIsHonoured(models: seq<Target>, duration: int, s: State, ops: seq<Op>, t: Target)
    requires forall i, j :: 0 <= i < j < |models| ==> models[i] != models[j]
    requires t in models && t.weight >= 1
    requires Available(Weighted(models), duration, s, ops, t)
    requires Picks(ops) == TotalWeight(models)
    ensures Count(Picked(Weighted(models), duration, s, ops), t) >= t.weight
    ensures AllAvailable(Weighted(models), duration, s, ops) ==>
              Count(Picked(Weighted(models), duration, s, ops), t) == t.weight
  {
    WeightedCounts(models, t);
    assert t in multiset(Weighted(models));
    FairShare(Weighted(models), duration, s, ops, t, 1);
    if AllAvailable(Weighted(models), duration, s, ops) { ExactShare(Weighted(models), duration, s, ops, t, 1); }
  }

  // ---------------------------------------------------------------- plain round robin

  /** Plain round robin keeps its index below the number of targets. */
  function Wrap(s: State, n: nat): State {
    if n == 0 then s else s.(index := s.index % n)
  }

  function WrappedRun(targets: seq<Target>, duration: int, s: State, ops: seq<Op>): seq<Option<Target>>
    decreases |ops|
  {
    if ops == [] then []
    else
      (if ops[0].Pick? then [Select(targets, s, ops[0].now).0] else [])
      + WrappedRun(targets, duration, Wrap(Step(targets, duration, s, ops[0]), |targets|), ops[1..])
  }

  /** `a` and `b` stand at the same point of the rotation with the same suspensions. */
  ghost predicate SamePoint(a: State, b: State, n: nat) {
    Wrap(a, n) == Wrap(b, n)
  }

  lemma {:induction false} AheadDependsOnPoint(targets: seq<Target>, i: nat, j: nat, tries: nat, susp: map<string,
        Time>, now: Time)
    requires targets != [] && i % |targets| == j % |targets|
    ensures SuspendedAhead(targets, i, tries, susp, now) == SuspendedAhead(targets, j, tries, susp, now)
    decreases tries
  {
    if tries > 0 {
      ModAdd(i, j, 1, |targets|);
      AheadDependsOnPoint(targets, i + 1, j + 1, tries - 1, susp, now);
    }
  }

  lemma {:induction false} AddMultiple(a: nat, d: nat, n: nat)
    requires n > 0
    ensures (a + d * n) % n == a % n
  {
    if d > 0 {
      AddMultiple(a, d - 1, n);
      AddModulus(a + (d - 1) * n, n);
      assert a + d * n == a + (d - 1) * n + n;
    }
  }

  lemma ModAdd(i: nat, j: nat, k: nat, n: nat)
    requires n > 0 && i % n == j % n
    ensures (i + k) % n == (j + k) % n
    decreases i > j
  {
    if i <= j {
      var d := j / n - i / n;
      assert j == i + d * n by { assert (j / n) * n - (i / n) * n == d * n; }
      AddMultiple(i + k, d, n);
    } else {
      ModAdd(j, i, k, n);
    }
  }

  lemma NextWrapped(i: nat, n: nat)
    requires n > 0
    ensures (i % n + 1) % n == (i + 1) % n
  {
    ModUnique(i % n, 0, i % n, n);
    ModAdd(i % n, i, 1, n);
  }

  lemma StepKeepsPoint(targets: seq<Target>, duration: int, a: State, b: State, op: Op)
    requires SamePoint(a, b, |targets|)
    ensures SamePoint(Step(targets, duration, a, op), Step(targets, duration, b, op), |targets|)
    ensures op.Pick? ==> Select(targets, a, op.now).0 == Select(targets, b, op.now).0
  {
    hide SuspendedAhead;
    var n := |targets|;
    if op.Pick? && n > 0 {
      AheadDependsOnPoint(targets, a.index, b.index, n, a.suspended, op.now);
      var k := SuspendedAhead(targets, a.index, n, a.suspended, op.now);
      ModAdd(a.index, b.index, k, n);
      ModAdd(a.index, b.index, k + 1, n);
    }
  }

  lemma WrapTwice(s: State, n: nat)
    ensures Wrap(Wrap(s, n), n) == Wrap(s, n)
  {
    if n > 0 { ModUnique(s.index % n, 0, s.index % n, n); }
  }

  /** Keeping the index modulo the list length changes no answer of any run. */
  lemma {:induction false} WrappingIsInvisible(targets: seq<Target>, duration: int, a: State, b: State, ops: seq<Op>)
    requires SamePoint(a, b, |targets|)
    ensures WrappedRun(targets, duration, a, ops) == Picked(targets, duration, b, ops)
    decreases |ops|
  {
    if ops != [] {
      StepKeepsPoint(targets, duration, a, b, ops[0]);
      var a1 := Step(targets, duration, a, ops[0]);
      WrapTwice(a1, |targets|);
      WrappingIsInvisible(targets, duration, Wrap(a1, |targets|), Step(targets, duration, b, ops[0]), ops[1..]);
    }
  }

  lemma {:induction false} UnitWeightsAreTheList(models: seq<Target>)
    requires forall t :: t in models ==> t.weight == 1
    ensures Weighted(models) == models
  {
    if models != [] {
      UnitWeightsAreTheList(models[1..]);
      assert Weighted(models) == [models[0]] + models[1..];
    }
  }

  /** With unit weights the weighted policy makes exactly the choices plain round robin makes. */
  lemma UnitWeightsArePlainRoundRobin(models: seq<Target>, duration: int, ops: seq<Op>)
    requires forall t :: t in models ==> t.weight == 1
    ensures Picked(Weighted(models), duration, State(0, map[]), ops)
         == WrappedRun(models, duration, State(0, map[]), ops)
  {
    UnitWeightsAreTheList(models);
    WrappingIsInvisible(models, duration, State(0, map[]), State(0, map[]), ops);
  }
}
