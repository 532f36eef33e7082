/** What responses do to later selections: suspension told from the history of a run alone. */
module SchedulerSuspension {
  import opened Wrappers
  import opened SchedulerSpec
  import opened Text

  /** A response that suspends: a server error or 429, to a known model, with a time to suspend for. */
  predicate Fails(op: Op, duration: int) {
    op.Response? && (op.status >= 500 || op.status == 429) && op.model != "" && duration > 0
  }

  /** The response is for the pair this target stands for. */
  predicate IsFor(op: Op, t: Target) {
    op.Response? && SuspensionKey(op.provider, op.model) == SuspensionKey(t.provider, t.model)
  }

  /** Provider names do not hold the separator, so the key tells pairs apart. */
  lemma KeyTellsPairsApart(p: string, m: string, q: string, n: string)
    requires '\0' !in p && '\0' !in q
    ensures SuspensionKey(p, m) == SuspensionKey(q, n) <==> p == q && m == n
  {
    var a, b := SuspensionKey(p, m), SuspensionKey(q, n);
    assert a[..|p|] == p && b[..|q|] == q && a[|p| + 1..] == m && b[|q| + 1..] == n;
    IndexOfUnique(a, '\0', |p|);
    IndexOfUnique(b, '\0', |q|);
  }

  /** The clock does not go back. */
  predicate InOrder(ops: seq<Op>) {
    forall i, j :: 0 <= i < j < |ops| ==> ops[i].now <= ops[j].now
  }

  predicate NotBefore(now: Time, ops: seq<Op>) {
    forall i :: 0 <= i < |ops| ==> ops[i].now <= now
  }

  /** Some failing response for the target's pair is less than the duration ago. */
  ghost predicate Barred(history: seq<Op>, duration: int, t: Target, now: Time) {
    exists i :: 0 <= i < |history| && Fails(history[i], duration) && IsFor(history[i], t) && now < history[i].now + duration
  }

  lemma {:induction false} RunAppend(targets: seq<Target>, duration: int, s: State, a: seq<Op>, b: seq<Op>)
    ensures Run(targets, duration, s, a + b) == Run(targets, duration, Run(targets, duration, s, a), b)
    ensures Picked(targets, duration, s, a + b)
         == Picked(targets, duration, s, a) + Picked(targets, duration, Run(targets, duration, s, a), b)
    decreases |a|
  {
    hide Step, Select;
    if a == [] {
      assert a + b == b;
    } else {
      assert (a + b)[1..] == a[1..] + b;
      RunAppend(targets, duration, Step(targets, duration, s, a[0]), a[1..], b);
    }
  }

  lemma RunOneMore(targets: seq<Target>, duration: int, s: State, ops: seq<Op>, op: Op)
    ensures Run(targets, duration, s, ops + [op]) == Step(targets, duration, Run(targets, duration, s, ops), op)
  {
    hide Step;
    RunAppend(targets, duration, s, ops, [op]);
    assert [op][1..] == [];
  }

  /** Selecting forgets no suspension that is still running. */
  lemma SelectForgetsExpired(targets: seq<Target>, s: State, t: Target, then_: Time, now: Time)
    requires then_ <= now
    ensures IsSuspended(Select(targets, s, then_).1.suspended, t, now) <==> IsSuspended(s.suspended, t, now)
  {
    SelectSound(targets, s, then_);
  }

  lemma BarredOneMore(history: seq<Op>, op: Op, duration: int, t: Target, now: Time)
    ensures Barred(history + [op], duration, t, now)
            <==> Barred(history, duration, t, now) || (Fails(op, duration) && IsFor(op, t) && now < op.now + duration)
  {
    hide Fails, IsFor;
    var h := history + [op];
    if i :| 0 <= i < |h| && Fails(h[i], duration) && IsFor(h[i], t) && now < h[i].now + duration {
      assert i < |history| ==> h[i] == history[i];
    }
    if i :| 0 <= i < |history| && Fails(history[i], duration) && IsFor(history[i], t) && now < history[i].now + duration {
      assert h[i] == history[i];
    }
    assert h[|history|] == op;
  }

  /** A target is suspended exactly when its pair failed less than the duration ago. */
  lemma {:induction false} SuspensionIsHistory(targets: seq<Target>, duration: int, index: nat, ops: seq<Op>, t: Target, now: Time)
    requires InOrder(ops) && NotBefore(now, ops)
    ensures IsSuspended(Run(targets, duration, State(index, map[]), ops).suspended, t, now)
            <==> Barred(ops, duration, t, now)
    decreases |ops|
  {
    hide SuspensionKey, Select, Barred;
    if ops == [] {
      NothingBarred(duration, t, now);
    } else {
      var n := |ops| - 1;
      var before, op := ops[..n], ops[n];
      assert ops == before + [op];
      SuspensionIsHistory(targets, duration, index, before, t, now);
      RunOneMore(targets, duration, State(index, map[]), before, op);
      BarredOneMore(before, op, duration, t, now);
      var s := Run(targets, duration, State(index, map[]), before);
      if op.Pick? {
        SelectForgetsExpired(targets, s, t, op.now, now);
      } else if Fails(op, duration) && IsFor(op, t) {
        if Barred(before, duration, t, now) { FailsEarlier(before, duration, t, now, op.now); }
      }
    }
  }

  lemma NothingBarred(duration: int, t: Target, now: Time)
    ensures !Barred([], duration, t, now)
  {}

  lemma FailsEarlier(history: seq<Op>, duration: int, t: Target, now: Time, latest: Time)
    requires Barred(history, duration, t, now) && NotBefore(latest, history)
    ensures now < latest + duration
  {}

  /** What the pick at position `i` of a run answers. */
  function AnswerAt(targets: seq<Target>, duration: int, index: nat, ops: seq<Op>, i: nat): Option<Target>
    requires i < |ops| && ops[i].Pick?
  {
    Select(targets, Run(targets, duration, State(index, map[]), ops[..i]), ops[i].now).0
  }

  /** Whatever the clock does later, a selection forgets the suspension of the target it answers and no other pair's. */
  lemma AnswerIsForgiven(targets: seq<Target>, s: State, now: Time, t: Target, later: Time)
    ensures var (r, after) := Select(targets, s, now);
            IsSuspended(after.suspended, t, later) <==>
              IsSuspended(s.suspended, t, later)
              && (r.Some? ==> SuspensionKey(r.value.provider, r.value.model) != SuspensionKey(t.provider, t.model))
  {
    hide SuspendedAhead, SuspensionKey;
  }

  /** It stands among the answers of the run. */
  lemma AnswerIsPicked(targets: seq<Target>, duration: int, index: nat, ops: seq<Op>, i: nat)
    requires i < |ops| && ops[i].Pick?
    ensures var before := Picked(targets, duration, State(index, map[]), ops[..i]);
            var all := Picked(targets, duration, State(index, map[]), ops);
            |before| < |all| && all[|before|] == AnswerAt(targets, duration, index, ops, i)
  {
    hide Select, Step;
    assert ops == ops[..i] + ops[i..];
    RunAppend(targets, duration, State(index, map[]), ops[..i], ops[i..]);
  }

  /** In a run whose clock does not go back a pick answers a target of the list that no failure of its pair within
      the duration bars, and nothing only if every target is barred. */
  lemma PicksAvoidTheBarred(targets: seq<Target>, duration: int, index: nat, ops: seq<Op>, i: nat)
    requires InOrder(ops) && i < |ops| && ops[i].Pick?
    ensures var r := AnswerAt(targets, duration, index, ops, i);
            && (r.None? <==> forall t :: t in targets ==> Barred(ops[..i], duration, t, ops[i].now))
            && (r.Some? ==> r.value in targets && !Barred(ops[..i], duration, r.value, ops[i].now))
  {
    hide Select, Barred;
    var before, now := ops[..i], ops[i].now;
    var s := Run(targets, duration, State(index, map[]), before);
    SelectSound(targets, s, now);
    assert forall k :: 0 <= k < i ==> before[k] == ops[k] && ops[k].now <= now;
    forall t
      ensures IsSuspended(s.suspended, t, now) <==> Barred(before, duration, t, now)
    {
      SuspensionIsHistory(targets, duration, index, before, t, now);
    }
  }

  lemma LaterIsAfter(ops: seq<Op>, i: nat, j: nat)
    requires InOrder(ops) && i < |ops| && j < |ops| && ops[i].now < ops[j].now
    ensures i < j
  {}

  /** After a failing response no pick within the duration answers its pair; one later is barred by it no more. */
  lemma FailureBarsForTheDuration(targets: seq<Target>, duration: int, index: nat, ops: seq<Op>, f: nat, i: nat)
    requires InOrder(ops) && f < i < |ops| && Fails(ops[f], duration) && ops[i].Pick?
    ensures ops[i].now < ops[f].now + duration ==>
              var r := AnswerAt(targets, duration, index, ops, i);
              r.Some? ==> !IsFor(ops[f], r.value)
    ensures ops[i].now >= ops[f].now + duration ==>
              forall t :: IsFor(ops[f], t) && Barred(ops[..i], duration, t, ops[i].now) ==>
                exists k :: f < k < i && Fails(ops[k], duration) && IsFor(ops[k], t)
  {
    hide AnswerAt, Fails, IsFor;
    PicksAvoidTheBarred(targets, duration, index, ops, i);
    var before := ops[..i];
    assert before[f] == ops[f];
    forall t | ops[i].now >= ops[f].now + duration && Barred(before, duration, t, ops[i].now)
      ensures exists k :: f < k < i && Fails(ops[k], duration) && IsFor(ops[k], t)
    {
      var k :| 0 <= k < i && Fails(before[k], duration) && IsFor(before[k], t) && ops[i].now < before[k].now + duration;
      assert before[k] == ops[k] && ops[k].now > ops[f].now;
      LaterIsAfter(ops, f, k);
    }
  }

  /** A response that does not fail might as well not have come. */
  lemma OtherResponsesChangeNothing(targets: seq<Target>, duration: int, s: State, a: seq<Op>, op: Op, b: seq<Op>)
    requires op.Response? && !Fails(op, duration)
    ensures Picked(targets, duration, s, a + [op] + b) == Picked(targets, duration, s, a + b)
  {
    var s1 := Run(targets, duration, s, a);
    RunAppend(targets, duration, s, a, b);
    RunAppend(targets, duration, s, a, [op] + b);
    assert a + [op] + b == a + ([op] + b);
    assert ([op] + b)[1..] == b && Step(targets, duration, s1, op) == s1;
    assert Picked(targets, duration, s1, [op] + b) == [] + Picked(targets, duration, s1, b);
  }
}
