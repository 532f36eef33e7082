/** The process-wide cache of reference-counted limiters and its reconcile step.

    `LimiterCacheSpec` gives the cache as a value, one policy build as a function on it, and the
    laws of whole runs of builds. `LimiterCache` is the mutable cache; its `Reconcile` is proved to
    take exactly the step the specification describes, whatever order the stale keys are visited in. */
module LimiterCacheSpec {

  /** What `byQuotaKey` holds for one key: which limiter (by creation number) and its reference count. */
  datatype Slot = Slot(limiter: nat, refCount: int)

  /** `closeCalls[i]` is how often Close was called on the i-th limiter ever created. */
  datatype State = State(byQuotaKey: map<string, Slot>,
                         quotaKeysByBaseKey: map<string, set<string>>,
                         closeCalls: seq<nat>)

  /** One quota of a build: its cache key, and whether creating a limiter for it would succeed. */
  datatype Quota = Quota(cacheKey: string, canCreate: bool)

  /** One policy build: the bucket it reconciles and the quotas it wants. */
  datatype Call = Call(reconcileKey: string, quotas: seq<Quota>)

  const EMPTY := State(map[], map[], [])

  function OldKeys(s: State, r: string): set<string> {
    if r in s.quotaKeysByBaseKey then s.quotaKeysByBaseKey[r] else {}
  }

  function Desired(qs: seq<Quota>): set<string> {
    set q | q in qs :: q.cacheKey
  }

  /** Reuse or create the limiter of one quota; false when creation fails. */
  function Acquire(s: State, q: Quota, oldKeys: set<string>): (State, bool) {
    if q.cacheKey in s.byQuotaKey then
      var slot := s.byQuotaKey[q.cacheKey];
      if q.cacheKey in oldKeys then (s, true)
      else (s.(byQuotaKey := s.byQuotaKey[q.cacheKey := slot.(refCount := slot.refCount + 1)]), true)
    else if q.canCreate then
      (s.(byQuotaKey := s.byQuotaKey[q.cacheKey := Slot(|s.closeCalls|, 1)], closeCalls := s.closeCalls + [0]), true)
    else
      (s, false)
  }

  /** The quota loop: stops at the first quota whose limiter cannot be created. */
  function AcquireAll(s: State, qs: seq<Quota>, oldKeys: set<string>): (State, bool)
    decreases |qs|
  {
    if qs == [] then (s, true)
    else
      var (s', ok) := Acquire(s, qs[0], oldKeys);
      if ok then AcquireAll(s', qs[1..], oldKeys) else (s', false)
  }

  predicate Dies(s: State, k: string, stale: set<string>) {
    k in stale && k in s.byQuotaKey && s.byQuotaKey[k].refCount <= 1
  }

  /** Drop one reference to every stale key at once; the limiters nobody references any more are closed. */
  function ReleaseAll(s: State, stale: set<string>): State {
    s.(byQuotaKey := map k | k in s.byQuotaKey && !Dies(s, k, stale) ::
                       if k in stale then s.byQuotaKey[k].(refCount := s.byQuotaKey[k].refCount - 1) else s.byQuotaKey[k],
       closeCalls := seq(|s.closeCalls|, i requires 0 <= i < |s.closeCalls| =>
                       s.closeCalls[i] + if exists k :: k in s.byQuotaKey && Dies(s, k, stale) && s.byQuotaKey[k].limiter == i
                                         then 1 else 0))
  }

  function Build(s: State, c: Call): (State, bool) {
    var oldKeys := OldKeys(s, c.reconcileKey);
    var (s1, ok) := AcquireAll(s, c.quotas, oldKeys);
    if !ok then (s1, false)
    else
      var s2 := ReleaseAll(s1, oldKeys - Desired(c.quotas));
      (s2.(quotaKeysByBaseKey := s2.quotaKeysByBaseKey[c.reconcileKey := Desired(c.quotas)]), true)
  }

  function Run(s: State, calls: seq<Call>): State
    decreases |calls|
  {
    if calls == [] then s else Run(Build(s, calls[0]).0, calls[1..])
  }

  // ---------------------------------------------------------------- the invariant

  /** The buckets that track `k`. */
  function Trackers(s: State, k: string): set<string> {
    set r | r in s.quotaKeysByBaseKey && k in s.quotaKeysByBaseKey[r]
  }

  function RefCount(s: State, k: string): int {
    if k in s.byQuotaKey then s.byQuotaKey[k].refCount else 0
  }

  /** References beyond those of the buckets tracking `k`. */
  function Excess(s: State, k: string): int {
    RefCount(s, k) - |Trackers(s, k)|
  }

  ghost predicate Separate(s: State) {
    && (forall k :: k in s.byQuotaKey ==> s.byQuotaKey[k].limiter < |s.closeCalls|)
    && (forall k, k' :: k in s.byQuotaKey && k' in s.byQuotaKey && k != k' ==>
          s.byQuotaKey[k].limiter != s.byQuotaKey[k'].limiter)
  }

  ghost predicate Cached(s: State, i: nat) {
    exists k :: k in s.byQuotaKey && s.byQuotaKey[k].limiter == i
  }

  /** Every limiter ever created is either cached and open, or was closed exactly once. */
  ghost predicate ClosedOnceWhenDropped(s: State) {
    forall i {:trigger s.closeCalls[i]} :: 0 <= i < |s.closeCalls| ==> s.closeCalls[i] == if Cached(s, i) then 0 else 1
  }

  ghost predicate Inv(s: State) {
    && Separate(s)
    && ClosedOnceWhenDropped(s)
    && (forall k :: k in s.byQuotaKey ==> s.byQuotaKey[k].refCount >= 1)
    && (forall k :: Excess(s, k) >= 0)
  }

  // ---------------------------------------------------------------- what a build leaks

  /** How many leading quotas the loop handles before it fails; all of them when it does not. */
  function Processed(keys: set<string>, qs: seq<Quota>): (n: nat)
    ensures n <= |qs|
    decreases |qs|
  {
    if qs == [] then 0
    else if qs[0].cacheKey in keys || qs[0].canCreate then 1 + Processed(keys + {qs[0].cacheKey}, qs[1..])
    else 0
  }

  function Occurrences(qs: seq<Quota>, k: string): nat {
    if qs == [] then 0 else (if qs[0].cacheKey == k then 1 else 0) + Occurrences(qs[1..], k)
  }

  /** References to `k` a build takes that no bucket will ever give back. */
  function Leak(s: State, c: Call, k: string): nat {
    var n := Processed(s.byQuotaKey.Keys, c.quotas);
    var taken := if k in OldKeys(s, c.reconcileKey) then 0 else Occurrences(c.quotas[..n], k);
    if n == |c.quotas| && taken > 0 then taken - 1 else taken
  }

  function RunLeak(s: State, calls: seq<Call>, k: string): nat
    decreases |calls|
  {
    if calls == [] then 0 else Leak(s, calls[0], k) + RunLeak(Build(s, calls[0]).0, calls[1..], k)
  }

  /** A build that succeeds and names each new key once, or that fails before taking any new reference. */
  ghost predicate Clean(s: State, c: Call) {
    var n := Processed(s.byQuotaKey.Keys, c.quotas);
    var oldKeys := OldKeys(s, c.reconcileKey);
    if n == |c.quotas| then
      forall i, j :: 0 <= i < j < n && c.quotas[i].cacheKey !in oldKeys ==> c.quotas[i].cacheKey != c.quotas[j].cacheKey
    else
      forall i :: 0 <= i < n ==> c.quotas[i].cacheKey in oldKeys
  }

  ghost predicate CleanRun(s: State, calls: seq<Call>)
    decreases |calls|
  {
    calls != [] ==> Clean(s, calls[0]) && CleanRun(Build(s, calls[0]).0, calls[1..])
  }

  // ---------------------------------------------------------------- the quota loop

  /** Facts every step of the quota loop keeps. */
  ghost predicate Sound(s: State) {
    && Separate(s)
    && ClosedOnceWhenDropped(s)
    && (forall k :: k in s.byQuotaKey ==> s.byQuotaKey[k].refCount >= 1)
  }

  lemma AcquireKeepsSound(s: State, q: Quota, oldKeys: set<string>)
    requires Sound(s)
    ensures Sound(Acquire(s, q, oldKeys).0)
  {
    var s' := Acquire(s, q, oldKeys).0;
    forall i | 0 <= i < |s'.closeCalls|
      ensures s'.closeCalls[i] == if Cached(s', i) then 0 else 1
    {
      if i == |s.closeCalls| {
        assert s'.byQuotaKey[q.cacheKey].limiter == i;
      } else {
        assert s'.closeCalls[i] == s.closeCalls[i];
        assert forall k :: k in s.byQuotaKey ==> k in s'.byQuotaKey && s'.byQuotaKey[k].limiter == s.byQuotaKey[k].limiter;
        assert Cached(s, i) <==> Cached(s', i);
      }
    }
  }

  lemma {:induction false} AcquireAllKeepsSound(s: State, qs: seq<Quota>, oldKeys: set<string>)
    requires Sound(s)
    ensures Sound(AcquireAll(s, qs, oldKeys).0)
    decreases |qs|
  {
    if qs != [] {
      AcquireKeepsSound(s, qs[0], oldKeys);
      if Acquire(s, qs[0], oldKeys).1 {
        AcquireAllKeepsSound(Acquire(s, qs[0], oldKeys).0, qs[1..], oldKeys);
      }
    }
  }

  lemma AcquireAllStep(s: State, qs: seq<Quota>, i: nat, oldKeys: set<string>)
    requires i <= |qs|
    ensures qs[0..] == qs
    ensures AcquireAll(s, qs[i..], oldKeys) ==
              if i == |qs| then (s, true)
              else
                var (s', ok) := Acquire(s, qs[i], oldKeys);
                if ok then AcquireAll(s', qs[i + 1..], oldKeys) else (s', false)
  {
    hide Acquire;
    if i < |qs| { assert qs[i..][1..] == qs[i + 1..]; }
  }

  /** The quota loop succeeds exactly when it reaches the end, and caches the keys it handled. */
  lemma {:induction false} AcquireAllKeys(s: State, qs: seq<Quota>, oldKeys: set<string>)
    ensures AcquireAll(s, qs, oldKeys).1 == (Processed(s.byQuotaKey.Keys, qs) == |qs|)
    ensures AcquireAll(s, qs, oldKeys).0.quotaKeysByBaseKey == s.quotaKeysByBaseKey
    ensures AcquireAll(s, qs, oldKeys).0.byQuotaKey.Keys
         == s.byQuotaKey.Keys + Desired(qs[..Processed(s.byQuotaKey.Keys, qs)])
    decreases |qs|
  {
    if qs != [] {
      var (s1, ok) := Acquire(s, qs[0], oldKeys);
      if ok {
        var n := Processed(s.byQuotaKey.Keys, qs);
        assert s1.byQuotaKey.Keys == s.byQuotaKey.Keys + {qs[0].cacheKey};
        AcquireAllKeys(s1, qs[1..], oldKeys);
        DesiredCons(qs, n);
      }
    }
  }

  lemma DesiredCons(qs: seq<Quota>, n: nat)
    requires 0 < n <= |qs|
    ensures Desired(qs[..n]) == {qs[0].cacheKey} + Desired(qs[1..][..n - 1])
  {
    assert qs[..n] == [qs[0]] + qs[1..][..n - 1];
  }

  /** The quota loop adds one reference to a new key for each time it names it. */
  lemma {:induction false} AcquireAllCounts(s: State, qs: seq<Quota>, oldKeys: set<string>, k: string)
    requires oldKeys <= s.byQuotaKey.Keys
    ensures RefCount(AcquireAll(s, qs, oldKeys).0, k)
         == RefCount(s, k) + if k in oldKeys then 0 else Occurrences(qs[..Processed(s.byQuotaKey.Keys, qs)], k)
    decreases |qs|
  {
    if qs != [] {
      var (s1, ok) := Acquire(s, qs[0], oldKeys);
      if ok {
        var n := Processed(s.byQuotaKey.Keys, qs);
        assert s1.byQuotaKey.Keys == s.byQuotaKey.Keys + {qs[0].cacheKey};
        AcquireAllCounts(s1, qs[1..], oldKeys, k);
        assert qs[..n][1..] == qs[1..][..n - 1];
      }
    }
  }

  lemma {:induction false} OccursIffDesired(qs: seq<Quota>, k: string)
    ensures Occurrences(qs, k) > 0 <==> k in Desired(qs)
  {
    if qs != [] {
      assert qs == [qs[0]] + qs[1..];
      OccursIffDesired(qs[1..], k);
    }
  }

  // ---------------------------------------------------------------- dropping stale keys

  /** Dropping one reference to one key. */
  function ReleaseOne(s: State, k: string): State
    requires Separate(s)
  {
    if k !in s.byQuotaKey then s
    else
      var slot := s.byQuotaKey[k];
      if slot.refCount > 1 then s.(byQuotaKey := s.byQuotaKey[k := slot.(refCount := slot.refCount - 1)])
      else s.(byQuotaKey := s.byQuotaKey - {k}, closeCalls := s.closeCalls[slot.limiter := s.closeCalls[slot.limiter] + 1])
  }

  lemma AbsentReleasesNothing(s: State, k: string)
    requires Separate(s)
    ensures k !in s.byQuotaKey ==> ReleaseOne(s, k) == s
  {}

  /** Releasing in two steps: take the reference away, then forget a limiter left without any. */
  lemma DropThenForget(s: State, k: string)
    requires Separate(s) && k in s.byQuotaKey
    ensures var slot := s.byQuotaKey[k];
            var dropped := s.(byQuotaKey := s.byQuotaKey[k := slot.(refCount := slot.refCount - 1)]);
            && slot.limiter < |s.closeCalls|
            && ReleaseOne(s, k) ==
                 if slot.refCount - 1 > 0 then dropped
                 else dropped.(byQuotaKey := dropped.byQuotaKey - {k},
                               closeCalls := s.closeCalls[slot.limiter := s.closeCalls[slot.limiter] + 1])
  {
    var slot := s.byQuotaKey[k];
    assert s.byQuotaKey[k := slot.(refCount := slot.refCount - 1)] - {k} == s.byQuotaKey - {k};
  }

  lemma ReleaseSingleton(s: State, k: string)
    requires Separate(s)
    ensures ReleaseAll(s, {k}) == ReleaseOne(s, k)
  {
    var a, b := ReleaseAll(s, {k}), ReleaseOne(s, k);
    assert a.byQuotaKey == b.byQuotaKey;
    if k in s.byQuotaKey && Dies(s, k, {k}) {
      assert forall i :: 0 <= i < |s.closeCalls| ==>
        a.closeCalls[i] == s.closeCalls[i] + if s.byQuotaKey[k].limiter == i then 1 else 0;
    }
    assert a.closeCalls == b.closeCalls;
  }

  /** Stale keys can be visited in any order: releasing one first and the others after is releasing all. */
  lemma ReleaseAnyOrder(s: State, k: string, stale: set<string>)
    requires Separate(s) && k in stale
    ensures ReleaseAll(ReleaseAll(s, {k}), stale - {k}) == ReleaseAll(s, stale)
  {
    ReleaseSingleton(s, k);
    OneThenRestEntries(s, k, stale);
    OneThenRestCloses(s, k, stale);
  }

  lemma OneThenRestEntries(s: State, k: string, stale: set<string>)
    requires Separate(s) && k in stale
    ensures ReleaseAll(ReleaseOne(s, k), stale - {k}).byQuotaKey == ReleaseAll(s, stale).byQuotaKey
  {
    var s1 := ReleaseOne(s, k);
    assert forall j :: j in s.byQuotaKey && j != k ==> j in s1.byQuotaKey && s1.byQuotaKey[j] == s.byQuotaKey[j];
    var a, b := ReleaseAll(s1, stale - {k}).byQuotaKey, ReleaseAll(s, stale).byQuotaKey;
    forall j | j in s.byQuotaKey
      ensures j in a <==> j in b
      ensures j in a ==> a[j] == b[j]
    {
      if j == k {
        assert Dies(s, k, stale) <==> k !in s1.byQuotaKey;
      } else {
        assert Dies(s, j, stale) == Dies(s1, j, stale - {k});
      }
    }
  }

  lemma OneThenRestCloses(s: State, k: string, stale: set<string>)
    requires Separate(s) && k in stale
    ensures ReleaseAll(ReleaseOne(s, k), stale - {k}).closeCalls == ReleaseAll(s, stale).closeCalls
  {
    var s1 := ReleaseOne(s, k);
    var a, b := ReleaseAll(s1, stale - {k}).closeCalls, ReleaseAll(s, stale).closeCalls;
    assert forall j :: j in s.byQuotaKey && j != k ==> j in s1.byQuotaKey && s1.byQuotaKey[j] == s.byQuotaKey[j];
    assert !Dies(s1, k, stale - {k});
    forall i | 0 <= i < |s.closeCalls|
      ensures a[i] == b[i]
    {
      if j :| j in s.byQuotaKey && j != k && Dies(s, j, stale) && s.byQuotaKey[j].limiter == i {
        assert Dies(s1, j, stale - {k}) && s1.byQuotaKey[j].limiter == i;
      }
    }
    assert |a| == |b|;
  }

  lemma ReleaseNothing(s: State)
    ensures ReleaseAll(s, {}) == s
  {
    assert ReleaseAll(s, {}).byQuotaKey == s.byQuotaKey;
    assert ReleaseAll(s, {}).closeCalls == s.closeCalls;
  }

  lemma ReleaseKeepsSound(s: State, stale: set<string>)
    requires Sound(s)
    ensures Sound(ReleaseAll(s, stale))
  {
    var s' := ReleaseAll(s, stale);
    assert forall k :: k in s'.byQuotaKey ==> k in s.byQuotaKey && s'.byQuotaKey[k].limiter == s.byQuotaKey[k].limiter;
    forall i | 0 <= i < |s'.closeCalls|
      ensures s'.closeCalls[i] == if Cached(s', i) then 0 else 1
    {
      assert s.closeCalls[i] == if Cached(s, i) then 0 else 1;
      if k :| k in s.byQuotaKey && s.byQuotaKey[k].limiter == i {
        assert Cached(s', i) <==> !Dies(s, k, stale);
      }
    }
  }

  // ---------------------------------------------------------------- one build

  lemma TrackedIsCached(s: State, r: string)
    requires Inv(s)
    ensures OldKeys(s, r) <= s.byQuotaKey.Keys
  {
    forall k | k in OldKeys(s, r)
      ensures k in s.byQuotaKey
    {
      assert r in Trackers(s, k) && Excess(s, k) >= 0;
      assert Trackers(s, k) >= {r} && |Trackers(s, k)| >= |{r}| by { CardMono({r}, Trackers(s, k)); }
    }
  }

  lemma CardMono(a: set<string>, b: set<string>)
    requires a <= b
    ensures |a| <= |b|
  {
    assert b == a + (b - a);
  }

  lemma TrackersAfterIndexing(s: State, r: string, keys: set<string>, k: string)
    ensures var s' := s.(quotaKeysByBaseKey := s.quotaKeysByBaseKey[r := keys]);
            |Trackers(s', k)| == |Trackers(s, k)| + (if k in keys then 1 else 0) - (if k in OldKeys(s, r) then 1 else 0)
  {
    var s' := s.(quotaKeysByBaseKey := s.quotaKeysByBaseKey[r := keys]);
    var rest := Trackers(s, k) - {r};
    assert Trackers(s, k) == if k in OldKeys(s, r) then rest + {r} else rest;
    assert Trackers(s', k) == if k in keys then rest + {r} else rest;
  }

  /** The ledger of one build, successful or not: what it takes beyond what its bucket will give back
      is exactly its leak. */
  lemma BuildLedger(s: State, c: Call, k: string)
    requires Inv(s)
    ensures Excess(Build(s, c).0, k) == Excess(s, k) + Leak(s, c, k)
  {
    var r, oldKeys := c.reconcileKey, OldKeys(s, c.reconcileKey);
    var n := Processed(s.byQuotaKey.Keys, c.quotas);
    TrackedIsCached(s, r);
    AcquireAllKeys(s, c.quotas, oldKeys);
    AcquireAllCounts(s, c.quotas, oldKeys, k);
    OccursIffDesired(c.quotas[..n], k);
    var s1 := AcquireAll(s, c.quotas, oldKeys).0;
    assert Trackers(s1, k) == Trackers(s, k);
    if n == |c.quotas| {
      assert c.quotas[..n] == c.quotas;
      var keys := Desired(c.quotas);
      var s2 := ReleaseAll(s1, oldKeys - keys);
      assert Trackers(s2, k) == Trackers(s, k) && OldKeys(s2, r) == oldKeys;
      TrackersAfterIndexing(s2, r, keys, k);
      if k in oldKeys - keys {
        assert r in Trackers(s, k);
        assert RefCount(s1, k) >= 1 by { CardMono({r}, Trackers(s, k)); }
      }
      assert RefCount(s2, k) == RefCount(s1, k) - if k in oldKeys - keys then 1 else 0;
    }
  }

  lemma BuildKeepsInv(s: State, c: Call)
    requires Inv(s)
    ensures Inv(Build(s, c).0)
  {
    var oldKeys := OldKeys(s, c.reconcileKey);
    AcquireAllKeepsSound(s, c.quotas, oldKeys);
    var s1 := AcquireAll(s, c.quotas, oldKeys).0;
    ReleaseKeepsSound(s1, oldKeys - Desired(c.quotas));
    if AcquireAll(s, c.quotas, oldKeys).1 {
      SoundIgnoresIndex(ReleaseAll(s1, oldKeys - Desired(c.quotas)), Build(s, c).0);
    }
    forall k ensures Excess(Build(s, c).0, k) >= 0 { BuildLedger(s, c, k); }
  }

  lemma SoundIgnoresIndex(s: State, s': State)
    requires Sound(s) && s'.byQuotaKey == s.byQuotaKey && s'.closeCalls == s.closeCalls
    ensures Sound(s')
  {
    assert forall i: nat :: Cached(s, i) <==> Cached(s', i);
  }

  /** A build leaks nothing exactly when it is clean. */
  lemma LeakFreeIffClean(s: State, c: Call)
    ensures (forall k :: Leak(s, c, k) == 0) <==> Clean(s, c)
  {
    var n, oldKeys := Processed(s.byQuotaKey.Keys, c.quotas), OldKeys(s, c.reconcileKey);
    var qs := c.quotas[..n];
    if n == |c.quotas| {
      assert qs == c.quotas;
      forall k { OccursTwice(qs, k); }
      if !Clean(s, c) {
        var i, j :| 0 <= i < j < n && qs[i].cacheKey !in oldKeys && qs[i].cacheKey == qs[j].cacheKey;
        assert Leak(s, c, qs[i].cacheKey) > 0;
      }
    } else {
      forall k { OccursIffDesired(qs, k); }
      if !Clean(s, c) {
        var i :| 0 <= i < n && c.quotas[i].cacheKey !in oldKeys;
        assert qs[i] == c.quotas[i] && qs[i] in qs;
        assert Leak(s, c, qs[i].cacheKey) > 0;
      }
    }
  }

  lemma {:induction false} OccursTwice(qs: seq<Quota>, k: string)
    ensures Occurrences(qs, k) > 1 <==> exists i, j :: 0 <= i < j < |qs| && qs[i].cacheKey == k && qs[j].cacheKey == k
  {
    if qs != [] {
      var tail := qs[1..];
      OccursTwice(tail, k);
      OccursIffDesired(tail, k);
      if qs[0].cacheKey == k && k in Desired(tail) {
        var q :| q in tail && q.cacheKey == k;
        var j :| 0 <= j < |tail| && tail[j] == q;
        assert qs[0].cacheKey == k && qs[j + 1].cacheKey == k;
      }
      if i, j :| 0 <= i < j < |tail| && tail[i].cacheKey == k && tail[j].cacheKey == k {
        assert qs[i + 1].cacheKey == k && qs[j + 1].cacheKey == k;
      }
      if i, j :| 0 <= i < j < |qs| && qs[i].cacheKey == k && qs[j].cacheKey == k {
        assert tail[j - 1] in tail && tail[j - 1].cacheKey == k;
        if i > 0 { assert tail[i - 1].cacheKey == k && tail[j - 1].cacheKey == k; }
      }
    }
  }

  // ---------------------------------------------------------------- whole runs

  /** Over any run of builds the invariant is kept, and a key's surplus of references grows by exactly
      what the builds of the run leaked. */
  lemma {:induction false} RunLedger(s: State, calls: seq<Call>, k: string)
    requires Inv(s)
    ensures Inv(Run(s, calls))
    ensures Excess(Run(s, calls), k) == Excess(s, k) + RunLeak(s, calls, k)
    decreases |calls|
  {
    if calls != [] {
      BuildKeepsInv(s, calls[0]);
      BuildLedger(s, calls[0], k);
      RunLedger(Build(s, calls[0]).0, calls[1..], k);
    }
  }

  ghost predicate LeakFree(s: State, calls: seq<Call>) {
    forall k :: RunLeak(s, calls, k) == 0
  }

  lemma LeakFreeCons(s: State, calls: seq<Call>)
    requires calls != []
    ensures LeakFree(s, calls) <==>
            (forall k :: Leak(s, calls[0], k) == 0) && LeakFree(Build(s, calls[0]).0, calls[1..])
  {
    var s1 := Build(s, calls[0]).0;
    assert forall k :: RunLeak(s, calls, k) == Leak(s, calls[0], k) + RunLeak(s1, calls[1..], k);
  }

  lemma {:induction false} RunLeakFreeIffClean(s: State, calls: seq<Call>)
    ensures LeakFree(s, calls) <==> CleanRun(s, calls)
    decreases |calls|
  {
    if calls != [] {
      LeakFreeCons(s, calls);
      LeakFreeIffClean(s, calls[0]);
      RunLeakFreeIffClean(Build(s, calls[0]).0, calls[1..]);
    }
  }

  lemma EmptyInv()
    ensures Inv(EMPTY) && forall k :: Excess(EMPTY, k) == 0
  {
    assert forall k :: Trackers(EMPTY, k) == {};
  }

  /** Safety of the cache after any run of builds, failing and repeating ones included: a tracked key has
      an open limiter, counts never fall short, and no limiter is closed while cached or closed twice. */
  lemma RunSafety(calls: seq<Call>, r: string, k: string)
    ensures var s := Run(EMPTY, calls);
            && (k in OldKeys(s, r) ==> k in s.byQuotaKey)
            && (k in s.byQuotaKey ==>
                  && s.byQuotaKey[k].limiter < |s.closeCalls|
                  && s.closeCalls[s.byQuotaKey[k].limiter] == 0
                  && s.byQuotaKey[k].refCount >= |Trackers(s, k)|)
            && forall i :: 0 <= i < |s.closeCalls| ==> s.closeCalls[i] <= 1 && (s.closeCalls[i] == 0 <==> Cached(s, i))
  {
    EmptyInv();
    RunLedger(EMPTY, calls, k);
    var s := Run(EMPTY, calls);
    TrackedIsCached(s, r);
    assert Excess(s, k) >= 0;
    if k in s.byQuotaKey { assert Cached(s, s.byQuotaKey[k].limiter); }
  }

  /** The counts are exact, so that every cached limiter is still wanted, precisely after the clean runs. */
  lemma ExactIffCleanRun(calls: seq<Call>)
    ensures var s := Run(EMPTY, calls);
            && ((forall k :: RefCount(s, k) == |Trackers(s, k)|) <==> CleanRun(EMPTY, calls))
            && (CleanRun(EMPTY, calls) ==> forall k :: k in s.byQuotaKey ==> Trackers(s, k) != {})
  {
    EmptyInv();
    var s := Run(EMPTY, calls);
    forall k ensures Excess(s, k) == RunLeak(EMPTY, calls, k) { RunLedger(EMPTY, calls, k); }
    RunLedger(EMPTY, calls, "");
    RunLeakFreeIffClean(EMPTY, calls);
    if forall k :: RefCount(s, k) == |Trackers(s, k)| {
      forall k ensures RunLeak(EMPTY, calls, k) == 0 { assert Excess(s, k) == 0; }
      assert LeakFree(EMPTY, calls);
    }
    if CleanRun(EMPTY, calls) {
      forall k ensures RefCount(s, k) == |Trackers(s, k)| { assert RunLeak(EMPTY, calls, k) == 0; }
      forall k | k in s.byQuotaKey
        ensures Trackers(s, k) != {}
      {
        assert |Trackers(s, k)| >= 1;
      }
    }
  }

  /** What pins a limiter against one build: another bucket tracking its key, or a leaked reference. */
  ghost predicate Pinned(s: State, k: string, r: string) {
    k in s.byQuotaKey && (Excess(s, k) > 0 || exists r' :: r' != r && r' in Trackers(s, k))
  }

  lemma PinnedSurvivesBuild(s: State, c: Call, k: string)
    requires Inv(s) && Pinned(s, k, c.reconcileKey)
    ensures var s' := Build(s, c).0;
            k in s'.byQuotaKey && s'.byQuotaKey[k].limiter == s.byQuotaKey[k].limiter
  {
    var oldKeys := OldKeys(s, c.reconcileKey);
    TrackedIsCached(s, c.reconcileKey);
    AcquireAllKeys(s, c.quotas, oldKeys);
    AcquireAllCounts(s, c.quotas, oldKeys, k);
    AcquireAllKeepsLimiter(s, c.quotas, oldKeys, k);
    if k in oldKeys {
      assert Excess(s, k) >= 0 && c.reconcileKey in Trackers(s, k);
      if r' :| r' != c.reconcileKey && r' in Trackers(s, k) {
        CardMono({r', c.reconcileKey}, Trackers(s, k));
      } else {
        CardMono({c.reconcileKey}, Trackers(s, k));
      }
      assert RefCount(s, k) >= 2;
    }
  }

  lemma {:induction false} AcquireAllKeepsLimiter(s: State, qs: seq<Quota>, oldKeys: set<string>, k: string)
    requires k in s.byQuotaKey
    ensures var s' := AcquireAll(s, qs, oldKeys).0;
            k in s'.byQuotaKey && s'.byQuotaKey[k].limiter == s.byQuotaKey[k].limiter
    decreases |qs|
  {
    if qs != [] && Acquire(s, qs[0], oldKeys).1 {
      AcquireAllKeepsLimiter(Acquire(s, qs[0], oldKeys).0, qs[1..], oldKeys, k);
    }
  }

  /** The limiter a deployed policy holds is neither closed nor replaced by any run of builds of other
      policies, whether they succeed or fail. */
  lemma {:induction false} HeldLimiterStaysOpen(s: State, calls: seq<Call>, r: string, k: string)
    requires Inv(s) && k in OldKeys(s, r)
    requires forall c :: c in calls ==> c.reconcileKey != r
    ensures var s' := Run(s, calls);
            && k in OldKeys(s', r) && k in s.byQuotaKey && k in s'.byQuotaKey
            && s'.byQuotaKey[k].limiter == s.byQuotaKey[k].limiter < |s'.closeCalls|
            && s'.closeCalls[s'.byQuotaKey[k].limiter] == 0
    decreases |calls|
  {
    TrackedIsCached(s, r);
    if calls == [] {
      assert Cached(s, s.byQuotaKey[k].limiter);
    } else {
      var c := calls[0];
      assert r in Trackers(s, k);
      PinnedSurvivesBuild(s, c, k);
      BuildKeepsInv(s, c);
      AcquireAllKeys(s, c.quotas, OldKeys(s, c.reconcileKey));
      HeldLimiterStaysOpen(Build(s, c).0, calls[1..], r, k);
    }
  }

  /** A leaked reference is for ever: no later run of builds closes that limiter. */
  lemma {:induction false} LeakedLimiterNeverCloses(s: State, calls: seq<Call>, k: string)
    requires Inv(s) && Excess(s, k) > 0
    ensures var s' := Run(s, calls);
            && k in s.byQuotaKey && k in s'.byQuotaKey
            && s'.byQuotaKey[k].limiter == s.byQuotaKey[k].limiter < |s'.closeCalls|
            && s'.closeCalls[s'.byQuotaKey[k].limiter] == 0
            && Excess(s', k) > 0
    decreases |calls|
  {
    if calls == [] {
      assert Cached(s, s.byQuotaKey[k].limiter);
    } else {
      PinnedSurvivesBuild(s, calls[0], k);
      BuildKeepsInv(s, calls[0]);
      BuildLedger(s, calls[0], k);
      LeakedLimiterNeverCloses(Build(s, calls[0]).0, calls[1..], k);
    }
  }

  const STRANDED := Call("route", [Quota("first", true), Quota("second", false)])

  /** A build that creates one limiter and fails at the next: the first keeps a reference nobody tracks, and no run
      that follows closes it. */
  lemma FailedBuildStrandsLimiter(calls: seq<Call>)
    ensures var s := Build(EMPTY, STRANDED).0;
            && !Build(EMPTY, STRANDED).1 && !Clean(EMPTY, STRANDED)
            && RefCount(s, "first") == 1 && Trackers(s, "first") == {}
            && var s' := Run(s, calls);
               && "first" in s'.byQuotaKey && s'.byQuotaKey["first"].limiter == 0 < |s'.closeCalls|
               && s'.closeCalls[0] == 0
  {
    var first, second := Quota("first", true), Quota("second", false);
    assert STRANDED.quotas[1..] == [second];
    var s1 := Acquire(EMPTY, first, {}).0;
    assert AcquireAll(s1, [second], {}) == (s1, false);
    assert Processed({} + {"first"}, [second]) == 0 && Processed({}, STRANDED.quotas) == 1;
    assert STRANDED.quotas[0].cacheKey !in OldKeys(EMPTY, "route");
    EmptyInv();
    BuildKeepsInv(EMPTY, STRANDED);
    LeakedLimiterNeverCloses(s1, calls, "first");
  }

  /** A build that names one new key twice takes two references and tracks one. */
  lemma RepeatedKeyIsCountedTwice()
    ensures var c := Call("route", [Quota("key", true), Quota("key", true)]);
            var s := Build(EMPTY, c).0;
            Build(EMPTY, c).1 && !Clean(EMPTY, c) && RefCount(s, "key") == 2 && |Trackers(s, "key")| == 1
  {
    var q := Quota("key", true);
    var qs := [q, q];
    assert qs[1..] == [q] && [q][1..] == [];
    var s1 := Acquire(EMPTY, q, {}).0;
    var s2 := Acquire(s1, q, {}).0;
    assert AcquireAll(s1, [q], {}) == (s2, true);
    assert Desired(qs) == {"key"};
    ReleaseNothing(s2);
    assert {} - Desired(qs) == {};
    var s := Build(EMPTY, Call("route", qs)).0;
    assert Trackers(s, "key") == {"route"};
    assert Processed({} + {"key"}, [q]) == 1 && Processed({}, qs) == 2;
    assert qs[0].cacheKey == qs[1].cacheKey;
  }

  /** Redeploying a policy unchanged changes nothing. */
  lemma RedeployIsIdempotent(s: State, c: Call)
    requires Inv(s) && Build(s, c).1
    ensures Build(Build(s, c).0, c) == (Build(s, c).0, true)
  {
    var s1 := Build(s, c).0;
    BuildKeepsInv(s, c);
    TrackedIsCached(s1, c.reconcileKey);
    AcquireTracked(s1, c.quotas, Desired(c.quotas));
    assert Desired(c.quotas) - Desired(c.quotas) == {};
    ReleaseNothing(s1);
    assert s1.quotaKeysByBaseKey[c.reconcileKey := Desired(c.quotas)] == s1.quotaKeysByBaseKey;
  }

  lemma {:induction false} AcquireTracked(s: State, qs: seq<Quota>, oldKeys: set<string>)
    requires oldKeys <= s.byQuotaKey.Keys && Desired(qs) <= oldKeys
    ensures AcquireAll(s, qs, oldKeys) == (s, true)
    decreases |qs|
  {
    if qs != [] {
      assert qs[0].cacheKey in Desired(qs);
      AcquireTracked(s, qs[1..], oldKeys);
    }
  }
}
