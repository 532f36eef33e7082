/** The mutable cache itself: entries shared by pointer, limiters that can be closed. */
module LimiterCache {
  import opened LimiterCacheSpec

  /** A limiter, reduced to its life cycle. */
  class Limiter {
    ghost const id: nat  // its creation number
    var closeCalls: nat

    constructor (ghost id: nat)
      ensures this.id == id && closeCalls == 0
    {
      this.id := id;
      closeCalls := 0;
    }

    method Close()
      modifies this
      ensures closeCalls == old(closeCalls) + 1
    {
      closeCalls := closeCalls + 1;
    }
  }

  class LimiterEntry {
    const lim: Limiter
    var refCount: int

    constructor (lim: Limiter)
      ensures this.lim == lim && refCount == 1
    {
      this.lim, refCount := lim, 1;
    }
  }

  class Cache {
    var byQuotaKey: map<string, LimiterEntry>
    var quotaKeysByBaseKey: map<string, set<string>>
    ghost var created: seq<Limiter>  // every limiter ever made, in order
    ghost var state: State           // the abstract value; Valid ties it to the objects
    ghost var repr: set<object>      // the entries and limiters the cache has made

    ghost predicate Valid()
      reads this, repr
    {
      && this !in repr
      && state.byQuotaKey.Keys == byQuotaKey.Keys
      && state.quotaKeysByBaseKey == quotaKeysByBaseKey
      && |state.closeCalls| == |created|
      && (forall i {:trigger created[i]} :: 0 <= i < |created| ==>
            created[i] in repr && created[i].id == i && created[i].closeCalls == state.closeCalls[i])
      && (forall k :: k in byQuotaKey ==> byQuotaKey[k] in repr && Matches(byQuotaKey[k], state.byQuotaKey[k]))
      && (forall k, k' :: k in byQuotaKey && k' in byQuotaKey && k != k' ==> byQuotaKey[k] != byQuotaKey[k'])
    }

    ghost predicate Matches(entry: LimiterEntry, slot: Slot)
      reads this, entry
    {
      slot.limiter < |created| && entry.lim == created[slot.limiter] && entry.refCount == slot.refCount
    }

    constructor ()
      ensures Valid() && state == EMPTY && Inv(state) && repr == {}
    {
      byQuotaKey, quotaKeysByBaseKey, created, state, repr := map[], map[], [], EMPTY, {};
      new;
      EmptyInv();
    }

    /** Take one more reference to a cached limiter. */
    method AddReference(key: string)
      requires Valid() && key in byQuotaKey
      modifies byQuotaKey[key], this`state
      ensures Valid()
      ensures state == old(state).(byQuotaKey :=
                old(state).byQuotaKey[key := old(state).byQuotaKey[key].(refCount := old(state).byQuotaKey[key].refCount + 1)])
    {
      var entry := byQuotaKey[key];
      entry.refCount := entry.refCount + 1;
      var slot := state.byQuotaKey[key];
      state := state.(byQuotaKey := state.byQuotaKey[key := slot.(refCount := slot.refCount + 1)]);
    }

    /** Create a limiter and cache it with one reference. */
    method Create(key: string) returns (lim: Limiter)
      requires Valid() && key !in byQuotaKey
      modifies this
      ensures Valid() && fresh(repr - old(repr))
      ensures state == old(state).(byQuotaKey := old(state).byQuotaKey[key := Slot(|old(state).closeCalls|, 1)],
                                   closeCalls := old(state).closeCalls + [0])
      ensures byQuotaKey.Keys == old(byQuotaKey).Keys + {key} && byQuotaKey[key].lim == lim
      ensures forall k :: k in old(byQuotaKey) ==> byQuotaKey[k] == old(byQuotaKey[k])
    {
      lim := new Limiter(|created|);
      var entry := new LimiterEntry(lim);
      byQuotaKey := byQuotaKey[key := entry];
      state := state.(byQuotaKey := state.byQuotaKey[key := Slot(|created|, 1)], closeCalls := state.closeCalls + [0]);
      created := created + [lim];
      repr := repr + {lim, entry};
    }

    /** One turn of the quota loop. */
    method Acquire(q: Quota, oldKeys: set<string>) returns (lim: Limiter?, ok: bool)
      requires Valid()
      modifies this, repr
      ensures Valid()
      ensures (state, ok) == LimiterCacheSpec.Acquire(old(state), q, oldKeys)
      ensures ok ==> q.cacheKey in byQuotaKey && byQuotaKey[q.cacheKey].lim == lim
      ensures forall k :: k in old(byQuotaKey) ==> k in byQuotaKey && byQuotaKey[k] == old(byQuotaKey[k])
      ensures fresh(repr - old(repr))
    {
      ok := true;
      if q.cacheKey in byQuotaKey {
        lim := byQuotaKey[q.cacheKey].lim;
        if q.cacheKey !in oldKeys { AddReference(q.cacheKey); }
      } else if q.canCreate {
        lim := Create(q.cacheKey);
      } else {
        lim, ok := null, false;
      }
    }

    /** Take one reference away. */
    method DropReference(key: string)
      requires Valid() && key in byQuotaKey
      modifies byQuotaKey[key], this`state
      ensures Valid()
      ensures state == old(state).(byQuotaKey :=
                old(state).byQuotaKey[key := old(state).byQuotaKey[key].(refCount := old(state).byQuotaKey[key].refCount - 1)])
    {
      var entry := byQuotaKey[key];
      entry.refCount := entry.refCount - 1;
      var slot := state.byQuotaKey[key];
      state := state.(byQuotaKey := state.byQuotaKey[key := slot.(refCount := slot.refCount - 1)]);
    }

    /** Close a limiter and take it out of the cache. */
    method CloseAndForget(key: string)
      requires Valid() && key in byQuotaKey
      modifies byQuotaKey[key].lim, this`state, this`byQuotaKey
      ensures Valid() && byQuotaKey == old(byQuotaKey) - {key}
      ensures var i := old(state).byQuotaKey[key].limiter;
              state == old(state).(byQuotaKey := old(state).byQuotaKey - {key},
                                   closeCalls := old(state).closeCalls[i := old(state).closeCalls[i] + 1])
    {
      var entry, i := byQuotaKey[key], state.byQuotaKey[key].limiter;
      assert Matches(entry, state.byQuotaKey[key]);
      entry.lim.Close();
      byQuotaKey := byQuotaKey - {key};
      state := state.(byQuotaKey := state.byQuotaKey - {key}, closeCalls := state.closeCalls[i := state.closeCalls[i] + 1]);
    }

    /** What the abstract value says of one key. */
    lemma EntryHolds(k: string)
      requires Valid()
      ensures k in byQuotaKey <==> k in state.byQuotaKey
      ensures k in byQuotaKey ==>
                && byQuotaKey[k] in repr && byQuotaKey[k].lim in repr
                && byQuotaKey[k].refCount == state.byQuotaKey[k].refCount
    {
      if k in byQuotaKey { assert Matches(byQuotaKey[k], state.byQuotaKey[k]); }
    }

    /** Drop one reference to a stale key, closing and forgetting a limiter nobody references. */
    method Release(k: string)
      requires Valid() && Separate(state)
      modifies this, repr
      ensures Valid()
      ensures state == ReleaseOne(old(state), k)
      ensures repr == old(repr)
      ensures byQuotaKey == old(byQuotaKey) || byQuotaKey == old(byQuotaKey) - {k}
    {
      hide ReleaseOne, Separate, Valid, Matches;
      AbsentReleasesNothing(state, k);
      EntryHolds(k);
      if k in byQuotaKey {
        var entry := byQuotaKey[k];
        DropThenForget(state, k);
        DropReference(k);
        EntryHolds(k);
        if entry.refCount <= 0 { CloseAndForget(k); }
      }
    }

    /** The first `n` quotas got the limiters cached under their keys. */
    ghost predicate Serves(quotas: seq<Quota>, limiters: seq<Limiter>, n: nat)
      requires n <= |quotas|
      reads this
    {
      |limiters| == n && forall i :: 0 <= i < n ==>
        quotas[i].cacheKey in byQuotaKey && byQuotaKey[quotas[i].cacheKey].lim == limiters[i]
    }

    method IndexKeys(reconcileKey: string, keys: set<string>)
      requires Valid()
      modifies this
      ensures Valid()
      ensures state == old(state).(quotaKeysByBaseKey := old(state).quotaKeysByBaseKey[reconcileKey := keys])
      ensures repr == old(repr) && byQuotaKey == old(byQuotaKey)
    {
      quotaKeysByBaseKey := quotaKeysByBaseKey[reconcileKey := keys];
      state := state.(quotaKeysByBaseKey := quotaKeysByBaseKey);
    }

    lemma ServedAreOpen(quotas: seq<Quota>, limiters: seq<Limiter>)
      requires Valid() && Sound(state) && Serves(quotas, limiters, |quotas|)
      ensures forall i :: 0 <= i < |quotas| ==> limiters[i].closeCalls == 0
    {
      forall i | 0 <= i < |quotas|
        ensures limiters[i].closeCalls == 0
      {
        var slot := state.byQuotaKey[quotas[i].cacheKey];
        assert Matches(byQuotaKey[quotas[i].cacheKey], slot);
        assert Cached(state, slot.limiter);
      }
    }

    /** The quota loop: `limiters[i]` is what quota `i` will use. */
    method AcquireQuotas(quotas: seq<Quota>, oldKeys: set<string>) returns (limiters: seq<Limiter>, ok: bool)
      requires Valid()
      modifies this, repr
      ensures Valid()
      ensures (state, ok) == AcquireAll(old(state), quotas, oldKeys)
      ensures ok ==> Serves(quotas, limiters, |quotas|)
      ensures fresh(repr - old(repr))
    {
      hide LimiterCacheSpec.Acquire, AcquireAll, Valid;
      AcquireAllStep(state, quotas, 0, oldKeys);
      limiters := [];
      for i := 0 to |quotas|
        invariant Valid()
        invariant AcquireAll(old(state), quotas, oldKeys) == AcquireAll(state, quotas[i..], oldKeys)
        invariant Serves(quotas, limiters, i)
        invariant fresh(repr - old(repr))
      {
        AcquireAllStep(state, quotas, i, oldKeys);
        var lim, acquired := Acquire(quotas[i], oldKeys);
        if !acquired {
          return [], false;
        }
        limiters := limiters + [lim];
      }
      AcquireAllStep(state, quotas, |quotas|, oldKeys);
      ok := true;
    }

    /** The stale-key loop, which visits the keys in no particular order. */
    method ReleaseStale(staleKeys: set<string>)
      requires Valid() && Sound(state)
      modifies this, repr
      ensures Valid()
      ensures state == ReleaseAll(old(state), staleKeys)
      ensures repr == old(repr)
      ensures forall k :: k in old(byQuotaKey) && k !in staleKeys ==> k in byQuotaKey && byQuotaKey[k] == old(byQuotaKey[k])
    {
      hide ReleaseAll, Separate, ClosedOnceWhenDropped;
      var stale := staleKeys;
      while stale != {}
        invariant Valid() && Sound(state) && stale <= staleKeys
        invariant ReleaseAll(old(state), staleKeys) == ReleaseAll(state, stale)
        invariant repr == old(repr)
        invariant forall k :: k in old(byQuotaKey) && k !in staleKeys ==> k in byQuotaKey && byQuotaKey[k] == old(byQuotaKey[k])
      {
        var k :| k in stale;
        ReleaseAnyOrder(state, k, stale);
        ReleaseSingleton(state, k);
        ReleaseKeepsSound(state, {k});
        Release(k);
        stale := stale - {k};
      }
      ReleaseNothing(state);
    }

    /** The reconcile block of one policy build. On success every quota got the open limiter cached
        under its key. */
    method Reconcile(reconcileKey: string, quotas: seq<Quota>) returns (limiters: seq<Limiter>, ok: bool)
      requires Valid() && Inv(state)
      modifies this, repr
      ensures Valid() && Inv(state) && fresh(repr - old(repr))
      ensures (state, ok) == Build(old(state), Call(reconcileKey, quotas))
      ensures ok ==> Serves(quotas, limiters, |quotas|) && forall i :: 0 <= i < |quotas| ==> limiters[i].closeCalls == 0
    {
      var oldKeys := if reconcileKey in quotaKeysByBaseKey then quotaKeysByBaseKey[reconcileKey] else {};
      var desired := set q | q in quotas :: q.cacheKey;
      BuildKeepsInv(state, Call(reconcileKey, quotas));
      AcquireAllKeepsSound(state, quotas, oldKeys);
      limiters, ok := AcquireQuotas(quotas, oldKeys);
      if ok {
        ReleaseStale(oldKeys - desired);
        IndexKeys(reconcileKey, desired);
        ServedAreOpen(quotas, limiters);
      }
    }
  }
}
