/** Cached token verdicts: what full verification says at an instant, what is stored, and what may be served. */
module VerdictCacheSpec {
  import opened Wrappers

  type Time = int

  /** A cache key. The hash is taken as injective, so a key is the configuration fingerprint and the token. */
  datatype Key = Key(fingerprint: string, token: string)

  /** What issuer matching and signature checking say of a token, with keys and configuration fixed. */
  datatype Signature = Accepted(claims: string, scopes: seq<string>) | Unaccepted(reason: string)

  /** A presented token. `exp` and `nbf` are its numeric claims, if it has them. */
  datatype Presented = Malformed | Parsed(exp: Option<Time>, nbf: Option<Time>, signature: Signature)

  datatype Outcome = Verified(claims: string, scopes: seq<string>) | InvalidFormat | Expired | Refused(reason: string)

  /** Full verification at `now`. The gateway accepts the last instant `exp + leeway`; the token library, which
      also checks the signature, does not. */
  function FullVerify(p: Presented, leeway: int, now: Time): Outcome {
    match p
    case Malformed => InvalidFormat
    case Parsed(exp, nbf, signature) =>
      if exp.Some? && now > exp.value + leeway then Expired
      else if nbf.Some? && now < nbf.value - leeway then Refused("token not yet valid")
      else if signature.Unaccepted? then Refused(signature.reason)
      else if exp.Some? && !(now < exp.value + leeway) then Refused("signature verification failed")
      else Verified(signature.claims, signature.scopes)
  }

  datatype Verdict = Verdict(outcome: Outcome, expiresAt: Time)

  function Min(a: Time, b: Time): Time { if a < b then a else b }

  /** Clock readings while one token is verified: at the checks, when the expiry is computed, when it is tested. */
  datatype Readings = Readings(verified: Time, computed: Time, tested: Time)

  predicate InOrder(r: Readings) {
    r.verified <= r.computed <= r.tested
  }

  datatype Ttls = Ttls(positive: int, negative: int)

  /** The verdict to store after full verification, if any: failures that can never turn into successes for the
      negative time to live, successes until the sooner of the time to live and `exp - leeway`. */
  function VerdictFor(p: Presented, leeway: int, r: Readings, ttls: Ttls): Option<Verdict> {
    var o := FullVerify(p, leeway, r.verified);
    match o
    case InvalidFormat => Some(Verdict(o, r.computed + ttls.negative))
    case Expired => Some(Verdict(o, r.computed + ttls.negative))
    case Refused(_) => None
    case Verified(_, _) =>
      var expiresAt := if p.exp.Some? then Min(r.computed + ttls.positive, p.exp.value - leeway)
                       else r.computed + ttls.positive;
      if expiresAt > r.tested then Some(Verdict(o, expiresAt)) else None
  }

  // ---------------------------------------------------------------- runs

  datatype State = State(entries: map<Key, Verdict>, clock: Time)

  /** Atomic steps of the shared cache, each at an instant: a lookup, a store of a verdict worked out earlier,
      an eviction of any entries, a rebuild. */
  datatype Step =
    | Lookup(key: Key, now: Time)
    | Store(key: Key, readings: Readings, ttls: Ttls, now: Time)
    | Evict(keys: set<Key>, now: Time)
    | Rebuild(now: Time)

  /** The clock does not go back, and verdicts are stored after they were worked out. */
  predicate Timely(s: State, step: Step) {
    s.clock <= step.now && (step.Store? ==> InOrder(step.readings) && step.readings.tested <= step.now)
  }

  predicate Hits(s: State, key: Key, now: Time) {
    key in s.entries && now < s.entries[key].expiresAt
  }

  /** Configurations share the cache. A key's fingerprint settles the leeway, so `leeway` depends on the key. */
  function Next(s: State, step: Step, tokens: Key -> Presented, leeway: Key -> int): State {
    match step
    case Lookup(key, now) =>
      State(if Hits(s, key, now) then s.entries else s.entries - {key}, now)
    case Store(key, r, ttls, now) =>
      var v := VerdictFor(tokens(key), leeway(key), r, ttls);
      State(if v.Some? then s.entries[key := v.value] else s.entries, now)
    case Evict(keys, now) => State(s.entries - keys, now)
    case Rebuild(now) => State(map[], now)
  }

  /** Every lookup of `key` in the run that hits is answered as full verification would answer at that instant. */
  ghost predicate ServesTruth(s: State, steps: seq<Step>, tokens: Key -> Presented, leeway: Key -> int, key: Key)
    decreases |steps|
  {
    steps != [] && Timely(s, steps[0]) ==>
      var step := steps[0];
      && (step.Lookup? && step.key == key && Hits(s, key, step.now) ==>
            s.entries[key].outcome == FullVerify(tokens(key), leeway(key), step.now))
      && ServesTruth(Next(s, step, tokens, leeway), steps[1..], tokens, leeway, key)
  }

  /** A verdict that stays right from `since` until it expires. */
  ghost predicate StaysRight(v: Verdict, p: Presented, leeway: int, since: Time) {
    forall t :: since <= t < v.expiresAt ==> FullVerify(p, leeway, t) == v.outcome
  }

  /** What is stored stays right as long as it may be served, provided the leeway is not negative. */
  lemma StoredStaysRight(p: Presented, leeway: int, r: Readings, ttls: Ttls)
    requires leeway >= 0 && InOrder(r) && VerdictFor(p, leeway, r, ttls).Some?
    ensures StaysRight(VerdictFor(p, leeway, r, ttls).value, p, leeway, r.verified)
  {}

  ghost predicate Inv(s: State, tokens: Key -> Presented, leeway: Key -> int, key: Key) {
    key in s.entries ==> StaysRight(s.entries[key], tokens(key), leeway(key), s.clock)
  }

  lemma StepKeepsInv(s: State, step: Step, tokens: Key -> Presented, leeway: Key -> int, key: Key)
    requires leeway(key) >= 0 && Inv(s, tokens, leeway, key) && Timely(s, step)
    ensures Inv(Next(s, step, tokens, leeway), tokens, leeway, key)
  {
    hide FullVerify, VerdictFor;
    if step.Store? && key == step.key && VerdictFor(tokens(key), leeway(key), step.readings, step.ttls).Some? {
      StoredStaysRight(tokens(key), leeway(key), step.readings, step.ttls);
    }
  }

  lemma {:induction false} InvServesTruth(s: State, steps: seq<Step>, tokens: Key -> Presented, leeway: Key -> int, key: Key)
    requires leeway(key) >= 0 && Inv(s, tokens, leeway, key)
    ensures ServesTruth(s, steps, tokens, leeway, key)
    decreases |steps|
  {
    if steps != [] && Timely(s, steps[0]) {
      StepKeepsInv(s, steps[0], tokens, leeway, key);
      InvServesTruth(Next(s, steps[0], tokens, leeway), steps[1..], tokens, leeway, key);
    }
  }

  /** The claim for one key: over every run of the shared cache, what is served under it is true. */
  ghost predicate Trustworthy(leeway: Key -> int, key: Key) {
    forall tokens: Key -> Presented, steps: seq<Step>, start: Time ::
      ServesTruth(State(map[], start), steps, tokens, leeway, key)
  }

  /** A negative leeway lets a verdict outlive its token: `exp - leeway` then lies after `exp + leeway`. */
  lemma NegativeLeewayServesStale(leeway: Key -> int, key: Key)
    returns (tokens: Key -> Presented, steps: seq<Step>, start: Time)
    requires leeway(key) < 0
    ensures !ServesTruth(State(map[], start), steps, tokens, leeway, key)
  {
    var p, l := Parsed(Some(0), None, Accepted("claims", [])), leeway(key);
    tokens := (k: Key) => p;
    start := l - 1;
    var store := Store(key, Readings(start, start, start), Ttls(1 - 3 * l, 0), start);
    var lookup := Lookup(key, l + 1);
    steps := [store, lookup];
    var s0 := State(map[], start);
    var s1 := Next(s0, store, tokens, leeway);
    assert FullVerify(p, l, start) == Verified("claims", []);
    assert s1.entries[key] == Verdict(Verified("claims", []), -l);
    assert steps[1..] == [lookup];
    assert !ServesTruth(s1, [lookup], tokens, leeway, key);
  }

  /** A key's cached verdicts can be trusted exactly when its own leeway is not negative, whatever leeway other
      configurations in the cache have. */
  lemma TrustworthyIffLeewayNotNegative(leeway: Key -> int, key: Key)
    ensures Trustworthy(leeway, key) <==> leeway(key) >= 0
  {
    if leeway(key) >= 0 {
      forall tokens: Key -> Presented, steps: seq<Step>, start: Time
        ensures ServesTruth(State(map[], start), steps, tokens, leeway, key)
      {
        InvServesTruth(State(map[], start), steps, tokens, leeway, key);
      }
    } else {
      var tokens, steps, start := NegativeLeewayServesStale(leeway, key);
    }
  }

  // ---------------------------------------------------------------- what is verified, and what is kept

  /** A token with an accepted signature is verified exactly from `nbf - leeway` on and before `exp + leeway`; without
      a claim that side is open. Its claims and scopes are passed on. */
  lemma VerifiedWindow(exp: Option<Time>, nbf: Option<Time>, claims: string, scopes: seq<string>, leeway: int, now: Time)
    ensures var o := FullVerify(Parsed(exp, nbf, Signature.Accepted(claims, scopes)), leeway, now);
            && (o.Verified? <==> (nbf.Some? ==> nbf.value - leeway <= now) && (exp.Some? ==> now < exp.value + leeway))
            && (o.Verified? ==> o == Verified(claims, scopes))
            && (o.Expired? <==> exp.Some? && now > exp.value + leeway)
  {}

  /** A token with any other signature is never verified, and a malformed one has the wrong format. */
  lemma NeverVerified(exp: Option<Time>, nbf: Option<Time>, reason: string, leeway: int, now: Time)
    ensures !FullVerify(Parsed(exp, nbf, Unaccepted(reason)), leeway, now).Verified?
    ensures FullVerify(Malformed, leeway, now) == InvalidFormat
  {}

  /** How long a lookup hits after a verification that just ended: a success until its time to live or `exp - leeway`,
      whichever is sooner; a malformed or expired token for the negative time to live; any other failure never. */
  lemma KeptUntil(s: State, key: Key, tokens: Key -> Presented, leeway: Key -> int, r: Readings, ttls: Ttls, now: Time, t: Time)
    requires key !in s.entries && t >= r.tested
    ensures var o := FullVerify(tokens(key), leeway(key), r.verified);
            var s' := Next(s, Store(key, r, ttls, now), tokens, leeway);
            && (o.Verified? ==>
                  (Hits(s', key, t) <==> t < r.computed + ttls.positive
                                         && (tokens(key).exp.Some? ==> t < tokens(key).exp.value - leeway(key))))
            && (o.InvalidFormat? || o.Expired? ==> (Hits(s', key, t) <==> t < r.computed + ttls.negative))
            && (o.Refused? ==> !Hits(s', key, t))
            && (Hits(s', key, t) ==> s'.entries[key].outcome == o)
  {}
}

/** The policy's shared cache as it is kept and rebuilt. */
module VerdictCache {
  import opened Wrappers
  import opened VerdictCacheSpec

  class JwtAuthPolicy {
    var tokenCache: map<Key, Verdict>
    var tokenCacheSize: int

    constructor (size: int)
      ensures tokenCache == map[] && tokenCacheSize == size
    {
      tokenCache, tokenCacheSize := map[], size;
    }

    /** Replaces the cache when the configured size changes. */
    method EnsureTokenCache(maxSize: int)
      modifies this
      ensures tokenCacheSize == maxSize
      ensures tokenCache == if old(tokenCacheSize) == maxSize then old(tokenCache) else map[]
    {
      if tokenCacheSize == maxSize { return; }
      tokenCache, tokenCacheSize := map[], maxSize;
    }

    /** An entry past its window is removed and reported as a miss. */
    method GetCachedVerdict(key: Key, now: Time) returns (verdict: Option<Verdict>)
      modifies this`tokenCache
      ensures verdict == if Hits(State(old(tokenCache), now), key, now) then Some(old(tokenCache)[key]) else None
      ensures tokenCache == if Hits(State(old(tokenCache), now), key, now) then old(tokenCache)
                            else old(tokenCache) - {key}
    {
      if key !in tokenCache {
        assert tokenCache - {key} == tokenCache;
        return None;
      }
      var v := tokenCache[key];
      if !(now < v.expiresAt) {
        tokenCache := tokenCache - {key};
        return None;
      }
      return Some(v);
    }

    /** Stores a verdict; a full cache makes room by dropping other entries. From then on the key is answered by this
        verdict until it expires, and any other key as before or not at all. */
    method PutVerdict(key: Key, verdict: Verdict, evicted: set<Key>)
      requires key !in evicted
      modifies this`tokenCache
      ensures forall now :: Hits(State(tokenCache, now), key, now) <==> now < verdict.expiresAt
      ensures key in tokenCache && tokenCache[key] == verdict
      ensures forall k :: k != key ==> (k in tokenCache <==> k in old(tokenCache) && k !in evicted)
      ensures forall k :: k != key && k in tokenCache ==> tokenCache[k] == old(tokenCache)[k]
    {
      tokenCache := tokenCache[key := verdict] - evicted;
    }

    /** The cache logic around one verification: a hit is served as it is, a miss is verified in full and its
        verdict kept when it is safe to keep. */
    method Authenticate(key: Key, p: Presented, leeway: int, ttls: Ttls, lookedUp: Time, r: Readings, evicted: set<Key>)
      returns (outcome: Outcome)
      requires lookedUp <= r.verified && InOrder(r) && key !in evicted
      modifies this`tokenCache
      ensures var s := State(old(tokenCache), lookedUp);
              var tokens, leeways := (k: Key) => p, (k: Key) => leeway;
              var miss := Next(s, Lookup(key, lookedUp), tokens, leeways);
              if Hits(s, key, lookedUp) then outcome == old(tokenCache)[key].outcome && tokenCache == old(tokenCache)
              else
                && outcome == FullVerify(p, leeway, r.verified)
                && tokenCache == if VerdictFor(p, leeway, r, ttls).None? then miss.entries
                                 else Next(miss, Store(key, r, ttls, r.tested), tokens, leeways).entries - evicted
    {
      var hit := GetCachedVerdict(key, lookedUp);
      if hit.Some? { return hit.value.outcome; }
      if p.Malformed? {
        PutVerdict(key, Verdict(InvalidFormat, r.computed + ttls.negative), evicted);
        return InvalidFormat;
      }
      outcome := FullVerify(p, leeway, r.verified);
      if !outcome.Verified? {
        if outcome.Expired? { PutVerdict(key, Verdict(outcome, r.computed + ttls.negative), evicted); }
        return;
      }
      var expiresAt := r.computed + ttls.positive;
      if p.exp.Some? {
        var tokenExpiry := p.exp.value - leeway;
        if tokenExpiry < expiresAt { expiresAt := tokenExpiry; }
      }
      if expiresAt > r.tested { PutVerdict(key, Verdict(outcome, expiresAt), evicted); }
    }
  }
}
