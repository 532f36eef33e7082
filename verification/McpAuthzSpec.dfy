/** Scope and claim rules over MCP capabilities, and the dialogue between a challenged client and the policy. */
module McpAuthzSpec {
  import opened Wrappers

  datatype ScopeConstraints = ScopeConstraints(allOf: seq<string>, anyOf: seq<string>)

  datatype ClaimMatcher = ClaimMatcher(claim: string, values: seq<string>, legacyExactString: bool)

  datatype ClaimConstraints = ClaimConstraints(allOf: seq<ClaimMatcher>, anyOf: seq<ClaimMatcher>)

  /** `requiredClaims` and `requiredScopes` are the deprecated conditions; the former as exact matchers, in any order. */
  datatype Rule = Rule(kind: string, name: string, scopes: ScopeConstraints, claims: ClaimConstraints,
                       requiredScopes: seq<string>, requiredClaims: seq<ClaimMatcher>)

  datatype Request = Request(attributeType: string, attributeName: string, method_: string)

  /** An identity; a typed claim is carried as the texts its value is rendered to. */
  datatype AuthContext = AuthContext(authenticated: bool, scopes: set<string>, subject: string, issuer: string,
                                     audience: seq<string>, properties: Option<map<string, string>>,
                                     typedProperties: map<string, seq<string>>)

  const WILDCARD := "*"

  predicate NameMatches(rule: Rule, name: string) {
    rule.name == WILDCARD || rule.name == name
  }

  /** A rule on methods matches the method; any other matches a named capability of its type. */
  predicate Targets(rule: Rule, q: Request) {
    || (rule.kind == "method" && NameMatches(rule, q.method_))
    || (rule.kind == q.attributeType && q.attributeName != "" && NameMatches(rule, q.attributeName))
  }

  ghost function Select(rules: seq<Rule>, p: Rule -> bool): seq<Rule> {
    if rules == [] then []
    else
      var last := rules[|rules| - 1];
      Select(rules[..|rules| - 1], p) + (if p(last) then [last] else [])
  }

  predicate IsWildcard(rule: Rule) { rule.name == WILDCARD }

  /** The rules that govern a request, those with exact names first. */
  ghost function Governing(rules: seq<Rule>, q: Request): seq<Rule> {
    var m := Select(rules, r => Targets(r, q));
    Select(m, r => !IsWildcard(r)) + Select(m, IsWildcard)
  }

  predicate ClaimMatches(m: ClaimMatcher, a: AuthContext) {
    match m.claim
    case "sub" => a.subject in m.values
    case "iss" => a.issuer in m.values
    case "aud" => exists x :: x in a.audience && x in m.values
    case _ =>
      if !m.legacyExactString && m.claim in a.typedProperties then
        exists x :: x in a.typedProperties[m.claim] && x in m.values
      else
        a.properties.Some? && (if m.claim in a.properties.value then a.properties.value[m.claim] else "") in m.values
  }

  predicate ClaimsHold(cc: ClaimConstraints, a: AuthContext) {
    && (forall m :: m in cc.allOf ==> ClaimMatches(m, a))
    && (cc.anyOf == [] || exists m :: m in cc.anyOf && ClaimMatches(m, a))
  }

  function EffectiveScopes(r: Rule): ScopeConstraints {
    if r.scopes == ScopeConstraints([], []) then ScopeConstraints([], r.requiredScopes) else r.scopes
  }

  function EffectiveClaims(r: Rule): ClaimConstraints {
    if r.claims == ClaimConstraints([], []) then ClaimConstraints(r.requiredClaims, []) else r.claims
  }

  predicate ClaimsGranted(r: Rule, a: AuthContext) { ClaimsHold(EffectiveClaims(r), a) }

  predicate HasAll(sc: ScopeConstraints, scopes: set<string>) {
    forall s :: s in sc.allOf ==> s in scopes
  }

  predicate HasAny(sc: ScopeConstraints, scopes: set<string>) {
    sc.anyOf == [] || exists s :: s in sc.anyOf && s in scopes
  }

  predicate Grants(r: Rule, a: AuthContext) {
    && ClaimsGranted(r, a)
    && HasAll(EffectiveScopes(r), a.scopes)
    && HasAny(EffectiveScopes(r), a.scopes)
  }

  /** The scopes a rule asks for: those missing from `allOf`, and only when none is missing, all of `anyOf`. */
  function Wanted(sc: ScopeConstraints, scopes: set<string>): set<string> {
    if !HasAll(sc, scopes) then set s | s in sc.allOf && s !in scopes
    else if !HasAny(sc, scopes) then set s | s in sc.anyOf
    else {}
  }

  function Asks(r: Rule, a: AuthContext): set<string> {
    if ClaimsGranted(r, a) then Wanted(EffectiveScopes(r), a.scopes) else {}
  }

  datatype Decision = NotGoverned | Unauthenticated | Forbidden(challenge: set<string>) | Allowed

  predicate AllGrant(rules: seq<Rule>, a: AuthContext) {
    forall r :: r in rules ==> Grants(r, a)
  }

  function Challenge(rules: seq<Rule>, a: AuthContext): set<string> {
    set r, s | r in rules && s in Asks(r, a) :: s
  }

  /** What the policy answers; an absent identity counts as one that is not authenticated. */
  ghost function Decide(rules: seq<Rule>, q: Request, a: AuthContext): Decision {
    var g := Governing(rules, q);
    if g == [] then NotGoverned
    else if !a.authenticated then Unauthenticated
    else if AllGrant(g, a) then Allowed
    else Forbidden(Challenge(g, a))
  }

  // ---------------------------------------------------------------- which rules govern

  lemma {:induction false} SelectHolds(rules: seq<Rule>, p: Rule -> bool)
    ensures forall r :: r in Select(rules, p) <==> r in rules && p(r)
  {
    if rules != [] { SelectHolds(rules[..|rules| - 1], p); }
  }

  /** The governing rules are the targeted ones, each exact rule before each wildcard rule. */
  lemma GoverningHolds(rules: seq<Rule>, q: Request)
    ensures forall r :: r in Governing(rules, q) <==> r in rules && Targets(r, q)
    ensures forall i, j :: 0 <= i < j < |Governing(rules, q)| && IsWildcard(Governing(rules, q)[i]) ==>
              IsWildcard(Governing(rules, q)[j])
  {
    var m := Select(rules, r => Targets(r, q));
    var exact, wild := Select(m, r => !IsWildcard(r)), Select(m, IsWildcard);
    SelectHolds(rules, r => Targets(r, q));
    SelectHolds(m, r => !IsWildcard(r));
    SelectHolds(m, IsWildcard);
    forall k | 0 <= k < |exact + wild|
      ensures IsWildcard((exact + wild)[k]) <==> k >= |exact|
    {
      if k < |exact| { assert exact[k] in exact; } else { assert wild[k - |exact|] in wild; }
    }
  }

  /** The answer depends on which rules there are, not on their order or repetition. */
  lemma OnlyTheSetOfRulesMatters(rules: seq<Rule>, other: seq<Rule>, q: Request, a: AuthContext)
    requires forall r :: r in rules <==> r in other
    ensures Decide(rules, q, a) == Decide(other, q, a)
  {
    hide Grants, Asks, Targets, Governing;
    GoverningHolds(rules, q);
    GoverningHolds(other, q);
    var g, h := Governing(rules, q), Governing(other, q);
    assert forall r :: r in g <==> r in h;
    assert g == [] <==> h == [] by {
      assert g != [] ==> g[0] in h;
      assert h != [] ==> h[0] in g;
    }
    assert Challenge(g, a) == Challenge(h, a);
  }

  // ---------------------------------------------------------------- scopes

  /** The same identity with more scopes. */
  function WithScopes(a: AuthContext, more: set<string>): AuthContext {
    a.(scopes := a.scopes + more)
  }

  lemma ClaimsIgnoreScopes(r: Rule, a: AuthContext, more: set<string>)
    ensures ClaimsGranted(r, WithScopes(a, more)) == ClaimsGranted(r, a)
  {
    var b := WithScopes(a, more);
    assert forall m :: ClaimMatches(m, b) == ClaimMatches(m, a);
  }

  lemma GrantsIsMonotone(r: Rule, a: AuthContext, more: set<string>)
    requires Grants(r, a)
    ensures Grants(r, WithScopes(a, more))
  {
    hide ClaimsGranted;
    ClaimsIgnoreScopes(r, a, more);
  }

  /** Adding scopes never turns an allowed request away. */
  lemma MoreScopesNeverRevoke(rules: seq<Rule>, q: Request, a: AuthContext, more: set<string>)
    requires Decide(rules, q, a).Allowed?
    ensures Decide(rules, q, WithScopes(a, more)).Allowed?
  {
    hide Grants, Governing;
    forall r | r in Governing(rules, q)
      ensures Grants(r, WithScopes(a, more))
    {
      GrantsIsMonotone(r, a, more);
    }
  }

  /** A rule that does not grant asks for something exactly when its claims hold, never for a scope already held,
      and only for scopes it names. */
  lemma AsksIsUseful(r: Rule, a: AuthContext)
    ensures Asks(r, a) != {} <==> ClaimsGranted(r, a) && !Grants(r, a)
    ensures Asks(r, a) !! a.scopes
    ensures forall s :: s in Asks(r, a) ==> s in EffectiveScopes(r).allOf || s in EffectiveScopes(r).anyOf
  {
    hide ClaimsGranted;
    var sc := EffectiveScopes(r);
    if !HasAll(sc, a.scopes) {
      var s :| s in sc.allOf && s !in a.scopes;
      assert s in Wanted(sc, a.scopes);
    } else if !HasAny(sc, a.scopes) {
      assert sc.anyOf[0] in Wanted(sc, a.scopes);
    }
  }

  /** A challenge names only scopes that a governing rule names and the client lacks; it is empty exactly when every
      rule that stands in the way fails on its claims. */
  lemma ChallengeIsExact(rules: seq<Rule>, q: Request, a: AuthContext)
    requires Decide(rules, q, a).Forbidden?
    ensures var c := Decide(rules, q, a).challenge;
            && c !! a.scopes
            && (forall s :: s in c ==> exists r :: r in Governing(rules, q) && NamesScope(r, s))
            && (c == {} <==> forall r :: r in Governing(rules, q) && !Grants(r, a) ==> !ClaimsGranted(r, a))
  {
    hide Grants, ClaimsGranted, Asks, Governing;
    var g := Governing(rules, q);
    var c := Challenge(g, a);
    forall r | r in g
      ensures Asks(r, a) <= c && Asks(r, a) !! a.scopes
      ensures Asks(r, a) != {} <==> ClaimsGranted(r, a) && !Grants(r, a)
    {
      AsksIsUseful(r, a);
    }
    forall s | s in c
      ensures s !in a.scopes && exists r :: r in g && NamesScope(r, s)
    {
      var r :| r in g && s in Asks(r, a);
      AsksIsUseful(r, a);
      assert NamesScope(r, s);
    }
    if c == {} {
      assert forall r :: r in g ==> Asks(r, a) <= {};
    } else {
      var s :| s in c;
      var r :| r in g && s in Asks(r, a);
    }
  }

  predicate NamesScope(r: Rule, s: string) {
    s in EffectiveScopes(r).allOf || s in EffectiveScopes(r).anyOf
  }

  // ---------------------------------------------------------------- the dialogue

  /** A challenged client adds what it was asked for. */
  ghost function Retry(rules: seq<Rule>, q: Request, a: AuthContext): AuthContext {
    var d := Decide(rules, q, a);
    if d.Forbidden? then WithScopes(a, d.challenge) else a
  }

  ghost function Retries(rules: seq<Rule>, q: Request, a: AuthContext, n: nat): AuthContext {
    if n == 0 then a else Retry(rules, q, Retries(rules, q, a, n - 1))
  }

  /** Being refused is a matter of claims alone, however many scopes are gathered. */
  ghost predicate AllClaimsGranted(rules: seq<Rule>, q: Request, a: AuthContext) {
    forall r :: r in Governing(rules, q) ==> ClaimsGranted(r, a)
  }

  /** After adding what was asked a rule has all of `allOf`; if it had them before, it grants. */
  lemma StepGrants(r: Rule, a: AuthContext, more: set<string>)
    requires ClaimsGranted(r, a) && Asks(r, a) <= more
    ensures HasAll(EffectiveScopes(r), WithScopes(a, more).scopes)
    ensures HasAll(EffectiveScopes(r), a.scopes) ==> Grants(r, WithScopes(a, more))
  {
    ClaimsIgnoreScopes(r, a, more);
    hide ClaimsGranted;
    var sc, b := EffectiveScopes(r), WithScopes(a, more);
    if !HasAll(sc, a.scopes) {
      forall s | s in sc.allOf
        ensures s in b.scopes
      {
        assert s !in a.scopes ==> s in Asks(r, a);
      }
    } else if !HasAny(sc, a.scopes) {
      assert sc.anyOf[0] in Asks(r, a);
      assert HasAny(sc, b.scopes);
    }
  }

  lemma RetryKeepsClaims(rules: seq<Rule>, q: Request, a: AuthContext)
    ensures Retry(rules, q, a).authenticated == a.authenticated
    ensures AllClaimsGranted(rules, q, Retry(rules, q, a)) == AllClaimsGranted(rules, q, a)
    ensures a.scopes <= Retry(rules, q, a).scopes
  {
    hide Governing, ClaimsGranted;
    var d := Decide(rules, q, a);
    if d.Forbidden? {
      forall r
        ensures ClaimsGranted(r, WithScopes(a, d.challenge)) == ClaimsGranted(r, a)
      {
        ClaimsIgnoreScopes(r, a, d.challenge);
      }
    }
  }

  lemma AllowedIffAllGrant(rules: seq<Rule>, q: Request, a: AuthContext)
    requires a.authenticated && Governing(rules, q) != []
    ensures Decide(rules, q, a).Allowed? <==> AllGrant(Governing(rules, q), a)
  {}

  /** What one retry achieves for one governing rule. */
  lemma RetryOnRule(rules: seq<Rule>, q: Request, a: AuthContext, r: Rule)
    requires a.authenticated && r in Governing(rules, q) && ClaimsGranted(r, a)
    ensures HasAll(EffectiveScopes(r), Retry(rules, q, a).scopes)
    ensures HasAll(EffectiveScopes(r), a.scopes) ==> Grants(r, Retry(rules, q, a))
  {
    hide Governing, ClaimsGranted, Asks, EffectiveScopes;
    var g := Governing(rules, q);
    if AllGrant(g, a) {
      assert Grants(r, a);
    } else {
      var c := Challenge(g, a);
      assert Asks(r, a) <= c;
      assert Retry(rules, q, a) == WithScopes(a, c);
      StepGrants(r, a, c);
    }
  }

  /** A client whose claims all hold is challenged at most twice, whatever the rules; one whose claims do not hold is
      never let in, however often it comes back. */
  lemma TwoChallengesSuffice(rules: seq<Rule>, q: Request, a: AuthContext)
    requires a.authenticated && Governing(rules, q) != []
    ensures AllClaimsGranted(rules, q, a) <==> Decide(rules, q, Retries(rules, q, a, 2)).Allowed?
    ensures !AllClaimsGranted(rules, q, a) ==> forall n: nat :: !Decide(rules, q, Retries(rules, q, a, n)).Allowed?
  {
    hide Governing, ClaimsGranted, Retry, Decide, HasAll, HasAny, EffectiveScopes;
    var b, c := Retry(rules, q, a), Retries(rules, q, a, 2);
    assert Retries(rules, q, a, 1) == b by { assert Retries(rules, q, a, 0) == a; }
    assert c == Retry(rules, q, b);
    RetryKeepsClaims(rules, q, a);
    RetryKeepsClaims(rules, q, b);
    AllowedIffAllGrant(rules, q, c);
    if AllClaimsGranted(rules, q, a) {
      forall r | r in Governing(rules, q)
        ensures Grants(r, c)
      {
        RetryOnRule(rules, q, a, r);
        RetryOnRule(rules, q, b, r);
      }
    } else {
      forall n: nat
        ensures !Decide(rules, q, Retries(rules, q, a, n)).Allowed?
      {
        ClaimsBarTheWay(rules, q, a, n);
      }
    }
  }

  lemma {:induction false} ClaimsBarTheWay(rules: seq<Rule>, q: Request, a: AuthContext, n: nat)
    requires a.authenticated && Governing(rules, q) != [] && !AllClaimsGranted(rules, q, a)
    ensures Retries(rules, q, a, n).authenticated && !AllClaimsGranted(rules, q, Retries(rules, q, a, n))
    ensures !Decide(rules, q, Retries(rules, q, a, n)).Allowed?
  {
    hide Governing, ClaimsGranted, Retry, Decide, HasAll, HasAny, EffectiveScopes;
    if n > 0 {
      ClaimsBarTheWay(rules, q, a, n - 1);
      RetryKeepsClaims(rules, q, Retries(rules, q, a, n - 1));
    }
    AllowedIffAllGrant(rules, q, Retries(rules, q, a, n));
  }

  /** One challenge is enough exactly when no governing rule hides its `anyOf` behind its `allOf`: a rule that lacked
      part of `allOf` must already have been met on `anyOf`, counting what the first challenge gave. */
  lemma OneChallengeSufficesIff(rules: seq<Rule>, q: Request, a: AuthContext)
    requires a.authenticated && Governing(rules, q) != [] && AllClaimsGranted(rules, q, a)
    ensures Decide(rules, q, Retry(rules, q, a)).Allowed? <==>
              forall r :: r in Governing(rules, q) && !HasAll(EffectiveScopes(r), a.scopes) ==>
                HasAny(EffectiveScopes(r), Retry(rules, q, a).scopes)
  {
    hide Governing, ClaimsGranted, Retry, Decide, HasAll, HasAny, EffectiveScopes;
    var b := Retry(rules, q, a);
    RetryKeepsClaims(rules, q, a);
    AllowedIffAllGrant(rules, q, b);
    forall r | r in Governing(rules, q)
      ensures HasAll(EffectiveScopes(r), b.scopes) && (HasAll(EffectiveScopes(r), a.scopes) ==> Grants(r, b))
    {
      RetryOnRule(rules, q, a, r);
    }
  }

  /** Two challenges are sometimes needed. */
  lemma TwoChallengesAreNeeded() returns (rules: seq<Rule>, q: Request, a: AuthContext)
    ensures a.authenticated && Governing(rules, q) != [] && AllClaimsGranted(rules, q, a)
    ensures Decide(rules, q, a).Forbidden? && Decide(rules, q, Retry(rules, q, a)).Forbidden?
  {
    var r := Rule("tool", "search", ScopeConstraints(["read"], ["admin"]), ClaimConstraints([], []), [], []);
    rules, q := [r], Request("tool", "search", "tools/call");
    a := AuthContext(true, {}, "", "", [], None, map[]);
    GoverningHolds(rules, q);
    var g := Governing(rules, q);
    assert r in g && forall x :: x in g ==> x == r;
    assert "read" in EffectiveScopes(r).allOf && !HasAll(EffectiveScopes(r), a.scopes);
    assert Asks(r, a) == {"read"};
    assert Challenge(g, a) == {"read"};
    var b := Retry(rules, q, a);
    assert b == WithScopes(a, {"read"});
    assert EffectiveScopes(r).anyOf == ["admin"];
    assert !HasAny(EffectiveScopes(r), b.scopes) by { assert "admin" != "read"; }
  }

  // ---------------------------------------------------------------- rules in words

  /** Which rules a request falls under: those on methods for its method, and those of its type for its name if it has
      one; a star stands for any. */
  lemma TargetsInWords(r: Rule, q: Request)
    ensures Targets(r, q) <==>
              || (r.kind == "method" && (r.name == "*" || r.name == q.method_))
              || (r.kind == q.attributeType && q.attributeName != "" && (r.name == "*" || r.name == q.attributeName))
  {}

  /** A claim is matched by one of the listed values: `sub` against the subject, `iss` against the issuer, `aud` against
      any audience; any other against its typed values if there are any, and against the flat property otherwise, which
      is all that a deprecated condition looks at. */
  lemma ClaimsInWords(m: ClaimMatcher, a: AuthContext)
    ensures m.claim == "sub" ==> (ClaimMatches(m, a) <==> a.subject in m.values)
    ensures m.claim == "iss" ==> (ClaimMatches(m, a) <==> a.issuer in m.values)
    ensures m.claim == "aud" ==> (ClaimMatches(m, a) <==> exists x :: x in a.audience && x in m.values)
    ensures m.claim !in {"sub", "iss", "aud"} && !m.legacyExactString && m.claim in a.typedProperties ==>
              (ClaimMatches(m, a) <==> exists x :: x in a.typedProperties[m.claim] && x in m.values)
    ensures m.claim !in {"sub", "iss", "aud"} && (m.legacyExactString || m.claim !in a.typedProperties) ==>
              (ClaimMatches(m, a) <==>
                 a.properties.Some?
                 && (if m.claim in a.properties.value then a.properties.value[m.claim] else "") in m.values)
    ensures m.values == [] ==> !ClaimMatches(m, a)
  {}

  /** When a rule grants: its claims, or the deprecated ones if it has no others, all match and one of any match; and
      of its scopes, or the deprecated ones, all are held and one of any is. */
  lemma GrantsInWords(r: Rule, a: AuthContext)
    ensures Grants(r, a) <==>
              && (if r.claims.allOf == [] && r.claims.anyOf == [] then
                    forall m :: m in r.requiredClaims ==> ClaimMatches(m, a)
                  else
                    && (forall m :: m in r.claims.allOf ==> ClaimMatches(m, a))
                    && (r.claims.anyOf == [] || exists m :: m in r.claims.anyOf && ClaimMatches(m, a)))
              && (if r.scopes.allOf == [] && r.scopes.anyOf == [] then
                    r.requiredScopes == [] || exists s :: s in r.requiredScopes && s in a.scopes
                  else
                    && (forall s :: s in r.scopes.allOf ==> s in a.scopes)
                    && (r.scopes.anyOf == [] || exists s :: s in r.scopes.anyOf && s in a.scopes))
  {
    hide ClaimMatches;
    if r.claims.allOf == [] && r.claims.anyOf == [] { assert r.claims == ClaimConstraints([], []); }
    if r.scopes.allOf == [] && r.scopes.anyOf == [] { assert r.scopes == ScopeConstraints([], []); }
  }

  /** The four answers: a request no rule targets is not governed, whoever asks; a governed one needs an authenticated
      identity; and then every targeted rule must grant. */
  lemma DecisionInWords(rules: seq<Rule>, q: Request, a: AuthContext)
    ensures var d := Decide(rules, q, a);
            && (d.NotGoverned? <==> forall r :: r in rules ==> !Targets(r, q))
            && (d.Unauthenticated? <==> !d.NotGoverned? && !a.authenticated)
            && (d.Allowed? <==> !d.NotGoverned? && a.authenticated && forall r :: r in rules && Targets(r, q) ==> Grants(r, a))
  {
    hide Targets, Grants, Governing;
    GoverningHolds(rules, q);
    var g := Governing(rules, q);
    assert g != [] ==> g[0] in rules && Targets(g[0], q);
  }
}
