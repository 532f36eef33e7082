/** The authorization policy's loops over its rules. */
module McpAuthz {
  import opened Wrappers
  import opened McpAuthzSpec

  method FindMatchingRules(rules: seq<Rule>, q: Request) returns (result: seq<Rule>)
    ensures result == Governing(rules, q)
  {
    var matching: seq<Rule> := [];
    for i := 0 to |rules|
      invariant matching == Select(rules[..i], r => Targets(r, q))
    {
      assert rules[..i + 1][..i] == rules[..i];
      var rule := rules[i];
      if rule.kind == "method" && (rule.name == WILDCARD || rule.name == q.method_) {
        matching := matching + [rule];
        continue;
      }
      if rule.kind != q.attributeType { continue; }
      if q.attributeName != "" && (rule.name == WILDCARD || rule.name == q.attributeName) {
        matching := matching + [rule];
      }
    }
    assert rules[..|rules|] == rules;
    var specificRules: seq<Rule>, wildcardRules: seq<Rule> := [], [];
    for i := 0 to |matching|
      invariant specificRules == Select(matching[..i], r => !IsWildcard(r))
      invariant wildcardRules == Select(matching[..i], IsWildcard)
    {
      assert matching[..i + 1][..i] == matching[..i];
      if matching[i].name == WILDCARD {
        wildcardRules := wildcardRules + [matching[i]];
      } else {
        specificRules := specificRules + [matching[i]];
      }
    }
    assert matching[..|matching|] == matching;
    result := specificRules + wildcardRules;
  }

  method CheckClaims(cc: ClaimConstraints, a: AuthContext) returns (ok: bool)
    ensures ok == ClaimsHold(cc, a)
  {
    for i := 0 to |cc.allOf|
      invariant forall m :: m in cc.allOf[..i] ==> ClaimMatches(m, a)
    {
      if !ClaimMatches(cc.allOf[i], a) { return false; }
    }
    if |cc.anyOf| > 0 {
      var found := false;
      for i := 0 to |cc.anyOf|
        invariant !found && forall m :: m in cc.anyOf[..i] ==> !ClaimMatches(m, a)
      {
        if ClaimMatches(cc.anyOf[i], a) {
          found := true;
          break;
        }
      }
      if !found { return false; }
    }
    return true;
  }

  /** On failure `missing` lists the scopes that would meet the unmet condition. */
  method CheckScopes(sc: ScopeConstraints, scopes: set<string>) returns (ok: bool, missing: seq<string>)
    ensures ok == (HasAll(sc, scopes) && HasAny(sc, scopes))
    ensures (set s | s in missing) == Wanted(sc, scopes)
  {
    missing := [];
    for i := 0 to |sc.allOf|
      invariant forall s :: s in missing <==> s in sc.allOf[..i] && s !in scopes
    {
      if sc.allOf[i] !in scopes { missing := missing + [sc.allOf[i]]; }
    }
    if |missing| > 0 {
      assert missing[0] in missing;
      return false, missing;
    }
    assert HasAll(sc, scopes) by { assert sc.allOf[..|sc.allOf|] == sc.allOf; }
    if |sc.anyOf| > 0 {
      for i := 0 to |sc.anyOf|
        invariant missing == [] && forall s :: s in sc.anyOf[..i] ==> s !in scopes
      {
        if sc.anyOf[i] in scopes { return true, []; }
      }
      return false, sc.anyOf;
    }
    return true, [];
  }

  method RuleGrantsAccess(rule: Rule, a: AuthContext) returns (ok: bool, missing: seq<string>)
    ensures ok == Grants(rule, a) && (set s | s in missing) == Asks(rule, a)
  {
    var scopes, claims := rule.scopes, rule.claims;
    if |scopes.allOf| == 0 && |scopes.anyOf| == 0 && |rule.requiredScopes| > 0 {
      scopes := ScopeConstraints([], rule.requiredScopes);
    }
    if |claims.allOf| == 0 && |claims.anyOf| == 0 && |rule.requiredClaims| > 0 {
      claims := ClaimConstraints(rule.requiredClaims, []);
    }
    assert scopes == EffectiveScopes(rule) && claims == EffectiveClaims(rule);
    var granted := CheckClaims(claims, a);
    if !granted { return false, []; }
    ok, missing := CheckScopes(scopes, a.scopes);
  }

  method EvaluateRules(rules: seq<Rule>, a: AuthContext) returns (authorized: bool, missing: set<string>)
    ensures authorized == AllGrant(rules, a) && missing == Challenge(rules, a)
  {
    hide Grants, Asks;
    authorized, missing := true, {};
    for i := 0 to |rules|
      invariant authorized == AllGrant(rules[..i], a) && missing == Challenge(rules[..i], a)
    {
      var ok, scopes := RuleGrantsAccess(rules[i], a);
      GrantedAsksNothing(rules[i], a);
      assert rules[..i + 1] == rules[..i] + [rules[i]];
      ChallengeOfOneMore(rules[..i], rules[i], a);
      if !ok {
        authorized := false;
        missing := missing + set s | s in scopes;
      }
    }
    assert rules[..|rules|] == rules;
  }

  lemma GrantedAsksNothing(r: Rule, a: AuthContext)
    ensures Grants(r, a) ==> Asks(r, a) == {}
  {}

  lemma ChallengeOfOneMore(rules: seq<Rule>, r: Rule, a: AuthContext)
    ensures Challenge(rules + [r], a) == Challenge(rules, a) + Asks(r, a)
    ensures AllGrant(rules + [r], a) == (AllGrant(rules, a) && Grants(r, a))
  {
    hide Asks, Grants;
    forall s | s in Asks(r, a)
      ensures s in Challenge(rules + [r], a)
    {
      assert r in rules + [r];
    }
    assert AllGrant(rules + [r], a) ==> Grants(r, a) by { assert r in rules + [r]; }
  }

  /** Which rules govern is settled before any identity is looked at. */
  method OnRequestBody(rules: seq<Rule>, q: Request, a: Option<AuthContext>) returns (d: Decision)
    ensures a.Some? ==> d == Decide(rules, q, a.value)
    ensures a.None? ==> d == if Governing(rules, q) == [] then NotGoverned else Unauthenticated
  {
    var matchingRules := FindMatchingRules(rules, q);
    if |matchingRules| == 0 { return NotGoverned; }
    if a.None? || !a.value.authenticated { return Unauthenticated; }
    var authorized, missingScopes := EvaluateRules(matchingRules, a.value);
    if !authorized { return Forbidden(missingScopes); }
    return Allowed;
  }
}
