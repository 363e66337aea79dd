/** The grant loop of the access evaluator (`apps/api/src/auth/access.service.ts`) and the two
    questions built on it, `can` and `explain`. */
module Grants {
  import opened Text
  import opened Scopes

  datatype Grant = Grant(source: string, permissions: seq<string>, scope: Option<Scope>)

  /** What a caller is told about one grant; the scope fields are present only where a scope counted. */
  datatype ExplainedGrant = ExplainedGrant(source: string, hasPermission: bool, scopeMatch: Option<bool>)

  datatype Evaluation = Evaluation(
    allowed: bool,
    source: string,
    permissionMatched: bool,
    scopeRequired: bool,
    scopeMatched: bool,
    deniedByScope: bool,
    grants: seq<ExplainedGrant>)

  const NO_GRANT := "no grant found"
  const SCOPE_DENIED := "permission grant found but resource scope denied"

  predicate ScopeRequired(permission: string) {
    PermissionResourceType(permission).Some?
  }

  predicate Has(g: Grant, permission: string) {
    permission in g.permissions
  }

  predicate InScope(g: Grant, permission: string, resource: Option<Resource>) {
    var e := EvaluateScope(g.scope, permission, resource);
    !e.required || e.matched
  }

  predicate Passes(g: Grant, permission: string, resource: Option<Resource>) {
    Has(g, permission) && InScope(g, permission, resource)
  }

  function Explained(g: Grant, permission: string, resource: Option<Resource>): ExplainedGrant {
    ExplainedGrant(g.source, Has(g, permission),
                   if Has(g, permission) && ScopeRequired(permission)
                   then Some(InScope(g, permission, resource)) else None)
  }

  /** The scope answer is present exactly where a scope counted, and says whether it admits the resource. */
  ghost predicate IsExplained(e: ExplainedGrant, g: Grant, permission: string, resource: Option<Resource>) {
    && e.source == g.source && (e.hasPermission <==> permission in g.permissions)
    && (e.scopeMatch.Some? <==> permission in g.permissions && IsScoped(permission))
    && (e.scopeMatch.Some? ==> (e.scopeMatch.value <==> ScopeAdmits(g.scope, permission, resource)))
  }

  lemma ExplainedIs(g: Grant, permission: string, resource: Option<Resource>)
    ensures IsExplained(Explained(g, permission, resource), g, permission, resource)
  {
    hide EvaluateScope, ScopeAdmits, IsScoped, PermissionResourceType;
    ScopeEvaluationMeaning(g.scope, permission, resource);
    PrefixesOfPermissions(permission);
  }

  predicate AnyPasses(grants: seq<Grant>, permission: string, resource: Option<Resource>) {
    exists g :: g in grants && Passes(g, permission, resource)
  }

  predicate AnyHas(grants: seq<Grant>, permission: string) {
    exists g :: g in grants && Has(g, permission)
  }

  predicate AnyDenied(grants: seq<Grant>, permission: string, resource: Option<Resource>) {
    exists g :: g in grants && Has(g, permission) && !InScope(g, permission, resource)
  }

  /** The order-free reading of the evaluation. */
  ghost predicate IsEvaluation(r: Evaluation, permission: string, grants: seq<Grant>, resource: Option<Resource>) {
    && r.allowed == AnyPasses(grants, permission, resource)
    && r.permissionMatched == AnyHas(grants, permission)
    && r.deniedByScope == AnyDenied(grants, permission, resource)
    && r.scopeRequired == ScopeRequired(permission)
    && r.scopeMatched == r.allowed
    && |r.grants| == |grants|
    && (forall i :: 0 <= i < |grants| ==> r.grants[i] == Explained(grants[i], permission, resource))
    && (forall i :: 0 <= i < |grants| ==> IsExplained(r.grants[i], grants[i], permission, resource))
    && (r.allowed ==> FirstSource(r.source, permission, grants, resource))
    && (!r.allowed ==> r.source == if r.permissionMatched then SCOPE_DENIED else NO_GRANT)
  }

  /** `source` names the first grant that passes. */
  ghost predicate FirstSource(source: string, permission: string, grants: seq<Grant>, resource: Option<Resource>) {
    exists i :: 0 <= i < |grants| && Passes(grants[i], permission, resource) && source == grants[i].source
                && forall j :: 0 <= j < i ==> !Passes(grants[j], permission, resource)
  }

  /** `evaluatePermission`: six running flags, one pass over the grants. */
  method EvaluatePermission(permission: string, grants: seq<Grant>, resource: Option<Resource>)
    returns (r: Evaluation)
    ensures IsEvaluation(r, permission, grants, resource)
  {
    hide EvaluateScope, PermissionResourceType, InScope, AnyPasses, AnyHas, AnyDenied, Explained, FirstSource;
    hide IsExplained;
    var scopeRequired := ScopeRequired(permission);
    NoGrants(permission, resource);
    assert grants[..0] == [];
    var allowed, source, permissionMatched := false, NO_GRANT, false;
    var scopeMatched, deniedByScope := !scopeRequired, false;
    var explained: seq<ExplainedGrant> := [];
    for k := 0 to |grants|
      invariant |explained| == k
      invariant forall i :: 0 <= i < k ==> explained[i] == Explained(grants[i], permission, resource)
      invariant allowed == AnyPasses(grants[..k], permission, resource)
      invariant permissionMatched == AnyHas(grants[..k], permission)
      invariant deniedByScope == AnyDenied(grants[..k], permission, resource)
      invariant allowed ==> FirstSource(source, permission, grants, resource)
      invariant !allowed ==> source == if permissionMatched then SCOPE_DENIED else NO_GRANT
      invariant scopeRequired ==> scopeMatched == allowed
      invariant allowed ==> permissionMatched
    {
      var grant := grants[k];
      var hasPermission := permission in grant.permissions;
      var scopeEval := None;
      OneMoreGrant(grants, k, permission, resource);
      if hasPermission {
        permissionMatched := true;
        var e := EvaluateScope(grant.scope, permission, resource);
        scopeEval := Some(e);
        if !e.required || e.matched {
          if !allowed { source := grant.source; }
          allowed := true;
          if e.required { scopeMatched := true; }
        } else {
          deniedByScope := true;
          if !allowed { source := SCOPE_DENIED; }
        }
      }
      explained := explained + [ExplainedGrant(grant.source, hasPermission,
                                               if hasPermission && scopeEval.Some? && scopeEval.value.required
                                               then Some(scopeEval.value.matched) else None)];
    }
    assert grants[..|grants|] == grants;
    forall i | 0 <= i < |grants| ensures IsExplained(explained[i], grants[i], permission, resource) {
      ExplainedIs(grants[i], permission, resource);
    }
    if !permissionMatched {
      source := NO_GRANT;
      scopeMatched := false;
    }
    if !scopeRequired { scopeMatched := allowed; }
    r := Evaluation(allowed, source, permissionMatched, scopeRequired, scopeMatched, deniedByScope, explained);
  }

  lemma NoGrants(permission: string, resource: Option<Resource>)
    ensures !AnyPasses([], permission, resource) && !AnyHas([], permission) && !AnyDenied([], permission, resource)
  {}

  /** What the grant at `k` adds to the flags. */
  lemma OneMoreGrant(grants: seq<Grant>, k: nat, permission: string, resource: Option<Resource>)
    requires k < |grants|
    ensures var g := grants[k]; var e := EvaluateScope(g.scope, permission, resource);
            var has, pass := permission in g.permissions, !e.required || e.matched;
            var before, after := grants[..k], grants[..k + 1];
            && e.required == ScopeRequired(permission)
            && AnyPasses(after, permission, resource) == (AnyPasses(before, permission, resource) || (has && pass))
            && AnyHas(after, permission) == (AnyHas(before, permission) || has)
            && AnyDenied(after, permission, resource) == (AnyDenied(before, permission, resource) || (has && !pass))
            && (has && pass && !AnyPasses(before, permission, resource) ==>
                  FirstSource(g.source, permission, grants, resource))
            && Explained(g, permission, resource) ==
               ExplainedGrant(g.source, has, if has && e.required then Some(e.matched) else None)
  {
    hide EvaluatePrefixScope, EvaluateEnvDbScope, EvaluateCloudFsScope, PermissionResourceType;
    var g := grants[k];
    assert grants[..k + 1] == grants[..k] + [g];
    if Passes(g, permission, resource) && !AnyPasses(grants[..k], permission, resource) {
      forall j | 0 <= j < k ensures !Passes(grants[j], permission, resource) {
        assert grants[j] in grants[..k];
      }
    }
  }

  // ---------------------------------------------------------------- can and explain

  /** `found` is false when a service principal or group, as `kind` says, does not exist; `grants` is
      what was collected for it. */
  datatype Principal = Principal(kind: string, found: bool, grants: seq<Grant>)

  datatype ResourceAnswer = ResourceAnswer(scopeRequired: bool, scopeMatched: bool)
  datatype CanResponse = CanResponse(allowed: bool, source: string, resource: Option<ResourceAnswer>)

  /** Why access is denied; the texts are built from the permission and the resource. */
  datatype Missing = PrincipalMissing | ScopeMissing | RoleMissing

  datatype ExplainResponse = ExplainResponse(allowed: bool, grants: seq<ExplainedGrant>, missing: Option<Missing>,
      resource: Option<ResourceAnswer>)

  /** The answer both questions should give: some grant of an existing principal passes. */
  ghost predicate Permitted(p: Principal, permission: string, resource: Option<Resource>) {
    p.found && AnyPasses(p.grants, permission, resource)
  }

  /** Access in terms of the scopes themselves: some grant of an existing principal lists the permission,
      and the part of its scope that belongs to the permission admits the resource. */
  lemma PermittedMeaning(p: Principal, permission: string, resource: Option<Resource>)
    ensures Permitted(p, permission, resource) <==>
            p.found && exists g :: g in p.grants && permission in g.permissions
                                   && ScopeAdmits(g.scope, permission, resource)
    ensures ScopeRequired(permission) <==> IsScoped(permission)
  {
    hide EvaluateScope, ScopeAdmits, IsScoped, PermissionResourceType;
    PrefixesOfPermissions(permission);
    forall g: Grant
      ensures InScope(g, permission, resource) <==> ScopeAdmits(g.scope, permission, resource)
    {
      ScopeEvaluationMeaning(g.scope, permission, resource);
      UnscopedIsAdmitted(g.scope, permission, resource);
    }
  }

  lemma UnscopedIsAdmitted(scope: Option<Scope>, permission: string, resource: Option<Resource>)
    ensures !IsScoped(permission) ==> ScopeAdmits(scope, permission, resource)
  {}

  method Can(p: Principal, permission: string, resource: Option<Resource>) returns (r: CanResponse)
    ensures r.allowed == Permitted(p, permission, resource)
    ensures r.resource == if resource.None? then None
                          else Some(ResourceAnswer(ScopeRequired(permission), Permitted(p, permission, resource)))
    ensures if r.allowed then FirstSource(r.source, permission, p.grants, resource)
            else r.source == if !p.found then p.kind + " not found"
                             else if AnyHas(p.grants, permission) then SCOPE_DENIED else NO_GRANT
  {
    hide ScopeRequired, AnyPasses, AnyHas, AnyDenied, Explained, FirstSource;
    var evaluation;
    if !p.found {
      evaluation := Evaluation(false, p.kind + " not found", false, ScopeRequired(permission), false, false, []);
    } else {
      evaluation := EvaluatePermission(permission, p.grants, resource);
    }
    r := CanResponse(evaluation.allowed, evaluation.source, None);
    if resource.Some? {
      r := r.(resource := Some(ResourceAnswer(evaluation.scopeRequired, evaluation.scopeMatched)));
    }
  }

  predicate SomeScopeMatch(grants: seq<ExplainedGrant>) {
    exists i :: 0 <= i < |grants| && grants[i].hasPermission && grants[i].scopeMatch == Some(true)
  }

  /** `explain` recomputes the scope flag from the explained grants; it comes out as in `can`. */
  method Explain(p: Principal, permission: string, resource: Option<Resource>) returns (r: ExplainResponse)
    ensures r.allowed == Permitted(p, permission, resource)
    ensures r.resource == if resource.None? then None
                          else Some(ResourceAnswer(ScopeRequired(permission), Permitted(p, permission, resource)))
    ensures |r.grants| == if p.found then |p.grants| else 0
    ensures forall i :: 0 <= i < |r.grants| ==> r.grants[i] == Explained(p.grants[i], permission, resource)
    ensures r.missing == if r.allowed then None
                         else if !p.found then Some(PrincipalMissing)
                         else if AnyHas(p.grants, permission) then Some(ScopeMissing) else Some(RoleMissing)
  {
    hide ScopeRequired, AnyPasses, AnyHas, AnyDenied, Explained, FirstSource;
    if !p.found {
      r := ExplainResponse(false, [], Some(PrincipalMissing), None);
    } else {
      var evaluated := EvaluatePermission(permission, p.grants, resource);
      var missing := None;
      if !evaluated.allowed {
        HeldButDenied(p.grants, permission, resource);
        missing := Some(if evaluated.permissionMatched && evaluated.deniedByScope then ScopeMissing else RoleMissing);
      }
      r := ExplainResponse(evaluated.allowed, evaluated.grants, missing, None);
    }
    if resource.Some? {
      var scopeRequired := ScopeRequired(permission);
      if p.found && scopeRequired { ScopeMatchOfExplained(p.grants, r.grants, permission, resource); }
      var scopeMatched := if scopeRequired then SomeScopeMatch(r.grants) else r.allowed;
      r := r.(resource := Some(ResourceAnswer(scopeRequired, scopeMatched)));
    }
  }

  /** Where nothing passes, a held permission is one that a scope denied. */
  lemma HeldButDenied(grants: seq<Grant>, permission: string, resource: Option<Resource>)
    requires !AnyPasses(grants, permission, resource)
    ensures AnyHas(grants, permission) <==> AnyDenied(grants, permission, resource)
  {
    hide InScope;
    if g :| g in grants && Has(g, permission) {
      assert !Passes(g, permission, resource);
    }
  }

  lemma ScopeMatchOfExplained(grants: seq<Grant>, explained: seq<ExplainedGrant>, permission: string,
      resource: Option<Resource>)
    requires |explained| == |grants| && ScopeRequired(permission)
    requires forall i :: 0 <= i < |grants| ==> explained[i] == Explained(grants[i], permission, resource)
    ensures SomeScopeMatch(explained) <==> AnyPasses(grants, permission, resource)
  {
    hide InScope, ScopeRequired;
    if g :| g in grants && Passes(g, permission, resource) {
      var i :| 0 <= i < |grants| && grants[i] == g;
      assert explained[i].scopeMatch == Some(true);
    }
    if SomeScopeMatch(explained) {
      var i :| 0 <= i < |explained| && explained[i].hasPermission && explained[i].scopeMatch == Some(true);
      assert grants[i] in grants && Passes(grants[i], permission, resource);
    }
  }

  /** On the same data the two questions give the same decision and the same scope flags. */
  method CanAndExplainAgree(p: Principal, permission: string, resource: Option<Resource>)
    returns (can: CanResponse, explain: ExplainResponse)
    ensures can.allowed == explain.allowed && can.resource == explain.resource
    ensures can.allowed == Permitted(p, permission, resource)
  {
    can := Can(p, permission, resource);
    explain := Explain(p, permission, resource);
  }

  /** Adding grants, or changing their order, never takes access away. */
  lemma MoreGrantsNeverRevoke(p: Principal, q: Principal, permission: string, resource: Option<Resource>)
    requires p.found ==> q.found
    requires multiset(p.grants) <= multiset(q.grants)
    requires Permitted(p, permission, resource)
    ensures Permitted(q, permission, resource)
  {
    var g :| g in p.grants && Passes(g, permission, resource);
    assert g in multiset(p.grants);
    assert g in q.grants;
  }

  /** The scope built-in roles carry: wildcards everywhere. */
  const BUILT_IN_ROLE_SCOPE := Scope(PrefixScope(["*"], []), PrefixScope(["*"], []), DbScope(["*"], ["*"]), ["*"])

  /** What that scope opens: every database and mount, but only the top level of the file trees. */
  predicate InBuiltInReach(r: Resource) {
    match r.kind
    case EnvDb => Trim(r.id) != ""
    case CloudFs => true
    case _ => '/' !in NormalizeScopedPath(r.id)[1..]
  }

  lemma BuiltInScopeMeaning(permission: string, r: Resource)
    requires PermissionResourceType(permission) == Some(r.kind)
    ensures EvaluateScope(Some(BUILT_IN_ROLE_SCOPE), permission, Some(r)).matched <==> InBuiltInReach(r)
  {
    hide NormalizeScopedPath, PermissionResourceType, Trim, MatchesPathPattern;
    NormalizeIsIdempotent(r.id);
    StarCoversOneSegment(NormalizeScopedPath(r.id));
    var path := NormalizeScopedPath(r.id);
    assert SomePath(["*"], path) <==> MatchesPathPattern("*", path) by {
      assert ["*"][0] == "*";
    }
    assert !SomePath([], path);
    var id := Trim(r.id);
    assert SomeIdentifier(["*"], SchemaPart(id)) by {
      assert ["*"][0] == "*" && MatchesIdentifierPattern(["*"][0], SchemaPart(id));
    }
  }

  /** Whoever holds a permission through built-in roles alone has access exactly within that reach: an
      owner is refused on every path with a second slash. */
  lemma BuiltInRolesReachOneSegment(p: Principal, permission: string, r: Resource)
    requires PermissionResourceType(permission) == Some(r.kind)
    requires forall g :: g in p.grants && Has(g, permission) ==> g.scope == Some(BUILT_IN_ROLE_SCOPE)
    ensures Permitted(p, permission, Some(r)) <==> p.found && AnyHas(p.grants, permission) && InBuiltInReach(r)
  {
    hide InBuiltInReach, PermissionResourceType, EvaluatePrefixScope, EvaluateEnvDbScope, EvaluateCloudFsScope;
    BuiltInScopeMeaning(permission, r);
    if g :| g in p.grants && Has(g, permission) {
      assert InScope(g, permission, Some(r)) <==> InBuiltInReach(r);
    }
  }

  /** An owner may read `/docs` and not `/docs/a`. */
  lemma OwnerIsRefusedBelowTheTop(p: Principal)
    requires p == Principal("user", true, [Grant("org membership", ["orgfs:read"], Some(BUILT_IN_ROLE_SCOPE))])
    ensures Permitted(p, "orgfs:read", Some(Resource(OrgFs, "/docs", ReadAction)))
    ensures !Permitted(p, "orgfs:read", Some(Resource(OrgFs, "/docs/a", ReadAction)))
  {
    hide Permitted, InBuiltInReach, PermissionResourceType;
    assert Has(p.grants[0], "orgfs:read") by { assert p.grants[0].permissions[0] == "orgfs:read"; }
    DocsAreAtTheTop();
    BuiltInRolesReachOneSegment(p, "orgfs:read", Resource(OrgFs, "/docs", ReadAction));
    BuiltInRolesReachOneSegment(p, "orgfs:read", Resource(OrgFs, "/docs/a", ReadAction));
  }

  lemma DocsAreAtTheTop()
    ensures PermissionResourceType("orgfs:read") == Some(OrgFs)
    ensures InBuiltInReach(Resource(OrgFs, "/docs", ReadAction))
    ensures !InBuiltInReach(Resource(OrgFs, "/docs/a", ReadAction))
  {
    hide NormalizeScopedPath;
    NormalizeIsIdempotent("/docs");
    NormalizeIsIdempotent("/docs/a");
    assert "/docs/a"[1..][4] == '/';
  }
}
