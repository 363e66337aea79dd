/** Scope evaluation (`apps/api/src/auth/access.service.ts`): path normalisation, the two pattern
    matchers, and the scope branches for prefixes, databases and mounts. */
module Scopes {
  import opened Text
  import opened Glob

  // ---------------------------------------------------------------- normalizeScopedPath

  /** `replace(/\/+/g, '/')`. */
  function Collapse(s: string): (r: string)
    ensures s != "" ==> r != ""
  {
    if s == "" then ""
    else if |s| >= 2 && s[0] == '/' && s[1] == '/' then Collapse(s[1..])
    else [s[0]] + Collapse(s[1..])
  }

  function NormalizeScopedPath(path: string): (r: string)
    ensures r != ""
  {
    var trimmed := Trim(path);
    if trimmed == "" then "/"
    else Collapse(if StartsWith(trimmed, "/") then trimmed else "/" + trimmed)
  }

  predicate SingleSlashes(s: string) {
    forall i :: 0 <= i < |s| - 1 ==> !(s[i] == '/' && s[i + 1] == '/')
  }

  /** What normalisation delivers: a leading slash, no doubled slash, no blank margin. */
  predicate Normal(s: string) {
    s != "" && s[0] == '/' && SingleSlashes(s) && Trimmed(s)
  }

  lemma SingleSlashesTail(s: string)
    requires s != "" && SingleSlashes(s)
    ensures SingleSlashes(s[1..])
  {}

  lemma CollapseStep(s: string)
    ensures Collapse(s) == if s == "" then ""
                           else if |s| >= 2 && s[0] == '/' && s[1] == '/' then Collapse(s[1..])
                           else [s[0]] + Collapse(s[1..])
  {}

  lemma {:induction false} CollapseEnds(s: string)
    ensures s != "" ==> var r := Collapse(s); r != "" && r[0] == s[0] && r[|r| - 1] == s[|s| - 1]
  {
    if |s| > 1 { CollapseEnds(s[1..]); }
  }

  lemma {:induction false} CollapseOfSingle(s: string)
    requires SingleSlashes(s)
    ensures Collapse(s) == s
  {
    if s != "" {
      assert |s| >= 2 ==> !(s[0] == '/' && s[0 + 1] == '/');
      SingleSlashesTail(s);
      CollapseOfSingle(s[1..]);
      assert s == [s[0]] + s[1..];
    }
  }

  lemma {:induction false} CollapseIs(s: string)
    ensures SingleSlashes(Collapse(s))
    ensures SingleSlashes(s) ==> Collapse(s) == s
    ensures s != "" ==> var r := Collapse(s); r != "" && r[0] == s[0] && r[|r| - 1] == s[|s| - 1]
  {
    CollapseEnds(s);
    if SingleSlashes(s) { CollapseOfSingle(s); }
    if s != "" {
      CollapseIs(s[1..]);
      CollapseEnds(s[1..]);
      if !(|s| >= 2 && s[0] == '/' && s[1] == '/') {
        AddSlashless(s[0], Collapse(s[1..]));
      }
    }
  }

  lemma AddSlashless(c: char, t: string)
    requires SingleSlashes(t) && (t != "" ==> !(c == '/' && t[0] == '/'))
    ensures SingleSlashes([c] + t)
  {}

  /** Collapsing a prefix gives a prefix. */
  lemma {:induction false} CollapsePrefix(s: string, more: string)
    ensures Collapse(s) <= Collapse(s + more)
  {
    if s != "" {
      assert (s + more)[1..] == s[1..] + more;
      CollapsePrefix(s[1..], more);
      CollapseIs(s);
      CollapseIs(s + more);
      if |s| == 1 {
        assert Collapse(s) == s && Collapse(s + more)[0] == s[0];
      }
    }
  }

  lemma SlashIsNoSpace()
    ensures !IsSpace('/')
  {}

  lemma NormalizeIsNormal(path: string)
    ensures Normal(NormalizeScopedPath(path))
  {
    hide IsSpace, Trim, Collapse;
    SlashIsNoSpace();
    var _, _ := TrimCuts(path);
    var t := Trim(path);
    CollapseIs(if StartsWith(t, "/") then t else "/" + t);
  }

  lemma NormalizeOfNormal(s: string)
    requires Normal(s)
    ensures NormalizeScopedPath(s) == s
  {
    hide IsSpace, Trim, Collapse;
    assert AllSpace("");
    TrimIs("", s, "");
    assert "" + s + "" == s;
    assert s[..1] == "/";
    CollapseIs(s);
  }

  /** Normalising twice is normalising once, and the normal forms are exactly the fixed points. */
  lemma NormalizeIsIdempotent(path: string)
    ensures NormalizeScopedPath(NormalizeScopedPath(path)) == NormalizeScopedPath(path)
    ensures NormalizeScopedPath(path) == path <==> Normal(path)
  {
    hide NormalizeScopedPath;
    NormalizeIsNormal(path);
    NormalizeOfNormal(NormalizeScopedPath(path));
    if Normal(path) { NormalizeOfNormal(path); }
  }

  /** The pieces between slashes that are not empty. */
  function Segments(s: string): (r: seq<string>)
    ensures s != "" && s[0] != '/' ==> r != []
  {
    if s == "" then []
    else
      var rest := Segments(s[1..]);
      if s[0] == '/' then rest
      else if |s| == 1 || s[1] == '/' then [[s[0]]] + rest
      else [[s[0]] + rest[0]] + rest[1..]
  }

  /** One more character in front starts a new segment or belongs to the first one. */
  lemma SegmentsOfCons(c: char, t: string)
    ensures c == '/' ==> Segments([c] + t) == Segments(t)
    ensures c != '/' && (t == "" || t[0] == '/') ==> Segments([c] + t) == [[c]] + Segments(t)
    ensures c != '/' && t != "" && t[0] != '/' ==> Segments([c] + t) == [[c] + Segments(t)[0]] + Segments(t)[1..]
  {
    assert ([c] + t)[1..] == t;
  }

  lemma {:induction false} CollapseKeepsSegments(s: string)
    ensures Segments(Collapse(s)) == Segments(s)
  {
    hide Segments;
    if s != "" {
      CollapseKeepsSegments(s[1..]);
      CollapseEnds(s[1..]);
      assert s == [s[0]] + s[1..];
      SegmentsOfCons(s[0], s[1..]);
      SegmentsOfCons(s[0], Collapse(s[1..]));
    }
  }

  /** Normalisation keeps the segments of a path and whether it ends in a slash. */
  lemma NormalizeKeepsSegments(path: string)
    ensures var n := NormalizeScopedPath(path);
            && Segments(n) == Segments(Trim(path))
            && (Trim(path) != "" ==> (n[|n| - 1] == '/' <==> Trim(path)[|Trim(path)| - 1] == '/'))
  {
    hide Segments, Trim, Collapse;
    var t := Trim(path);
    var slashed := if StartsWith(t, "/") then t else "/" + t;
    CollapseEnds(slashed);
    CollapseKeepsSegments(slashed);
    SegmentsOfCons('/', t);
    assert "/" + t == ['/'] + t;
    assert "/" + "" == "/";
  }

  // ---------------------------------------------------------------- the matchers

  /** The prefix every strict descendant of a normal path starts with. */
  function Folder(p: string): string {
    if p != "" && p[|p| - 1] == '/' then p else p + "/"
  }

  /** `matchesPathPattern`, through the compiled regular expression. */
  predicate MatchesPathPattern(pattern: string, value: string) {
    var p := NormalizeScopedPath(pattern);
    var v := NormalizeScopedPath(value);
    if '*' !in p then v == p || StartsWith(v, Folder(p))
    else Test(PathSource(p), v)
  }

  /** `matchesIdentifierPattern`. */
  predicate MatchesIdentifierPattern(pattern: string, value: string) {
    pattern == "*" || Test(IdentifierSource(pattern), value)
  }

  /** The path matcher without regular expressions. */
  lemma PathPatternMeaning(pattern: string, value: string)
    ensures var p := NormalizeScopedPath(pattern); var v := NormalizeScopedPath(value);
            MatchesPathPattern(pattern, value) <==>
            if '*' in p then Covers(PathTokens(p), v) else v == p || Folder(p) <= v
  {
    PathPatternKeepsMeaning(NormalizeScopedPath(pattern), NormalizeScopedPath(value));
  }

  /** The identifier matcher without regular expressions. The lone star is wider than its own
      translation: it also admits values with line terminators. */
  lemma IdentifierPatternMeaning(pattern: string, value: string)
    ensures MatchesIdentifierPattern(pattern, value) <==>
            pattern == "*" || Covers(IdentifierTokens(pattern), value)
  {
    IdentifierPatternKeepsMeaning(pattern, value);
  }

  /** The lone star admits a line feed that a star in a longer pattern refuses. */
  lemma LoneStarIsWider()
    ensures MatchesIdentifierPattern("*", "a\n") && !MatchesIdentifierPattern("a*", "a\n")
  {
    hide MatchesIdentifierPattern, Covers;
    IdentifierPatternMeaning("*", "a\n");
    IdentifierPatternMeaning("a*", "a\n");
    var ts := IdentifierTokens("a*");
    assert ts[0] == Char('a') && ts[1] == AnyRun && ts[1..] == [AnyRun];
    assert !Covers([AnyRun], "\n") by { RunRefusesLineFeed(); }
    assert "a\n"[1..] == "\n";
    CoversAfterChar(ts, "a\n");
  }

  lemma RunRefusesLineFeed()
    ensures !Covers([AnyRun], "\n")
  {
    assert !InRun(AnyRun, "\n"[0]);
    assert [AnyRun][1..] == [] && "\n"[0..] == "\n";
  }

  lemma CoversAfterChar(ts: seq<Token>, s: string)
    requires ts != [] && ts[0].Char?
    ensures Covers(ts, s) <==> s != "" && s[0] == ts[0].c && Covers(ts[1..], s[1..])
  {}

  predicate IsLiteral(pattern: string) {
    '*' !in NormalizeScopedPath(pattern)
  }

  /** A pattern without a wildcard matches itself and what lies below it, never a mere longer name. */
  lemma LiteralPatternMeaning(p: string, v: string)
    requires IsLiteral(p)
    ensures var np, nv := NormalizeScopedPath(p), NormalizeScopedPath(v);
            MatchesPathPattern(p, v) <==>
            nv == np || (|nv| > |np| && nv[..|np|] == np && (np[|np| - 1] == '/' || nv[|np|] == '/'))
  {
    hide NormalizeScopedPath;
    var np, nv := NormalizeScopedPath(p), NormalizeScopedPath(v);
    if np[|np| - 1] != '/' && |nv| > |np| {
      assert nv[..|np| + 1] == nv[..|np|] + [nv[|np|]];
      assert Folder(np) <= nv <==> nv[..|np| + 1] == np + "/";
    }
  }

  /** Patterns without a wildcard are partially ordered by matching, up to normalisation. */
  lemma LiteralPatternsFormAnOrder(p: string, q: string, v: string)
    requires IsLiteral(p) && IsLiteral(q)
    ensures MatchesPathPattern(p, p)
    ensures MatchesPathPattern(p, q) && MatchesPathPattern(q, v) ==> MatchesPathPattern(p, v)
    ensures MatchesPathPattern(p, q) && MatchesPathPattern(q, p) ==> NormalizeScopedPath(p) == NormalizeScopedPath(q)
  {
    hide NormalizeScopedPath;
  }

  lemma TrimOfTail(n: string, rest: string) returns (r: string)
    requires Normal(n)
    ensures Trim(n + "/" + rest) == n + "/" + r
  {
    hide IsSpace, Trim, TrimStart, TrimEnd;
    SlashIsNoSpace();
    r := TrimEnd(rest);
    TrimEndCuts(rest);
    var core, post := n + "/" + r, rest[|r|..];
    assert rest == r + post;
    assert n + "/" + rest == "" + core + post;
    assert core[0] == n[0] && core[|core| - 1] == if r == "" then '/' else r[|r| - 1];
    assert AllSpace("");
    TrimIs("", core, post);
  }

  /** What a literal pattern matches is closed under descendants. */
  lemma LiteralPatternsAreClosedUnderDescendants(p: string, v: string, rest: string)
    requires IsLiteral(p) && MatchesPathPattern(p, v)
    ensures MatchesPathPattern(p, NormalizeScopedPath(v) + "/" + rest)
  {
    hide IsSpace, Trim, Collapse, Normal;
    var n := NormalizeScopedPath(v);
    NormalizeIsNormal(v);
    FolderOfDescendant(n, rest);
    var d := NormalizeScopedPath(n + "/" + rest);
    var np := NormalizeScopedPath(p);
    assert n <= Folder(n) <= d;
  }

  lemma FolderOfDescendant(n: string, rest: string)
    requires Normal(n)
    ensures Folder(n) <= NormalizeScopedPath(n + "/" + rest)
  {
    hide IsSpace, Trim;
    var r := TrimOfTail(n, rest);
    var t := n + "/" + r;
    assert t[..1] == "/";
    CollapsePrefix(n + "/", r);
    CollapseOfFolder(n);
  }

  lemma {:induction false} CollapseOfFolder(n: string)
    requires n != "" && SingleSlashes(n)
    ensures Collapse(n + "/") == Folder(n)
  {
    hide Collapse;
    CollapseIs(n);
    CollapseStep(n + "/");
    CollapseStep("/");
    CollapseStep("");
    if n[|n| - 1] != '/' {
      assert SingleSlashes(n + "/");
      CollapseIs(n + "/");
    } else if |n| == 1 {
      assert (n + "/")[1..] == "/";
      assert Collapse("/") == ['/'] + Collapse("");
    } else {
      assert (n + "/")[1..] == n[1..] + "/";
      SingleSlashesTail(n);
      CollapseOfFolder(n[1..]);
      assert n == [n[0]] + n[1..];
    }
  }

  /** The pattern `*` normalises to slash-star and covers a single segment: exactly the paths with no
      second slash. */
  lemma StarCoversOneSegment(value: string)
    ensures NormalizeScopedPath("*") == "/*"
    ensures MatchesPathPattern("*", value) <==> '/' !in NormalizeScopedPath(value)[1..]
  {
    var v := NormalizeScopedPath(value);
    NormalizeOfStar();
    PathPatternMeaning("*", value);
    NormalizeIsNormal(value);
    var ts := PathTokens("/*");
    assert "/*"[1..] == "*" && "*"[1..] == "";
    assert PathTokens("*") == [SegmentRun] + PathTokens("") == [SegmentRun];
    assert ts == [Char('/')] + PathTokens("*") == [Char('/'), SegmentRun];
    SegmentCovers(v[1..]);
    assert ts[1..] == [SegmentRun];
  }

  lemma SegmentCovers(s: string)
    ensures Covers([SegmentRun], s) <==> '/' !in s
  {
    var ts := [SegmentRun];
    assert ts[1..] == [];
    if '/' !in s {
      assert s[|s|..] == "" && Covers(ts[1..], s[|s|..]);
      assert forall i :: 0 <= i < |s| ==> s[i] in s;
    }
    if Covers(ts, s) {
      var k :| 0 <= k <= |s| && (forall i :: 0 <= i < k ==> InRun(ts[0], s[i])) && Covers(ts[1..], s[k..]);
      assert k == |s|;
    }
  }

  lemma NormalizeOfStar()
    ensures NormalizeScopedPath("*") == "/*"
  {
    assert Trim("*") == "*" by { assert "" + "*" + "" == "*"; TrimIs("", "*", ""); }
    assert "/" + "*" == "/*";
    CollapseIs("/*");
  }

  // ---------------------------------------------------------------- evaluateScope

  datatype ResourceType = OrgFs | OrgDocs | EnvDb | CloudFs
  datatype Action = ReadAction | WriteAction | AdminAction
  datatype Resource = Resource(kind: ResourceType, id: string, action: Action)

  /** A missing part of a scope and an empty list are treated alike, so both are the empty list. */
  datatype PrefixScope = PrefixScope(allow: seq<string>, readOnly: seq<string>)
  datatype DbScope = DbScope(schemas: seq<string>, tables: seq<string>)
  datatype Scope = Scope(orgfs: PrefixScope, orgdocs: PrefixScope, envdb: DbScope, mounts: seq<string>)

  predicate SomePath(patterns: seq<string>, path: string) {
    exists i :: 0 <= i < |patterns| && MatchesPathPattern(patterns[i], path)
  }

  predicate SomeIdentifier(patterns: seq<string>, value: string) {
    exists i :: 0 <= i < |patterns| && MatchesIdentifierPattern(patterns[i], value)
  }

  predicate EvaluatePrefixScope(kind: ResourceType, scope: PrefixScope, resource: Option<Resource>) {
    if scope.allow == [] && scope.readOnly == [] then false
    else if resource.None? then true
    else if resource.value.kind != kind then false
    else
      var path := NormalizeScopedPath(resource.value.id);
      var matchesAllow, matchesReadOnly := SomePath(scope.allow, path), SomePath(scope.readOnly, path);
      if resource.value.action == ReadAction then matchesAllow || matchesReadOnly else matchesAllow
  }

  /** `const [schemaPart, ...tableParts] = identifier.split('.')`, both parts trimmed. */
  function SchemaPart(identifier: string): string {
    Trim(identifier[..IndexOf(identifier, '.')])
  }

  function TablePart(identifier: string): string {
    var i := IndexOf(identifier, '.');
    if i == |identifier| then "" else Trim(identifier[i + 1..])
  }

  predicate EvaluateEnvDbScope(scope: DbScope, resource: Option<Resource>) {
    if scope.schemas == [] && scope.tables == [] then false
    else if resource.None? then true
    else if resource.value.kind != EnvDb then false
    else
      var identifier := Trim(resource.value.id);
      if identifier == "" then false
      else
        var schema, table := SchemaPart(identifier), TablePart(identifier);
        var schemaMatched := SomeIdentifier(scope.schemas, schema);
        if table == "" then schemaMatched
        else schemaMatched || SomeIdentifier(scope.tables, schema + "." + table)
  }

  predicate EvaluateCloudFsScope(mounts: seq<string>, resource: Option<Resource>) {
    if mounts == [] then false
    else if resource.None? then true
    else if resource.value.kind != CloudFs then false
    else "*" in mounts || resource.value.id in mounts
  }

  function PermissionResourceType(permission: string): Option<ResourceType> {
    if StartsWith(permission, "orgfs:") then Some(OrgFs)
    else if StartsWith(permission, "orgdocs:") then Some(OrgDocs)
    else if StartsWith(permission, "envdb:") then Some(EnvDb)
    else if StartsWith(permission, "cloud_fs:") then Some(CloudFs)
    else None
  }

  datatype ScopeEvaluation = ScopeEvaluation(required: bool, matched: bool)

  function EvaluateScope(scope: Option<Scope>, permission: string, resource: Option<Resource>): ScopeEvaluation {
    match PermissionResourceType(permission)
    case None => ScopeEvaluation(false, true)
    case Some(kind) =>
      ScopeEvaluation(true,
                      scope.Some? &&
                      match kind
                      case OrgFs => EvaluatePrefixScope(OrgFs, scope.value.orgfs, resource)
                      case OrgDocs => EvaluatePrefixScope(OrgDocs, scope.value.orgdocs, resource)
                      case EnvDb => EvaluateEnvDbScope(scope.value.envdb, resource)
                      case CloudFs => EvaluateCloudFsScope(scope.value.mounts, resource))
  }

  /** What a pattern reaches, said without regular expressions: a literal pattern its own subtree, a
      wildcard pattern the paths it covers. */
  ghost predicate Reaches(pattern: string, path: string) {
    var p, v := NormalizeScopedPath(pattern), NormalizeScopedPath(path);
    if '*' in p then Covers(PathTokens(p), v) else v == p || Folder(p) <= v
  }

  lemma SomePathMeaning(patterns: seq<string>, id: string)
    ensures SomePath(patterns, NormalizeScopedPath(id)) <==> exists p :: p in patterns && Reaches(p, id)
  {
    hide NormalizeScopedPath, MatchesPathPattern;
    var path := NormalizeScopedPath(id);
    NormalizeIsIdempotent(id);
    forall p ensures MatchesPathPattern(p, path) <==> Reaches(p, id) { PathPatternMeaning(p, path); }
    if p :| p in patterns && Reaches(p, id) {
      var i :| 0 <= i < |patterns| && patterns[i] == p;
      assert MatchesPathPattern(patterns[i], path);
    }
  }

  /** A prefix scope decides by reach alone: reading needs a pattern of either list, anything else a
      pattern of the allow list; resources of another type are never in scope. */
  lemma PrefixScopeMeaning(kind: ResourceType, scope: PrefixScope, r: Resource)
    ensures EvaluatePrefixScope(kind, scope, Some(r)) <==>
            && r.kind == kind
            && ((exists p :: p in scope.allow && Reaches(p, r.id)) ||
                (r.action == ReadAction && exists p :: p in scope.readOnly && Reaches(p, r.id)))
  {
    hide SomePath, NormalizeScopedPath, Reaches;
    SomePathMeaning(scope.allow, r.id);
    SomePathMeaning(scope.readOnly, r.id);
  }

  /** An identifier pattern without regular expressions; the lone star admits everything. */
  ghost predicate Names(pattern: string, value: string) {
    pattern == "*" || Covers(IdentifierTokens(pattern), value)
  }

  lemma SomeIdentifierMeaning(patterns: seq<string>, value: string)
    ensures SomeIdentifier(patterns, value) <==> exists p :: p in patterns && Names(p, value)
  {
    hide MatchesIdentifierPattern;
    forall p ensures MatchesIdentifierPattern(p, value) <==> Names(p, value) { IdentifierPatternMeaning(p, value); }
    if p :| p in patterns && Names(p, value) {
      var i :| 0 <= i < |patterns| && patterns[i] == p;
      assert MatchesIdentifierPattern(patterns[i], value);
    }
  }

  /** A database scope admits a resource exactly when its schema is named by a schema pattern, or it
      has a table part and the dotted name is named by a table pattern. */
  lemma DbScopeMeaning(scope: DbScope, r: Resource)
    ensures var id := Trim(r.id); var schema, table := SchemaPart(id), TablePart(id);
            EvaluateEnvDbScope(scope, Some(r)) <==>
            && r.kind == EnvDb && id != ""
            && ((exists p :: p in scope.schemas && Names(p, schema)) ||
                (table != "" && exists p :: p in scope.tables && Names(p, schema + "." + table)))
  {
    hide Trim, SomeIdentifier, Names, SchemaPart, TablePart;
    var id := Trim(r.id);
    var schema, table := SchemaPart(id), TablePart(id);
    SomeIdentifierMeaning(scope.schemas, schema);
    SomeIdentifierMeaning(scope.tables, schema + "." + table);
  }

  /** The parts of a database identifier: the schema before the first dot, the table after it. */
  lemma IdentifierPartsAre(schema: string, table: string)
    requires '.' !in schema
    ensures SchemaPart(schema) == Trim(schema) && TablePart(schema) == ""
    ensures SchemaPart(schema + "." + table) == Trim(schema)
    ensures TablePart(schema + "." + table) == Trim(table)
  {
    hide Trim;
    IndexOfIs(schema, '.', |schema|);
    assert schema[..|schema|] == schema;
    var s := schema + "." + table;
    assert s[..|schema|] == schema && s[|schema| + 1..] == table;
    IndexOfIs(s, '.', |schema|);
  }

  // ---------------------------------------------------------------- a permission and its own part of a scope

  /** What a list of prefixes admits; without a resource it is enough to have some list. */
  ghost predicate PrefixesAdmit(kind: ResourceType, scope: PrefixScope, resource: Option<Resource>) {
    match resource
    case None => scope.allow != [] || scope.readOnly != []
    case Some(r) =>
      && r.kind == kind
      && ((exists p :: p in scope.allow && Reaches(p, r.id)) ||
          (r.action == ReadAction && exists p :: p in scope.readOnly && Reaches(p, r.id)))
  }

  ghost predicate TablesAdmit(scope: DbScope, resource: Option<Resource>) {
    match resource
    case None => scope.schemas != [] || scope.tables != []
    case Some(r) =>
      var id := Trim(r.id);
      var schema, table := SchemaPart(id), TablePart(id);
      && r.kind == EnvDb && id != ""
      && ((exists p :: p in scope.schemas && Names(p, schema)) ||
          (table != "" && exists p :: p in scope.tables && Names(p, schema + "." + table)))
  }

  predicate MountsAdmit(mounts: seq<string>, resource: Option<Resource>) {
    match resource
    case None => mounts != []
    case Some(r) => r.kind == CloudFs && ("*" in mounts || r.id in mounts)
  }

  /** Each permission prefix looks at its own field of the scope; other permissions need no scope. */
  ghost predicate ScopeAdmits(scope: Option<Scope>, permission: string, resource: Option<Resource>) {
    && ("orgfs:" <= permission ==> scope.Some? && PrefixesAdmit(OrgFs, scope.value.orgfs, resource))
    && ("orgdocs:" <= permission ==> scope.Some? && PrefixesAdmit(OrgDocs, scope.value.orgdocs, resource))
    && ("envdb:" <= permission ==> scope.Some? && TablesAdmit(scope.value.envdb, resource))
    && ("cloud_fs:" <= permission ==> scope.Some? && MountsAdmit(scope.value.mounts, resource))
  }

  predicate IsScoped(permission: string) {
    "orgfs:" <= permission || "orgdocs:" <= permission || "envdb:" <= permission || "cloud_fs:" <= permission
  }

  lemma PrefixesAdmitIs(kind: ResourceType, scope: PrefixScope, resource: Option<Resource>)
    ensures EvaluatePrefixScope(kind, scope, resource) <==> PrefixesAdmit(kind, scope, resource)
  {
    hide SomePath, Reaches, NormalizeScopedPath;
    if resource.Some? { PrefixScopeMeaning(kind, scope, resource.value); }
  }

  lemma TablesAdmitIs(scope: DbScope, resource: Option<Resource>)
    ensures EvaluateEnvDbScope(scope, resource) <==> TablesAdmit(scope, resource)
  {
    hide SomeIdentifier, Names, Trim, SchemaPart, TablePart;
    if resource.Some? { DbScopeMeaning(scope, resource.value); }
  }

  lemma PrefixesOfPermissions(permission: string)
    ensures "orgfs:" <= permission ==> PermissionResourceType(permission) == Some(OrgFs)
    ensures "orgdocs:" <= permission ==> PermissionResourceType(permission) == Some(OrgDocs)
    ensures "envdb:" <= permission ==> PermissionResourceType(permission) == Some(EnvDb)
    ensures "cloud_fs:" <= permission ==> PermissionResourceType(permission) == Some(CloudFs)
    ensures PermissionResourceType(permission).Some? <==> IsScoped(permission)
    ensures "orgfs:" <= permission ==> !("orgdocs:" <= permission)
    ensures "orgfs:" <= permission || "orgdocs:" <= permission ==> !("envdb:" <= permission)
    ensures "cloud_fs:" <= permission ==>
              !("orgfs:" <= permission || "orgdocs:" <= permission || "envdb:" <= permission)
  {
    if permission != "" && |permission| >= 6 {
      assert "orgfs:" <= permission ==> permission[0] == 'o' && permission[3] == 'f';
      assert "orgdocs:" <= permission ==> permission[0] == 'o' && permission[3] == 'd';
      assert "envdb:" <= permission ==> permission[0] == 'e';
      assert "cloud_fs:" <= permission ==> permission[0] == 'c';
    }
  }

  /** The evaluation of a scope, prefix by prefix, in terms of the fields of the scope. */
  lemma ScopeEvaluationMeaning(scope: Option<Scope>, permission: string, resource: Option<Resource>)
    ensures var e := EvaluateScope(scope, permission, resource);
            && e.required == IsScoped(permission)
            && (e.matched <==> ScopeAdmits(scope, permission, resource))
  {
    hide EvaluatePrefixScope, EvaluateEnvDbScope, PrefixesAdmit, TablesAdmit, PermissionResourceType, IsScoped;
    PrefixesOfPermissions(permission);
    if scope.Some? {
      PrefixesAdmitIs(OrgFs, scope.value.orgfs, resource);
      PrefixesAdmitIs(OrgDocs, scope.value.orgdocs, resource);
      TablesAdmitIs(scope.value.envdb, resource);
    }
    AdmitsByType(scope, permission, resource);
  }

  lemma AdmitsByType(scope: Option<Scope>, permission: string, resource: Option<Resource>)
    ensures ScopeAdmits(scope, permission, resource) <==>
            match PermissionResourceType(permission)
            case None => true
            case Some(kind) =>
              scope.Some? &&
              match kind
              case OrgFs => PrefixesAdmit(OrgFs, scope.value.orgfs, resource)
              case OrgDocs => PrefixesAdmit(OrgDocs, scope.value.orgdocs, resource)
              case EnvDb => TablesAdmit(scope.value.envdb, resource)
              case CloudFs => MountsAdmit(scope.value.mounts, resource)
  {
    hide PrefixesAdmit, TablesAdmit, PermissionResourceType;
    PrefixesOfPermissions(permission);
  }

  /** Under a prefix scope, whatever may be written or administered may be read. */
  lemma WritableIsReadable(kind: ResourceType, scope: PrefixScope, id: string, action: Action)
    requires EvaluatePrefixScope(kind, scope, Some(Resource(kind, id, action)))
    ensures EvaluatePrefixScope(kind, scope, Some(Resource(kind, id, ReadAction)))
  {}

  /** A prefix scope whose patterns have no wildcard grants whole subtrees. */
  lemma LiteralScopesGrantSubtrees(kind: ResourceType, scope: PrefixScope, id: string, action: Action, rest: string)
    requires forall i :: 0 <= i < |scope.allow| ==> IsLiteral(scope.allow[i])
    requires forall i :: 0 <= i < |scope.readOnly| ==> IsLiteral(scope.readOnly[i])
    requires EvaluatePrefixScope(kind, scope, Some(Resource(kind, id, action)))
    ensures EvaluatePrefixScope(kind, scope, Some(Resource(kind, NormalizeScopedPath(id) + "/" + rest, action)))
  {
    hide MatchesPathPattern, NormalizeScopedPath, IsLiteral;
    var path := NormalizeScopedPath(id);
    NormalizeIsIdempotent(id);
    SubtreeOf(scope.allow, path, rest);
    SubtreeOf(scope.readOnly, path, rest);
  }

  lemma SubtreeOf(patterns: seq<string>, path: string, rest: string)
    requires forall i :: 0 <= i < |patterns| ==> IsLiteral(patterns[i])
    requires NormalizeScopedPath(path) == path
    ensures SomePath(patterns, path) ==> SomePath(patterns, NormalizeScopedPath(path + "/" + rest))
  {
    hide NormalizeScopedPath;
    if SomePath(patterns, path) {
      var i :| 0 <= i < |patterns| && MatchesPathPattern(patterns[i], path);
      LiteralPatternsAreClosedUnderDescendants(patterns[i], path, rest);
      NormalizeIsIdempotent(path + "/" + rest);
      assert MatchesPathPattern(patterns[i], NormalizeScopedPath(path + "/" + rest));
    }
  }

  /** A database scope that admits a schema admits every table in it, for every way of writing the
      schema with blanks around it. */
  lemma SchemaAdmitsItsTables(scope: DbScope, schema: string, table: string, action: Action)
    requires '.' !in schema
    requires EvaluateEnvDbScope(scope, Some(Resource(EnvDb, schema, action)))
    ensures EvaluateEnvDbScope(scope, Some(Resource(EnvDb, schema + "." + table, action)))
  {
    hide IsSpace, Trim, SomeIdentifier;
    DottedIdentifier(schema, table);
  }

  lemma DotIsNoSpace()
    ensures !IsSpace('.')
  {}

  lemma DottedIdentifier(schema: string, table: string)
    requires '.' !in schema && Trim(schema) != ""
    ensures SchemaPart(Trim(schema)) == Trim(schema)
    ensures TablePart(Trim(schema)) == ""
    ensures var id := Trim(schema + "." + table);
            id != "" && SchemaPart(id) == Trim(schema)
  {
    hide IsSpace, Trim, TrimStart, TrimEnd;
    DotIsNoSpace();
    assert AllSpace("");
    var pre, post := TrimCuts(schema);
    var core := Trim(schema);
    TrimIs("", core, "");
    assert "" + core + "" == core;
    assert '.' !in core by { assert forall c :: c in core ==> c in schema; }
    IndexOfIs(core, '.', |core|);
    assert core[..|core|] == core;
    var t := TrimEnd(table);
    TrimEndCuts(table);
    var id, tail := core + post + "." + t, table[|t|..];
    assert table == t + tail;
    assert schema + "." + table == pre + id + tail;
    assert id[0] == core[0] && id[|id| - 1] == if t == "" then '.' else t[|t| - 1];
    TrimIs(pre, id, tail);
    var i := |core + post|;
    assert id[..i] == core + post && id[i] == '.';
    assert '.' !in core + post by { assert forall c :: c in core + post ==> c in schema; }
    IndexOfIs(id, '.', i);
    TrimIs("", core, post);
    assert "" + core + post == core + post;
  }
}
