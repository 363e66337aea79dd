/** Access requests (`apps/api/src/auth/auth.access-requests.controller.ts`): submitting, approving and
    rejecting, over tables with the constraints of the migrations. An approval is one transaction. */
module AccessRequests {
  import opened Text

  datatype Status = Pending | Approved | Rejected
  datatype Role = Member | Admin | Owner

  datatype Request = Request(
    provider: string, publicKey: string, fingerprint: string, email: Option<string>,
    orgName: string, orgSlug: Option<string>,
    status: Status, reviewedBy: Option<string>, notes: Option<string>, userId: Option<string>, orgId: Option<string>)

  datatype Org = Org(name: string, slug: string, deleted: bool)
  datatype User = User(email: string)
  datatype Identity = Identity(userId: string, provider: string, fingerprint: string)

  datatype State = State(
    requests: map<string, Request>,
    orgs: map<string, Org>,
    users: map<string, User>,
    identities: map<string, Identity>,
    members: map<(string, string), Role>)

  /** `ServerError` is an exception the handler does not foresee. */
  datatype Problem = BadRequest | NotFound | Conflict | Unauthorized | ConstraintViolation | ServerError

  type Tried<T> = Result<T, Problem>

  /** `toLowerCase`; the database's `LOWER` is taken to agree with it. */
  type Lower = string -> string

  // ---------------------------------------------------------------- slugs and notes

  predicate IsLetter(c: char) { 'a' <= c <= 'z' }

  predicate IsSlugChar(c: char) { IsLetter(c) || IsDigit(c) }

  /** `/^[a-z][a-z0-9]{1,11}$/`, in the schema and in the table's CHECK. */
  predicate ValidSlug(s: string) {
    2 <= |s| <= 12 && IsLetter(s[0]) && forall i :: 0 <= i < |s| ==> IsSlugChar(s[i])
  }

  function KeepSlugChars(s: string): string {
    if s == "" then "" else (if IsSlugChar(s[0]) then [s[0]] else "") + KeepSlugChars(s[1..])
  }

  function Take12(s: string): string {
    if |s| <= 12 then s else s[..12]
  }

  function DeriveSlug(name: string, lower: Lower): string {
    var slug := Take12(KeepSlugChars(lower(name)));
    if |slug| < 2 || !IsLetter(slug[0]) then Take12("org" + slug) else slug
  }

  lemma {:induction false} KeepSlugCharsIs(s: string)
    ensures forall i :: 0 <= i < |KeepSlugChars(s)| ==> IsSlugChar(KeepSlugChars(s)[i])
  {
    if s != "" { KeepSlugCharsIs(s[1..]); }
  }

  /** Every derived slug fits the table, whatever the name is and however it is lower-cased. */
  lemma DerivedSlugsAreValid(name: string, lower: Lower)
    ensures ValidSlug(DeriveSlug(name, lower))
  {
    var kept := KeepSlugChars(lower(name));
    KeepSlugCharsIs(lower(name));
    var s := "org" + Take12(kept);
    assert s[0] == 'o' && s[1] == 'r' && s[2] == 'g';
    forall i | 0 <= i < |s| ensures IsSlugChar(s[i]) {
      if i >= 3 { assert s[i] == kept[i - 3]; }
    }
  }

  function IsKept(s: string): nat -> bool {
    (k: nat) => k < |s| && (IsLetter(s[k]) || IsDigit(s[k]))
  }

  lemma {:induction false} KeptCharsAre(s: string) returns (idx: seq<nat>)
    ensures Picks(idx, |s|, IsKept(s))
    ensures |KeepSlugChars(s)| == |idx| && forall j :: 0 <= j < |idx| ==> KeepSlugChars(s)[j] == s[idx[j]]
  {
    hide Picks;
    if s == "" {
      idx := [];
      PicksNone(IsKept(s));
    } else {
      var n := |s| - 1;
      idx := KeptCharsAre(s[..n]);
      KeepSlugCharsConcat(s[..n], [s[n]]);
      assert s == s[..n] + [s[n]];
      PicksMore(idx, n, IsKept(s[..n]), IsKept(s));
      idx := if IsKept(s)(n) then idx + [n] else idx;
    }
  }

  lemma {:induction false} KeepSlugCharsConcat(a: string, b: string)
    ensures KeepSlugChars(a + b) == KeepSlugChars(a) + KeepSlugChars(b)
  {
    hide IsSlugChar;
    if a == "" {
      assert a + b == b;
    } else {
      assert (a + b)[1..] == a[1..] + b && (a + b)[0] == a[0];
      KeepSlugCharsConcat(a[1..], b);
      var head := if IsSlugChar(a[0]) then [a[0]] else "";
      assert head + (KeepSlugChars(a[1..]) + KeepSlugChars(b)) == (head + KeepSlugChars(a[1..])) + KeepSlugChars(b);
    }
  }

  /** A derived slug is made of the letters and digits of the lower-cased name, in order and cut to twelve;
      where these are fewer than two or start with a digit, `org` goes before them. */
  lemma DerivedSlugIs(name: string, lower: Lower) returns (kept: string, idx: seq<nat>)
    ensures Picks(idx, |lower(name)|, IsKept(lower(name)))
    ensures |kept| == |idx| && forall j :: 0 <= j < |idx| ==> kept[j] == lower(name)[idx[j]]
    ensures var slug := DeriveSlug(name, lower);
            if |kept| >= 2 && IsLetter(kept[0]) then slug == if |kept| <= 12 then kept else kept[..12]
            else slug == "org" + if |kept| <= 9 then kept else kept[..9]
  {
    hide Picks;
    kept := KeepSlugChars(lower(name));
    idx := KeptCharsAre(lower(name));
    var cut := Take12(kept);
    if |kept| > 9 && !IsLetter(kept[0]) {
      assert ("org" + cut)[..12] == "org" + kept[..9];
    }
  }

  function Keep(note: Option<string>): seq<string> {
    if note.Some? && Trim(note.value) != "" then [Trim(note.value)] else []
  }

  /** `combineReviewNotes`. */
  function CombineNotes(a: Option<string>, b: Option<string>, c: Option<string>): Option<string> {
    var clean := Keep(a) + Keep(b) + Keep(c);
    if clean == [] then None else Some(Join(clean, "; "))
  }

  predicate IsBlank(note: Option<string>) {
    note.None? || Trim(note.value) == ""
  }

  /** Blank notes are dropped, the others trimmed and joined in order. */
  lemma CombinedNotesAre(a: Option<string>, b: Option<string>, c: Option<string>)
    ensures IsBlank(a) ==> CombineNotes(a, b, c) == CombineNotes(b, c, None)
    ensures IsBlank(a) && IsBlank(b) && IsBlank(c) ==> CombineNotes(a, b, c) == None
    ensures !IsBlank(a) ==>
              CombineNotes(a, b, c) ==
              match CombineNotes(b, c, None)
              case None => Some(Trim(a.value))
              case Some(rest) => Some(Trim(a.value) + "; " + rest)
  {
    hide Trim;
    var rest := Keep(b) + Keep(c) + Keep(None);
    assert Keep(a) + Keep(b) + Keep(c) == Keep(a) + rest;
    assert IsBlank(a) ==> Keep(a) + rest == rest;
    if !IsBlank(a) && rest != [] {
      assert (Keep(a) + rest)[1..] == rest;
    }
  }

  // ---------------------------------------------------------------- queries and constraints

  predicate IsOrgBySlug(st: State, slug: string, id: string) {
    id in st.orgs && st.orgs[id].slug == slug && !st.orgs[id].deleted
  }

  predicate IsIdentityOf(st: State, provider: string, fingerprint: string, id: string) {
    id in st.identities && st.identities[id].provider == provider && st.identities[id].fingerprint == fingerprint
  }

  predicate IsPendingFor(st: State, fingerprint: string, id: string) {
    id in st.requests && st.requests[id].fingerprint == fingerprint && st.requests[id].status == Pending
  }

  ghost function FindOrg(st: State, slug: string): Option<string> {
    if exists id :: IsOrgBySlug(st, slug, id) then var id :| IsOrgBySlug(st, slug, id); Some(id) else None
  }

  ghost function FindIdentity(st: State, provider: string, fingerprint: string): Option<string> {
    if exists id :: IsIdentityOf(st, provider, fingerprint, id)
    then var id :| IsIdentityOf(st, provider, fingerprint, id); Some(id) else None
  }

  ghost function FindPending(st: State, fingerprint: string): Option<string> {
    if exists id :: IsPendingFor(st, fingerprint, id)
    then var id :| IsPendingFor(st, fingerprint, id); Some(id) else None
  }

  predicate EmailTaken(st: State, email: string, lower: Lower) {
    exists u :: u in st.users && lower(st.users[u].email) == lower(email)
  }

  /** Primary key, unique name, unique slug, slug check; deleted rows count. */
  predicate CanInsertOrg(st: State, id: string, name: string, slug: string) {
    && id !in st.orgs && ValidSlug(slug)
    && forall o :: o in st.orgs ==> st.orgs[o].slug != slug && st.orgs[o].name != name
  }

  predicate CanInsertUser(st: State, id: string, email: string) {
    id !in st.users && forall u :: u in st.users ==> st.users[u].email != email
  }

  // ---------------------------------------------------------------- one approval

  /** Identifiers generated for the rows an approval may create. */
  datatype NewIds = NewIds(org: string, user: string, identity: string)

  function SlugOf(r: Request, lower: Lower): string {
    match r.orgSlug case Some(s) => s case None => DeriveSlug(r.orgName, lower)
  }

  /** An id, whether its row existed before, and the tables afterwards. */
  datatype Row = Row(id: string, reused: bool, st: State)

  /** Reuses the live organisation with the slug when its name agrees up to case, or creates it. */
  ghost function EnsureOrg(st: State, r: Request, newId: string, lower: Lower): Tried<Row> {
    var slug := SlugOf(r, lower);
    match FindOrg(st, slug)
    case Some(id) => if lower(st.orgs[id].name) != lower(r.orgName) then Err(Conflict) else Ok(Row(id, true, st))
    case None =>
      if CanInsertOrg(st, newId, r.orgName, slug)
      then Ok(Row(newId, false, st.(orgs := st.orgs[newId := Org(r.orgName, slug, false)])))
      else Err(ConstraintViolation)
  }

  /** A changed address is taken over unless somebody has it. */
  function NewEmail(st: State, r: Request, userId: string, lower: Lower): State
    requires userId in st.users
  {
    if r.email.Some? && r.email.value != "" && lower(st.users[userId].email) != lower(r.email.value)
       && !EmailTaken(st, r.email.value, lower)
    then st.(users := st.users[userId := User(r.email.value)]) else st
  }

  /** Reuses the user who owns the key, or creates user and identity. */
  ghost function EnsureUser(st: State, r: Request, slug: string, ids: NewIds, lower: Lower): Tried<Row> {
    match FindIdentity(st, r.provider, r.fingerprint)
    case Some(i) =>
      var userId := st.identities[i].userId;
      if userId !in st.users then Err(Conflict) else Ok(Row(userId, true, NewEmail(st, r, userId, lower)))
    case None =>
      var email := match r.email case Some(e) => e case None => slug + "@eve.local";
      if !CanInsertUser(st, ids.user, email) || ids.identity in st.identities then Err(ConstraintViolation)
      else Ok(Row(ids.user, false,
                  st.(users := st.users[ids.user := User(email)],
                      identities := st.identities[ids.identity := Identity(ids.user, r.provider, r.fingerprint)])))
  }

  /** The owner role is kept; everybody else becomes an administrator. */
  function Grant(st: State, orgId: string, userId: string): State {
    var role := if (orgId, userId) in st.members && st.members[(orgId, userId)] == Owner then Owner else Admin;
    st.(members := st.members[(orgId, userId) := role])
  }

  function Review(r: Request, admin: string, userId: string, orgId: string, notes: Option<string>): Request {
    r.(status := Approved, reviewedBy := Some(admin), notes := notes, userId := Some(userId), orgId := Some(orgId))
  }

  function ReviewNotes(notes: Option<string>, orgReused: bool, userReused: bool): Option<string> {
    CombineNotes(notes, if orgReused then Some("reused existing org") else None,
                 if userReused then Some("reused existing identity owner") else None)
  }

  /** `approveRequest`: everything or nothing. `reviewed_by` refers to the users table. */
  ghost function Approve(st: State, id: string, admin: Option<string>, notes: Option<string>, ids: NewIds,
      lower: Lower): (Tried<Request>, State) {
    if admin.None? || admin.value == "" then (Err(Unauthorized), st)
    else if id !in st.requests then (Err(NotFound), st)
    else
      var r := st.requests[id];
      if r.status == Approved then (Ok(r), st)
      else if r.status == Rejected then (Err(Conflict), st)
      else
        match EnsureOrg(st, r, ids.org, lower)
        case Err(p) => (Err(p), st)
        case Ok(org) =>
          match EnsureUser(org.st, r, SlugOf(r, lower), ids, lower)
          case Err(p) => (Err(p), st)
          case Ok(user) =>
            if admin.value !in user.st.users then (Err(ConstraintViolation), st)
            else
              var done := Review(r, admin.value, user.id, org.id, ReviewNotes(notes, org.reused, user.reused));
              var st' := Grant(user.st, org.id, user.id);
              (Ok(done), st'.(requests := st'.requests[id := done]))
  }

  // ---------------------------------------------------------------- submitting and rejecting

  datatype Body = Body(provider: string, publicKey: string, email: Option<string>, orgName: string,
      orgSlug: Option<string>)

  function Fingerprint(b: Body, ssh: string -> Tried<string>, lower: Lower): Tried<string> {
    if b.provider == "nostr" then Ok(lower(b.publicKey)) else ssh(b.publicKey)
  }

  function NewRequest(b: Body, fingerprint: string): Request {
    Request(b.provider, b.publicKey, fingerprint, b.email, b.orgName, b.orgSlug, Pending, None, None, None, None)
  }

  /** `submitRequest`: a pending request with the same fingerprint is answered instead of a new one. */
  ghost function Submit(st: State, id: string, b: Body, ssh: string -> Tried<string>,
      lower: Lower): (Tried<Request>, State) {
    if b.provider == "" || b.publicKey == "" || b.orgName == "" then (Err(BadRequest), st)
    else if b.provider != "github_ssh" && b.provider != "nostr" then (Err(BadRequest), st)
    else
      match Fingerprint(b, ssh, lower)
      case Err(p) => (Err(p), st)
      case Ok(fingerprint) =>
        match FindPending(st, fingerprint)
        case Some(existing) => (Ok(st.requests[existing]), st)
        case None =>
          if b.orgSlug.Some? && b.orgSlug.value != "" && !ValidSlug(b.orgSlug.value) then (Err(BadRequest), st)
          else if id in st.requests then (Err(ConstraintViolation), st)
          else
            var r := NewRequest(b, fingerprint);
            (Ok(r), st.(requests := st.requests[id := r]))
  }

  /** The insert of `submitRequest` on its own: primary key, and one pending request per fingerprint. */
  ghost function InsertRequest(st: State, id: string, r: Request): State {
    if id in st.requests || FindPending(st, r.fingerprint).Some? then st
    else st.(requests := st.requests[id := r])
  }

  /** `submitRequest` looks for a pending request first, outside any transaction. Whatever it saw, its
      insert leaves the tables as an atomic submission at that moment would. */
  lemma LateInsertIsASubmit(st: State, id: string, b: Body, ssh: string -> Tried<string>, lower: Lower)
    requires b.publicKey != "" && b.orgName != "" && (b.provider == "github_ssh" || b.provider == "nostr")
    requires SlugAccepted(b.orgSlug) && Fingerprint(b, ssh, lower).Ok?
    ensures InsertRequest(st, id, NewRequest(b, Fingerprint(b, ssh, lower).value)) == Submit(st, id, b, ssh, lower).1
  {
    hide Fingerprint, ValidSlug;
  }

  /** The guarded update of `rejectRequest`. The handler looks at the request first, outside any
      transaction; as the update applies to pending requests only, that look has no effect on the tables. */
  function Reject(st: State, id: string, admin: string, notes: Option<string>): State {
    if id in st.requests && st.requests[id].status == Pending && admin in st.users then
      var r := st.requests[id].(status := Rejected, reviewedBy := Some(admin), notes := notes);
      st.(requests := st.requests[id := r])
    else st
  }

  // ---------------------------------------------------------------- runs

  datatype Event =
    | SubmitEvent(id: string, body: Body)
    | ApproveEvent(id: string, admin: Option<string>, notes: Option<string>, ids: NewIds)
    | RejectEvent(id: string, reviewer: string, notes: Option<string>)

  ghost function React(st: State, e: Event, ssh: string -> Tried<string>, lower: Lower): State {
    match e
    case SubmitEvent(id, body) => Submit(st, id, body, ssh, lower).1
    case ApproveEvent(id, admin, notes, ids) => Approve(st, id, admin, notes, ids, lower).1
    case RejectEvent(id, reviewer, notes) => Reject(st, id, reviewer, notes)
  }

  ghost function Play(st: State, events: seq<Event>, ssh: string -> Tried<string>, lower: Lower): State
    decreases |events|
  {
    if events == [] then st else Play(React(st, events[0], ssh, lower), events[1..], ssh, lower)
  }

  ghost predicate OrgsOk(st: State) {
    && (forall a, b :: a in st.orgs && b in st.orgs && a != b ==>
          st.orgs[a].slug != st.orgs[b].slug && st.orgs[a].name != st.orgs[b].name)
    && (forall a :: a in st.orgs ==> ValidSlug(st.orgs[a].slug))
  }

  ghost predicate UsersOk(st: State) {
    forall a, b :: a in st.users && b in st.users && a != b ==> st.users[a].email != st.users[b].email
  }

  /** One identity per key, and its user exists. */
  ghost predicate IdentitiesOk(st: State) {
    && (forall a, b :: a in st.identities && b in st.identities && a != b ==>
          || st.identities[a].provider != st.identities[b].provider
          || st.identities[a].fingerprint != st.identities[b].fingerprint)
    && (forall a :: a in st.identities ==> st.identities[a].userId in st.users)
  }

  /** What an approved request records. */
  ghost predicate Provisioned(st: State, r: Request) {
    && r.reviewedBy.Some? && r.userId.Some? && r.orgId.Some?
    && r.userId.value in st.users && r.orgId.value in st.orgs
    && (r.orgId.value, r.userId.value) in st.members
    && st.members[(r.orgId.value, r.userId.value)] != Member
    && OwnsKey(st, r.provider, r.fingerprint, r.userId.value)
  }

  ghost predicate OwnsKey(st: State, provider: string, fingerprint: string, userId: string) {
    exists i :: IsIdentityOf(st, provider, fingerprint, i) && st.identities[i].userId == userId
  }

  ghost predicate RequestsOk(st: State) {
    && (forall a, b :: a in st.requests && b in st.requests && a != b
                       && st.requests[a].status == Pending && st.requests[b].status == Pending ==>
                       st.requests[a].fingerprint != st.requests[b].fingerprint)
    && (forall a :: a in st.requests ==> SlugAccepted(st.requests[a].orgSlug))
    && (forall a :: a in st.requests && st.requests[a].status == Approved ==> Provisioned(st, st.requests[a]))
  }

  /** What submission lets through: no slug, a valid slug, or the empty text. */
  predicate SlugAccepted(slug: Option<string>) {
    slug.None? || slug.value == "" || ValidSlug(slug.value)
  }

  ghost predicate Inv(st: State) {
    OrgsOk(st) && UsersOk(st) && IdentitiesOk(st) && RequestsOk(st)
  }

  // ---------------------------------------------------------------- single steps

  /** The rows that exist stay: later tables have the same organisations, users up to their address,
      identities, and roles at least as high. */
  ghost predicate Grows(a: State, b: State) {
    && (forall x :: x in a.orgs ==> x in b.orgs && b.orgs[x] == a.orgs[x])
    && (forall x :: x in a.users ==> x in b.users)
    && (forall x :: x in a.identities ==> x in b.identities && b.identities[x] == a.identities[x])
    && (forall k :: k in a.members ==> k in b.members && RoleAtLeast(b.members[k], a.members[k]))
  }

  /** No request disappears, and a reviewed one keeps every field. */
  ghost predicate ReviewedStay(a: State, b: State) {
    forall x :: x in a.requests ==>
      x in b.requests && (a.requests[x].status == Pending || b.requests[x] == a.requests[x])
  }

  predicate RoleAtLeast(a: Role, b: Role) {
    a == Owner || (a == Admin && b != Owner) || b == Member
  }

  lemma EnsureOrgIs(st: State, r: Request, newId: string, lower: Lower)
    requires Inv(st) && EnsureOrg(st, r, newId, lower).Ok?
    ensures var row := EnsureOrg(st, r, newId, lower).value;
            && OrgsOk(row.st) && Grows(st, row.st)
            && row.st == st.(orgs := row.st.orgs)
            && IsOrgBySlug(row.st, SlugOf(r, lower), row.id) && lower(row.st.orgs[row.id].name) == lower(r.orgName)
  {
    hide ValidSlug, UsersOk, IdentitiesOk, RequestsOk, SlugOf;
  }

  lemma EnsureUserIs(st: State, r: Request, slug: string, ids: NewIds, lower: Lower)
    requires UsersOk(st) && IdentitiesOk(st) && EnsureUser(st, r, slug, ids, lower).Ok?
    ensures var row := EnsureUser(st, r, slug, ids, lower).value;
            && UsersOk(row.st) && IdentitiesOk(row.st) && Grows(st, row.st)
            && row.st == st.(users := row.st.users, identities := row.st.identities)
            && row.id in row.st.users && OwnsKey(row.st, r.provider, r.fingerprint, row.id)
  {
    hide UsersOk, IdentitiesOk, Grows, NewEmail, CanInsertUser;
    match FindIdentity(st, r.provider, r.fingerprint) {
      case Some(i) => NewEmailIs(st, r, st.identities[i].userId, lower);
      case None =>
        var email := match r.email case Some(e) => e case None => slug + "@eve.local";
        assert forall i :: !IsIdentityOf(st, r.provider, r.fingerprint, i);
        CreatedUserIs(st, r, email, ids);
    }
  }

  lemma CreatedUserIs(st: State, r: Request, email: string, ids: NewIds)
    requires UsersOk(st) && IdentitiesOk(st) && CanInsertUser(st, ids.user, email) && ids.identity !in st.identities
    requires forall i :: !IsIdentityOf(st, r.provider, r.fingerprint, i)
    ensures var st' := st.(users := st.users[ids.user := User(email)],
                           identities := st.identities[ids.identity := Identity(ids.user, r.provider, r.fingerprint)]);
            && UsersOk(st') && IdentitiesOk(st') && Grows(st, st') && OwnsKey(st', r.provider, r.fingerprint, ids.user)
  {
    var st' := st.(users := st.users[ids.user := User(email)],
                   identities := st.identities[ids.identity := Identity(ids.user, r.provider, r.fingerprint)]);
    assert IsIdentityOf(st', r.provider, r.fingerprint, ids.identity);
    forall a, b | a in st'.identities && b in st'.identities && a != b
      ensures || st'.identities[a].provider != st'.identities[b].provider
              || st'.identities[a].fingerprint != st'.identities[b].fingerprint
    {
      if a == ids.identity { assert !IsIdentityOf(st, r.provider, r.fingerprint, b); }
      if b == ids.identity { assert !IsIdentityOf(st, r.provider, r.fingerprint, a); }
    }
  }

  lemma NewEmailIs(st: State, r: Request, userId: string, lower: Lower)
    requires UsersOk(st) && userId in st.users
    ensures var st' := NewEmail(st, r, userId, lower);
            && UsersOk(st') && Grows(st, st') && st' == st.(users := st'.users)
            && st'.users.Keys == st.users.Keys && (IdentitiesOk(st) ==> IdentitiesOk(st'))
  {
    hide UsersOk, Grows, IdentitiesOk, EmailTaken;
    var st' := NewEmail(st, r, userId, lower);
    NothingGrows(st);
    if st' != st {
      NewAddress(st, userId, r.email.value, lower);
      SameUserIds(st, st');
    }
  }

  lemma NewAddress(st: State, userId: string, email: string, lower: Lower)
    requires UsersOk(st) && userId in st.users && !EmailTaken(st, email, lower)
    ensures UsersOk(st.(users := st.users[userId := User(email)]))
  {}

  lemma SameUserIds(st: State, st': State)
    requires st' == st.(users := st'.users) && st'.users.Keys == st.users.Keys
    ensures Grows(st, st') && (IdentitiesOk(st) ==> IdentitiesOk(st'))
  {}

  lemma ProvisionedStays(a: State, b: State, r: Request)
    requires Provisioned(a, r) && Grows(a, b)
    ensures Provisioned(b, r)
  {}

  lemma KeyStays(a: State, b: State, provider: string, fingerprint: string, userId: string)
    requires OwnsKey(a, provider, fingerprint, userId) && Grows(a, b)
    ensures OwnsKey(b, provider, fingerprint, userId)
  {}

  /** A successful first approval records a user who owns the key and holds admin or owner in the
      recorded organisation, which is live and carries the requested name and slug. */
  lemma ApprovalProvisions(st: State, id: string, admin: Option<string>, notes: Option<string>, ids: NewIds,
      lower: Lower)
    requires Inv(st) && id in st.requests && st.requests[id].status == Pending
    requires Approve(st, id, admin, notes, ids, lower).0.Ok?
    ensures var (result, st') := Approve(st, id, admin, notes, ids, lower); var r := result.value;
            && st'.requests == st.requests[id := r] && r.status == Approved && r.reviewedBy == admin
            && r == st.requests[id].(status := Approved, reviewedBy := r.reviewedBy, notes := r.notes,
                                     userId := r.userId, orgId := r.orgId)
            && Provisioned(st', r) && Grows(st, st')
            && OrgsOk(st') && UsersOk(st') && IdentitiesOk(st')
            && IsOrgBySlug(st', SlugOf(r, lower), r.orgId.value)
            && lower(st'.orgs[r.orgId.value].name) == lower(r.orgName)
  {
    hide ValidSlug, RequestsOk, SlugOf, EnsureOrg, EnsureUser, OrgsOk, UsersOk, IdentitiesOk, IsOrgBySlug, ReviewNotes;
    var r := st.requests[id];
    EnsureOrgIs(st, r, ids.org, lower);
    var org := EnsureOrg(st, r, ids.org, lower).value;
    OnlyOrgsChanged(st, org.st);
    EnsureUserIs(org.st, r, SlugOf(r, lower), ids, lower);
    var user := EnsureUser(org.st, r, SlugOf(r, lower), ids, lower).value;
    var (result, st') := Approve(st, id, admin, notes, ids, lower);
    FinishIs(st, org.st, user.st, st', id, org.id, user.id, result.value, SlugOf(r, lower));
    SlugOfReviewed(r, result.value, lower);
  }

  /** The organisation a first approval ends with: the live one with the slug, or a new one. */
  lemma OrgAfterApproval(st: State, id: string, admin: Option<string>, notes: Option<string>, ids: NewIds,
      lower: Lower)
    requires Inv(st) && id in st.requests && st.requests[id].status == Pending
    requires Approve(st, id, admin, notes, ids, lower).0.Ok?
    ensures var (result, st') := Approve(st, id, admin, notes, ids, lower); var r := st.requests[id];
            var orgId, slug := result.value.orgId.value, SlugOf(r, lower);
            && result.value.orgId.Some?
            && if exists o :: IsOrgBySlug(st, slug, o) then st'.orgs == st.orgs && IsOrgBySlug(st, slug, orgId)
               else orgId == ids.org && orgId !in st.orgs && st'.orgs == st.orgs[orgId := Org(r.orgName, slug, false)]
  {
    hide EnsureUser, SlugOf, ReviewNotes, ValidSlug, UsersOk, IdentitiesOk, RequestsOk, OrgsOk;
    var r := st.requests[id];
    EnsureOrgIs(st, r, ids.org, lower);
    var org := EnsureOrg(st, r, ids.org, lower).value;
    OnlyOrgsChanged(st, org.st);
    EnsureUserIs(org.st, r, SlugOf(r, lower), ids, lower);
  }

  /** The address a known user has after an approval: the requested one if it is another address and free. */
  ghost predicate IsAddressAfter(st: State, r: Request, userId: string, email: string, lower: Lower)
    requires userId in st.users
  {
    var was := st.users[userId].email;
    if r.email.Some? && r.email.value != "" && lower(was) != lower(r.email.value)
       && forall u :: u in st.users ==> lower(st.users[u].email) != lower(r.email.value)
    then email == r.email.value else email == was
  }

  /** The user and key a first approval ends with: the owner of the key, with at most a new address, or a
      new user with a new identity. Nobody else changes. */
  lemma UserAfterApproval(st: State, id: string, admin: Option<string>, notes: Option<string>, ids: NewIds,
      lower: Lower)
    requires Inv(st) && id in st.requests && st.requests[id].status == Pending
    requires Approve(st, id, admin, notes, ids, lower).0.Ok?
    ensures var (result, st') := Approve(st, id, admin, notes, ids, lower); var r := st.requests[id];
            var userId := result.value.userId.value;
            && result.value.userId.Some?
            && if KeyKnown(st, r) then
                 && OwnsKey(st, r.provider, r.fingerprint, userId) && userId in st.users
                 && st'.identities == st.identities && userId in st'.users
                 && st'.users == st.users[userId := st'.users[userId]]
                 && IsAddressAfter(st, r, userId, st'.users[userId].email, lower)
               else
                 && userId == ids.user && userId !in st.users
                 && st'.users == st.users[userId := User(AddressOf(r, SlugOf(r, lower)))]
                 && st'.identities == st.identities[ids.identity := Identity(userId, r.provider, r.fingerprint)]
  {
    hide EnsureOrg, SlugOf, ReviewNotes, ValidSlug, UsersOk, RequestsOk, OrgsOk;
    var r := st.requests[id];
    EnsureOrgIs(st, r, ids.org, lower);
    var org := EnsureOrg(st, r, ids.org, lower).value;
    OnlyOrgsChanged(st, org.st);
    UserIs(org.st, r, ids, lower);
    SameKeys(st, org.st, r);
  }

  lemma SameKeys(st: State, st': State, r: Request)
    requires st' == st.(orgs := st'.orgs)
    ensures KeyKnown(st', r) == KeyKnown(st, r)
    ensures forall u :: OwnsKey(st', r.provider, r.fingerprint, u) == OwnsKey(st, r.provider, r.fingerprint, u)
    ensures forall u, e, lower :: u in st.users ==>
              IsAddressAfter(st', r, u, e, lower) == IsAddressAfter(st, r, u, e, lower)
  {
    assert forall i :: IsIdentityOf(st', r.provider, r.fingerprint, i)
                       == IsIdentityOf(st, r.provider, r.fingerprint, i);
  }

  lemma UserIs(st: State, r: Request, ids: NewIds, lower: Lower)
    requires IdentitiesOk(st) && EnsureUser(st, r, SlugOf(r, lower), ids, lower).Ok?
    ensures var row := EnsureUser(st, r, SlugOf(r, lower), ids, lower).value; var userId := row.id;
            if KeyKnown(st, r) then
              && row.reused && OwnsKey(st, r.provider, r.fingerprint, userId) && userId in st.users
              && row.st.identities == st.identities && userId in row.st.users
              && row.st.users == st.users[userId := row.st.users[userId]]
              && IsAddressAfter(st, r, userId, row.st.users[userId].email, lower)
            else
              && !row.reused && userId == ids.user && userId !in st.users
              && row.st.users == st.users[userId := User(AddressOf(r, SlugOf(r, lower)))]
              && row.st.identities == st.identities[ids.identity := Identity(userId, r.provider, r.fingerprint)]
  {
    hide SlugOf;
    if i :| i in st.identities && IsIdentityOf(st, r.provider, r.fingerprint, i) {
      IdentityIsUnique(st, r.provider, r.fingerprint, i);
    }
  }

  /** The role a first approval grants: admin, except that an owner of the organisation stays owner. No
      other membership changes. */
  lemma RoleAfterApproval(st: State, id: string, admin: Option<string>, notes: Option<string>, ids: NewIds,
      lower: Lower)
    requires Inv(st) && id in st.requests && st.requests[id].status == Pending
    requires Approve(st, id, admin, notes, ids, lower).0.Ok?
    ensures var (result, st') := Approve(st, id, admin, notes, ids, lower);
            var member := (result.value.orgId.value, result.value.userId.value);
            && result.value.orgId.Some? && result.value.userId.Some?
            && st'.members.Keys == st.members.Keys + {member}
            && (st'.members[member] == Owner <==> member in st.members && st.members[member] == Owner)
            && st'.members[member] != Member
            && forall m :: m in st.members && m != member ==> st'.members[m] == st.members[m]
  {
    hide EnsureOrg, EnsureUser, SlugOf, ReviewNotes, ValidSlug, UsersOk, IdentitiesOk, RequestsOk, OrgsOk;
    var r := st.requests[id];
    EnsureOrgIs(st, r, ids.org, lower);
    var org := EnsureOrg(st, r, ids.org, lower).value;
    OnlyOrgsChanged(st, org.st);
    EnsureUserIs(org.st, r, SlugOf(r, lower), ids, lower);
  }

  /** The notes of a first approval: the reviewer's, and which rows were there before. */
  lemma NotesAfterApproval(st: State, id: string, admin: Option<string>, notes: Option<string>, ids: NewIds,
      lower: Lower)
    requires Inv(st) && id in st.requests && st.requests[id].status == Pending
    requires Approve(st, id, admin, notes, ids, lower).0.Ok?
    ensures var r := Approve(st, id, admin, notes, ids, lower).0.value;
            var org := if exists o :: IsOrgBySlug(st, SlugOf(r, lower), o) then Some("reused existing org") else None;
            var user := if KeyKnown(st, r) then Some("reused existing identity owner") else None;
            r.notes == CombineNotes(notes, org, user)
  {
    hide SlugOf, CombineNotes, NewEmail, ValidSlug, UsersOk, RequestsOk, OrgsOk;
    var r := st.requests[id];
    var org := EnsureOrg(st, r, ids.org, lower).value;
    EnsureOrgIs(st, r, ids.org, lower);
    OnlyOrgsChanged(st, org.st);
    UserIs(org.st, r, ids, lower);
    SameKeys(st, org.st, r);
    SlugOfReviewed(r, Approve(st, id, admin, notes, ids, lower).0.value, lower);
  }

  lemma SlugOfReviewed(r: Request, done: Request, lower: Lower)
    requires done.orgSlug == r.orgSlug && done.orgName == r.orgName
    ensures SlugOf(done, lower) == SlugOf(r, lower)
  {}

  lemma OnlyOrgsChanged(a: State, b: State)
    requires b == a.(orgs := b.orgs) && UsersOk(a) && IdentitiesOk(a)
    ensures UsersOk(b) && IdentitiesOk(b)
  {}

  lemma GrantIs(st: State, st': State, orgId: string, userId: string)
    requires st' == Grant(st, orgId, userId).(requests := st'.requests)
    ensures Grows(st, st') && (orgId, userId) in st'.members && st'.members[(orgId, userId)] != Member
    ensures OrgsOk(st) ==> OrgsOk(st')
    ensures UsersOk(st) ==> UsersOk(st')
    ensures IdentitiesOk(st) ==> IdentitiesOk(st')
  {}

  lemma FinishIs(st: State, orgSt: State, userSt: State, st': State, id: string, orgId: string, userId: string,
      r: Request, slug: string)
    requires Grows(st, orgSt) && Grows(orgSt, userSt)
    requires st' == Grant(userSt, orgId, userId).(requests := st'.requests)
    requires OrgsOk(orgSt) && UsersOk(userSt) && IdentitiesOk(userSt)
    requires userSt == orgSt.(users := userSt.users, identities := userSt.identities)
    requires IsOrgBySlug(orgSt, slug, orgId) && userId in userSt.users
    requires r.userId == Some(userId) && r.orgId == Some(orgId) && r.reviewedBy.Some?
    requires OwnsKey(userSt, r.provider, r.fingerprint, userId)
    ensures Provisioned(st', r) && Grows(st, st') && OrgsOk(st') && UsersOk(st') && IdentitiesOk(st')
    ensures IsOrgBySlug(st', slug, orgId) && st'.orgs[orgId] == orgSt.orgs[orgId]
  {
    hide UsersOk, IdentitiesOk, OwnsKey, Grows, OrgsOk;
    assert OrgsOk(userSt) by { SameOrgs(orgSt, userSt); }
    GrantIs(userSt, st', orgId, userId);
    KeyStays(userSt, st', r.provider, r.fingerprint, userId);
    GrowsFurther(st, orgSt, userSt);
    GrowsFurther(st, userSt, st');
  }

  lemma SameOrgs(a: State, b: State)
    requires a.orgs == b.orgs && OrgsOk(a)
    ensures OrgsOk(b)
  {}

  lemma FailedApprovalChangesNothing(st: State, id: string, admin: Option<string>, notes: Option<string>,
      ids: NewIds, lower: Lower)
    ensures Approve(st, id, admin, notes, ids, lower).0.Err? ==> Approve(st, id, admin, notes, ids, lower).1 == st
  {}

  /** A failed approval changes nothing; a successful one, repeated in any way, changes nothing more
      and gives the same answer. */
  lemma ApprovalIsAtomicAndIdempotent(st: State, id: string, admin: Option<string>, notes: Option<string>, ids: NewIds,
                                      admin': Option<string>, notes': Option<string>, ids': NewIds, lower: Lower)
    requires admin'.Some? && admin'.value != ""
    ensures var (result, st') := Approve(st, id, admin, notes, ids, lower);
            match result
            case Err(_) => st' == st
            case Ok(r) => Approve(st', id, admin', notes', ids', lower) == (Ok(r), st')
  {
    hide EnsureOrg, EnsureUser, ReviewNotes, SlugOf;
  }

  lemma ApproveKeepsInv(st: State, id: string, admin: Option<string>, notes: Option<string>, ids: NewIds, lower: Lower)
    requires Inv(st)
    ensures var st' := Approve(st, id, admin, notes, ids, lower).1;
            && Inv(st') && Grows(st, st')
            && ReviewedStay(st, st')
  {
    hide EnsureOrg, EnsureUser, ReviewNotes, SlugOf, OrgsOk, UsersOk, IdentitiesOk, Provisioned, SlugAccepted, Grows;
    var (result, st') := Approve(st, id, admin, notes, ids, lower);
    NothingGrows(st);
    if result.Ok? && st.requests[id].status == Pending {
      ApprovalProvisions(st, id, admin, notes, ids, lower);
      forall a | a in st'.requests && st'.requests[a].status == Approved ensures Provisioned(st', st'.requests[a]) {
        if a != id { ProvisionedStays(st, st', st.requests[a]); }
      }
    }
  }

  lemma NothingGrows(st: State)
    ensures Grows(st, st)
  {}

  lemma SubmitKeepsInv(st: State, id: string, b: Body, ssh: string -> Tried<string>, lower: Lower)
    requires Inv(st)
    ensures var st' := Submit(st, id, b, ssh, lower).1;
            && Inv(st') && Grows(st, st')
            && ReviewedStay(st, st')
  {
    hide ValidSlug, Fingerprint;
    var st' := Submit(st, id, b, ssh, lower).1;
    if st' != st {
      var f := Fingerprint(b, ssh, lower).value;
      assert forall x :: !IsPendingFor(st, f, x);
      SameTables(st, st');
      RequestsAfter(st, st', id);
    }
  }

  /** Changing one request that is not approved afterwards keeps the requests in order. */
  lemma RequestsAfter(st: State, st': State, id: string)
    requires RequestsOk(st) && id in st'.requests && st' == st.(requests := st.requests[id := st'.requests[id]])
    requires SlugAccepted(st'.requests[id].orgSlug) && st'.requests[id].status != Approved
    requires st'.requests[id].status == Pending ==> forall x :: !IsPendingFor(st, st'.requests[id].fingerprint, x)
    ensures RequestsOk(st')
  {
    hide SlugAccepted;
    forall a, b | a in st'.requests && b in st'.requests && a != b
                  && st'.requests[a].status == Pending && st'.requests[b].status == Pending
      ensures st'.requests[a].fingerprint != st'.requests[b].fingerprint
    {
      if a == id { assert !IsPendingFor(st, st'.requests[id].fingerprint, b); }
      if b == id { assert !IsPendingFor(st, st'.requests[id].fingerprint, a); }
    }
    forall a | a in st'.requests && st'.requests[a].status == Approved ensures Provisioned(st', st'.requests[a]) {
      assert Provisioned(st, st.requests[a]);
      ProvisionedStays(st, st', st.requests[a]);
    }
  }

  lemma SameTables(st: State, st': State)
    requires st' == st.(requests := st'.requests)
    ensures OrgsOk(st) ==> OrgsOk(st')
    ensures UsersOk(st) ==> UsersOk(st')
    ensures IdentitiesOk(st) ==> IdentitiesOk(st')
    ensures Grows(st, st')
  {}

  lemma RejectKeepsInv(st: State, id: string, admin: string, notes: Option<string>)
    requires Inv(st)
    ensures var st' := Reject(st, id, admin, notes);
            && Inv(st') && Grows(st, st')
            && ReviewedStay(st, st')
  {
    hide SlugAccepted, OrgsOk, UsersOk, IdentitiesOk;
    var st' := Reject(st, id, admin, notes);
    SameTables(st, st');
    if st' != st { RequestsAfter(st, st', id); }
  }

  // ---------------------------------------------------------------- all runs

  lemma StepKeepsInv(st: State, e: Event, ssh: string -> Tried<string>, lower: Lower)
    requires Inv(st)
    ensures var st' := React(st, e, ssh, lower);
            && Inv(st') && Grows(st, st')
            && ReviewedStay(st, st')
  {
    hide Inv, Grows, Submit, Approve, Reject;
    match e {
      case SubmitEvent(id, body) => SubmitKeepsInv(st, id, body, ssh, lower);
      case ApproveEvent(id, admin, notes, ids) => ApproveKeepsInv(st, id, admin, notes, ids, lower);
      case RejectEvent(id, reviewer, notes) => RejectKeepsInv(st, id, reviewer, notes);
    }
  }

  /** Over every run: slugs, names, addresses and keys stay unique, every slug stays valid, every approved request
      keeps a user with admin or owner in its organisation, no role is ever lowered, and a reviewed
      request never changes again. */
  lemma {:induction false} RunsKeepInv(st: State, events: seq<Event>, ssh: string -> Tried<string>, lower: Lower)
    requires Inv(st)
    ensures var st' := Play(st, events, ssh, lower);
            && Inv(st') && Grows(st, st')
            && ReviewedStay(st, st')
    decreases |events|
  {
    hide Inv, Grows, React;
    NothingGrows(st);
    if events != [] {
      var next := React(st, events[0], ssh, lower);
      StepKeepsInv(st, events[0], ssh, lower);
      RunsKeepInv(next, events[1..], ssh, lower);
      GrowsFurther(st, next, Play(next, events[1..], ssh, lower));
    }
  }

  lemma GrowsFurther(a: State, b: State, c: State)
    requires Grows(a, b) && Grows(b, c)
    ensures Grows(a, c)
  {}

  lemma NoOwnerIsDemoted(st: State, events: seq<Event>, ssh: string -> Tried<string>, lower: Lower, orgId: string,
      userId: string)
    requires Inv(st) && (orgId, userId) in st.members && st.members[(orgId, userId)] == Owner
    ensures var st' := Play(st, events, ssh, lower);
            (orgId, userId) in st'.members && st'.members[(orgId, userId)] == Owner
  {
    hide Inv, Play;
    RunsKeepInv(st, events, ssh, lower);
  }

  /** No run makes an owner: whoever is owner at the end was owner at the start. */
  lemma {:induction false} NoOwnerIsMade(st: State, events: seq<Event>, ssh: string -> Tried<string>,
      lower: Lower, member: (string, string))
    requires Inv(st)
    ensures var st' := Play(st, events, ssh, lower);
            member in st'.members && st'.members[member] == Owner ==>
              member in st.members && st.members[member] == Owner
    decreases |events|
  {
    hide Inv, React;
    if events != [] {
      StepKeepsInv(st, events[0], ssh, lower);
      StepMakesNoOwner(st, events[0], ssh, lower, member);
      NoOwnerIsMade(React(st, events[0], ssh, lower), events[1..], ssh, lower, member);
    }
  }

  lemma StepMakesNoOwner(st: State, e: Event, ssh: string -> Tried<string>, lower: Lower, member: (string, string))
    requires Inv(st)
    ensures var st' := React(st, e, ssh, lower);
            member in st'.members && st'.members[member] == Owner ==>
              member in st.members && st.members[member] == Owner
  {
    hide Inv, Approve, Submit;
    match e {
      case SubmitEvent(id, body) => SubmissionTouchesRequests(st, id, body, ssh, lower);
      case ApproveEvent(id, admin, notes, ids) =>
        ApprovalOfOthers(st, id, admin, notes, ids, lower);
        if id in st.requests && st.requests[id].status == Pending && Approve(st, id, admin, notes, ids, lower).0.Ok? {
          RoleAfterApproval(st, id, admin, notes, ids, lower);
        }
      case RejectEvent(id, reviewer, notes) =>
    }
  }

  lemma SubmissionTouchesRequests(st: State, id: string, b: Body, ssh: string -> Tried<string>, lower: Lower)
    ensures var st' := Submit(st, id, b, ssh, lower).1; st' == st.(requests := st'.requests)
  {
    hide ValidSlug, Fingerprint;
  }

  /** Only the approval of a pending request changes anything. */
  lemma ApprovalOfOthers(st: State, id: string, admin: Option<string>, notes: Option<string>, ids: NewIds,
      lower: Lower)
    ensures var (result, st') := Approve(st, id, admin, notes, ids, lower);
            result.Err? || id !in st.requests || st.requests[id].status != Pending ==> st' == st
  {
    hide EnsureOrg, EnsureUser, SlugOf, ReviewNotes;
  }

  // ---------------------------------------------------------------- what is recorded and answered

  /** The key a request is known by: the lower-cased key for nostr, the fingerprint of the SSH key otherwise. */
  predicate IsFingerprint(f: string, b: Body, ssh: string -> Tried<string>, lower: Lower) {
    if b.provider == "nostr" then f == lower(b.publicKey) else ssh(b.publicKey) == Ok(f)
  }

  predicate IsComplete(b: Body) {
    b.publicKey != "" && b.orgName != "" && b.provider in {"github_ssh", "nostr"}
  }

  /** What a submission answers and records, case by case. */
  lemma SubmissionIs(st: State, id: string, b: Body, ssh: string -> Tried<string>, lower: Lower, f: string)
    requires Inv(st) && IsFingerprint(f, b, ssh, lower)
    ensures var (result, st') := Submit(st, id, b, ssh, lower);
            if !IsComplete(b) then result == Err(BadRequest) && st' == st
            else if exists x :: IsPendingFor(st, f, x) then
              st' == st && exists x :: IsPendingFor(st, f, x) && result == Ok(st.requests[x])
            else if !SlugAccepted(b.orgSlug) then result == Err(BadRequest) && st' == st
            else if id in st.requests then result == Err(ConstraintViolation) && st' == st
            else
              && result.Ok? && st' == st.(requests := st.requests[id := result.value])
              && IsNewRequest(result.value, b, f)
  {
    hide ValidSlug, Inv;
    assert Fingerprint(b, ssh, lower) == Ok(f);
  }

  predicate IsNewRequest(r: Request, b: Body, fingerprint: string) {
    && r.status == Pending && r.fingerprint == fingerprint
    && r.provider == b.provider && r.publicKey == b.publicKey && r.email == b.email
    && r.orgName == b.orgName && r.orgSlug == b.orgSlug
    && r.reviewedBy == r.notes == r.userId == r.orgId == None
  }

  /** A key without a fingerprint is refused with the error of its parser, once the body is complete. */
  lemma UnreadableKeysAreRefused(st: State, id: string, b: Body, ssh: string -> Tried<string>, lower: Lower)
    requires b.provider != "nostr" && ssh(b.publicKey).Err?
    ensures Submit(st, id, b, ssh, lower) == (Err(if IsComplete(b) then ssh(b.publicKey).error else BadRequest), st)
  {}

  /** A rejection records reviewer and notes and leaves the rest of the request as it was. */
  lemma RejectionIs(st: State, id: string, admin: string, notes: Option<string>)
    ensures var st' := Reject(st, id, admin, notes);
            if id in st.requests && st.requests[id].status == Pending && admin in st.users then
              && id in st'.requests && st' == st.(requests := st.requests[id := st'.requests[id]])
              && var (r, done) := (st.requests[id], st'.requests[id]);
                 && done.status == Rejected && done.reviewedBy == Some(admin) && done.notes == notes
                 && done.(status := Pending, reviewedBy := r.reviewedBy, notes := r.notes) == r
            else st' == st
  {}

  /** Why an approval fails: nobody asks, nothing is there, it is rejected already, the slug is taken by
      another name, or a constraint of the tables. */
  lemma ApprovalProblems(st: State, id: string, admin: Option<string>, notes: Option<string>, ids: NewIds,
      lower: Lower)
    requires Inv(st) && Approve(st, id, admin, notes, ids, lower).0.Err?
    ensures var problem := Approve(st, id, admin, notes, ids, lower).0.error;
            if admin.None? || admin.value == "" then problem == Unauthorized
            else if id !in st.requests then problem == NotFound
            else if st.requests[id].status == Rejected then problem == Conflict
            else
              var r := st.requests[id];
              problem == if exists o :: IsOrgBySlug(st, SlugOf(r, lower), o)
                                        && lower(st.orgs[o].name) != lower(r.orgName)
                         then Conflict else ConstraintViolation
  {
    hide ValidSlug, SlugOf, ReviewNotes, UsersOk, RequestsOk, NewEmail;
    if admin.Some? && admin.value != "" && id in st.requests && st.requests[id].status == Pending {
      var r := st.requests[id];
      if o :| IsOrgBySlug(st, SlugOf(r, lower), o) { OrgIsUnique(st, SlugOf(r, lower), o); }
    }
  }

  // ---------------------------------------------------------------- when an approval succeeds

  /** A live organisation has the slug and agrees in name up to case; or the slug is not empty, the new id
      is fresh, and no organisation, deleted ones included, has the slug or the name. */
  ghost predicate OrgReady(st: State, r: Request, newId: string, lower: Lower) {
    var slug := SlugOf(r, lower);
    || (exists o :: IsOrgBySlug(st, slug, o) && lower(st.orgs[o].name) == lower(r.orgName))
    || (r.orgSlug != Some("") && newId !in st.orgs
        && forall o :: o in st.orgs ==> st.orgs[o].slug != slug && st.orgs[o].name != r.orgName)
  }

  predicate KeyKnown(st: State, r: Request) {
    exists i :: i in st.identities && IsIdentityOf(st, r.provider, r.fingerprint, i)
  }

  function AddressOf(r: Request, slug: string): string {
    match r.email case Some(e) => e case None => slug + "@eve.local"
  }

  /** Somebody owns the key; or the new ids are fresh and nobody has the address. */
  predicate UserReady(st: State, r: Request, ids: NewIds, lower: Lower) {
    || KeyKnown(st, r)
    || (ids.user !in st.users && ids.identity !in st.identities
        && forall u :: u in st.users ==> st.users[u].email != AddressOf(r, SlugOf(r, lower)))
  }

  /** The reviewer has a row; the one inserted for a new key would do as well. */
  predicate ReviewerReady(st: State, r: Request, admin: string, ids: NewIds) {
    admin in st.users || (!KeyKnown(st, r) && admin == ids.user)
  }

  ghost predicate CanApprove(st: State, r: Request, admin: string, ids: NewIds, lower: Lower) {
    OrgReady(st, r, ids.org, lower) && UserReady(st, r, ids, lower) && ReviewerReady(st, r, admin, ids)
  }

  lemma SubmittedSlugIsValid(r: Request, lower: Lower)
    requires SlugAccepted(r.orgSlug)
    ensures ValidSlug(SlugOf(r, lower)) <==> r.orgSlug != Some("")
  {
    DerivedSlugsAreValid(r.orgName, lower);
  }

  lemma OrgSucceeds(st: State, r: Request, newId: string, lower: Lower)
    requires Inv(st) && SlugAccepted(r.orgSlug)
    ensures EnsureOrg(st, r, newId, lower).Ok? <==> OrgReady(st, r, newId, lower)
  {
    hide ValidSlug, SlugOf, UsersOk, IdentitiesOk, RequestsOk, SlugAccepted;
    SubmittedSlugIsValid(r, lower);
    if o :| IsOrgBySlug(st, SlugOf(r, lower), o) {
      OrgIsUnique(st, SlugOf(r, lower), o);
    }
  }

  lemma UserSucceeds(st: State, r: Request, ids: NewIds, admin: string, lower: Lower)
    requires IdentitiesOk(st)
    ensures var user := EnsureUser(st, r, SlugOf(r, lower), ids, lower);
            && (user.Ok? <==> UserReady(st, r, ids, lower))
            && (user.Ok? ==> (admin in user.value.st.users <==> ReviewerReady(st, r, admin, ids)))
  {
    hide SlugOf, EmailTaken;
    if i :| IsIdentityOf(st, r.provider, r.fingerprint, i) {
      IdentityIsUnique(st, r.provider, r.fingerprint, i);
    }
  }

  /** When an approval succeeds, as a condition on the tables before it. */
  lemma ApprovalSucceedsExactly(st: State, id: string, admin: Option<string>, notes: Option<string>, ids: NewIds,
      lower: Lower)
    requires Inv(st)
    ensures Approve(st, id, admin, notes, ids, lower).0.Ok? <==>
            && admin.Some? && admin.value != "" && id in st.requests
            && match st.requests[id].status
               case Approved => true
               case Rejected => false
               case Pending => CanApprove(st, st.requests[id], admin.value, ids, lower)
  {
    hide EnsureOrg, EnsureUser, SlugOf, OrgReady, UserReady, ReviewerReady, ReviewNotes, Grant;
    if admin.Some? && admin.value != "" && id in st.requests && st.requests[id].status == Pending {
      var r := st.requests[id];
      assert SlugAccepted(r.orgSlug);
      OrgSucceeds(st, r, ids.org, lower);
      if OrgReady(st, r, ids.org, lower) {
        EnsureOrgIs(st, r, ids.org, lower);
        var orgSt := EnsureOrg(st, r, ids.org, lower).value.st;
        OnlyOrgsChanged(st, orgSt);
        UserSucceeds(orgSt, r, ids, admin.value, lower);
        UsersDecide(st, orgSt, r, ids, admin.value, lower);
      }
    }
  }

  lemma UsersDecide(st: State, st': State, r: Request, ids: NewIds, admin: string, lower: Lower)
    requires st' == st.(orgs := st'.orgs)
    ensures UserReady(st', r, ids, lower) == UserReady(st, r, ids, lower)
    ensures ReviewerReady(st', r, admin, ids) == ReviewerReady(st, r, admin, ids)
  {
    hide SlugOf;
    assert forall i :: IsIdentityOf(st', r.provider, r.fingerprint, i)
                       == IsIdentityOf(st, r.provider, r.fingerprint, i);
  }

  // ---------------------------------------------------------------- requests that are never approved

  /** The slug is empty, or belongs to an organisation that is deleted or has another name. */
  ghost predicate SlugBlocked(st: State, r: Request, lower: Lower) {
    r.orgSlug == Some("") || exists o :: BlocksSlug(st, r, o, lower)
  }

  predicate BlocksSlug(st: State, r: Request, o: string, lower: Lower) {
    && o in st.orgs && st.orgs[o].slug == SlugOf(r, lower)
    && (st.orgs[o].deleted || lower(st.orgs[o].name) != lower(r.orgName))
  }

  lemma BlockedIsNotReady(st: State, r: Request, newId: string, lower: Lower)
    requires Inv(st) && SlugBlocked(st, r, lower)
    ensures !OrgReady(st, r, newId, lower)
  {
    hide UsersOk, IdentitiesOk, RequestsOk;
    if o :| BlocksSlug(st, r, o, lower) {
      hide ValidSlug, SlugOf;
    }
  }

  /** One request stays unapproved with a blocked slug. */
  ghost predicate Stuck(st: State, id: string, lower: Lower) {
    id in st.requests && st.requests[id].status != Approved && SlugBlocked(st, st.requests[id], lower)
  }

  lemma BlockedStays(a: State, b: State, r: Request, r': Request, lower: Lower)
    requires Grows(a, b) && SlugBlocked(a, r, lower) && r'.orgSlug == r.orgSlug && r'.orgName == r.orgName
    ensures SlugBlocked(b, r', lower)
  {
    hide SlugOf;
    SlugOfReviewed(r, r', lower);
    if o :| BlocksSlug(a, r, o, lower) {
      assert BlocksSlug(b, r', o, lower);
    }
  }

  /** A step leaves a request that it cannot approve alone, or rejects it. */
  lemma StepKeepsRequest(st: State, e: Event, ssh: string -> Tried<string>, lower: Lower, id: string)
    requires Inv(st) && Stuck(st, id, lower)
    ensures var st' := React(st, e, ssh, lower);
            && id in st'.requests && st'.requests[id].status != Approved
            && st'.requests[id].orgSlug == st.requests[id].orgSlug
            && st'.requests[id].orgName == st.requests[id].orgName
  {
    hide Inv, SlugBlocked, Approve, Provisioned, Grows, Fingerprint, ValidSlug;
    if e.ApproveEvent? {
      if e.id == id {
        BlockedCannotBeApproved(st, id, e.admin, e.notes, e.ids, lower);
      } else {
        ApprovalTouchesOne(st, e.id, e.admin, e.notes, e.ids, lower);
      }
    }
  }

  lemma ApprovalTouchesOne(st: State, id: string, admin: Option<string>, notes: Option<string>, ids: NewIds,
      lower: Lower)
    requires Inv(st)
    ensures var st' := Approve(st, id, admin, notes, ids, lower).1;
            st'.requests == st.requests || (id in st'.requests && st'.requests == st.requests[id := st'.requests[id]])
  {
    hide Inv, EnsureOrg, EnsureUser, ReviewNotes, SlugOf, Provisioned, Grows;
    if Approve(st, id, admin, notes, ids, lower).0.Ok? && st.requests[id].status == Pending {
      ApprovalProvisions(st, id, admin, notes, ids, lower);
    }
  }

  lemma BlockedCannotBeApproved(st: State, id: string, admin: Option<string>, notes: Option<string>, ids: NewIds,
      lower: Lower)
    requires Inv(st) && Stuck(st, id, lower)
    ensures Approve(st, id, admin, notes, ids, lower).0.Err? && Approve(st, id, admin, notes, ids, lower).1 == st
  {
    hide Inv, Approve, SlugBlocked, OrgReady, UserReady, ReviewerReady;
    ApprovalSucceedsExactly(st, id, admin, notes, ids, lower);
    FailedApprovalChangesNothing(st, id, admin, notes, ids, lower);
    BlockedIsNotReady(st, st.requests[id], ids.org, lower);
  }

  /** A request with the empty slug, or with a slug that a deleted or differently named organisation holds, is
      approved in no run of submissions, approvals and rejections, by no reviewer and with no ids. */
  lemma {:induction false} BlockedSlugIsNeverApproved(st: State, events: seq<Event>, ssh: string -> Tried<string>,
      lower: Lower, id: string)
    requires Inv(st) && Stuck(st, id, lower)
    ensures var st' := Play(st, events, ssh, lower);
            && Stuck(st', id, lower)
            && forall admin, notes, ids :: Approve(st', id, admin, notes, ids, lower).0.Err?
    decreases |events|
  {
    hide Inv, React, Approve, SlugBlocked;
    if events == [] {
      forall admin, notes, ids ensures Approve(st, id, admin, notes, ids, lower).0.Err? {
        BlockedCannotBeApproved(st, id, admin, notes, ids, lower);
      }
    } else {
      var next := React(st, events[0], ssh, lower);
      StepKeepsInv(st, events[0], ssh, lower);
      StepKeepsRequest(st, events[0], ssh, lower, id);
      BlockedStays(st, next, st.requests[id], next.requests[id], lower);
      BlockedSlugIsNeverApproved(next, events[1..], ssh, lower, id);
    }
  }

  /** The slugs that fail the CHECK of the table are exactly the empty ones, which submission lets through;
      a request with one can be approved at no time. */
  lemma EmptySlugCannotBeApproved(st: State, id: string, admin: Option<string>, notes: Option<string>, ids: NewIds,
      lower: Lower)
    requires Inv(st) && id in st.requests && st.requests[id].status == Pending
    ensures ValidSlug(SlugOf(st.requests[id], lower)) <==> st.requests[id].orgSlug != Some("")
    ensures st.requests[id].orgSlug == Some("") ==>
              Approve(st, id, admin, notes, ids, lower).0.Err? && Approve(st, id, admin, notes, ids, lower).1 == st
  {
    var r := st.requests[id];
    assert SlugAccepted(r.orgSlug);
    SubmittedSlugIsValid(r, lower);
    if r.orgSlug == Some("") {
      BlockedCannotBeApproved(st, id, admin, notes, ids, lower);
    }
  }

  /** A valid slug does not help while a deleted organisation holds it. */
  lemma DeletedOrgBlocksSlug(admin: Option<string>, notes: Option<string>, ids: NewIds, lower: Lower)
    ensures var r := Request("nostr", "k", "k", None, "Acme", Some("acme"), Pending, None, None, None, None);
            var st := State(map["r" := r], map["o" := Org("Old", "acme", true)], map["u" := User("a@b")], map[], map[]);
            && Inv(st) && ValidSlug(SlugOf(r, lower)) && Approve(st, "r", admin, notes, ids, lower).0.Err?
  {
    var r := Request("nostr", "k", "k", None, "Acme", Some("acme"), Pending, None, None, None, None);
    var st := State(map["r" := r], map["o" := Org("Old", "acme", true)], map["u" := User("a@b")], map[], map[]);
    assert BlocksSlug(st, r, "o", lower);
    BlockedCannotBeApproved(st, "r", admin, notes, ids, lower);
  }

  lemma EmptySlugIsSubmitted(st: State, id: string, ssh: string -> Tried<string>, lower: Lower)
    requires id !in st.requests && FindPending(st, lower("k")) == None
    ensures var (result, st') := Submit(st, id, Body("nostr", "k", None, "Acme", Some("")), ssh, lower);
            result.Ok? && id in st'.requests && st'.requests[id].orgSlug == Some("")
  {}

  // ---------------------------------------------------------------- the handlers on live tables

  lemma OrgIsUnique(st: State, slug: string, id: string)
    requires OrgsOk(st) && IsOrgBySlug(st, slug, id)
    ensures FindOrg(st, slug) == Some(id)
  {}

  lemma IdentityIsUnique(st: State, provider: string, fingerprint: string, id: string)
    requires IdentitiesOk(st) && IsIdentityOf(st, provider, fingerprint, id)
    ensures FindIdentity(st, provider, fingerprint) == Some(id)
  {}

  lemma PendingIsUnique(st: State, fingerprint: string, id: string)
    requires RequestsOk(st) && IsPendingFor(st, fingerprint, id)
    ensures FindPending(st, fingerprint) == Some(id)
  {}

  class Database {
    var requests: map<string, Request>
    var orgs: map<string, Org>
    var users: map<string, User>
    var identities: map<string, Identity>
    var members: map<(string, string), Role>

    function View(): State
      reads this
    {
      State(requests, orgs, users, identities, members)
    }

    method Restore(st: State)
      modifies this
      ensures View() == st
    {
      requests, orgs, users, identities, members := st.requests, st.orgs, st.users, st.identities, st.members;
    }

    /** The organisation part of the transaction. */
    method ResolveOrg(r: Request, newId: string, lower: Lower) returns (result: Tried<(string, bool)>)
      requires Inv(View())
      modifies this`orgs
      ensures match EnsureOrg(old(View()), r, newId, lower)
              case Err(p) => result == Err(p)
              case Ok(row) => result == Ok((row.id, row.reused)) && View() == row.st
    {
      hide ValidSlug, SlugOf, RequestsOk, UsersOk, IdentitiesOk;
      var slug := SlugOf(r, lower);
      if exists id :: id in orgs && IsOrgBySlug(View(), slug, id) {
        var id :| id in orgs && IsOrgBySlug(View(), slug, id);
        OrgIsUnique(View(), slug, id);
        if lower(orgs[id].name) != lower(r.orgName) { return Err(Conflict); }
        return Ok((id, true));
      }
      if !CanInsertOrg(View(), newId, r.orgName, slug) { return Err(ConstraintViolation); }
      orgs := orgs[newId := Org(r.orgName, slug, false)];
      return Ok((newId, false));
    }

    /** The user and identity part of the transaction. */
    method ResolveUser(r: Request, slug: string, ids: NewIds, lower: Lower) returns (result: Tried<(string, bool)>)
      requires IdentitiesOk(View())
      modifies this`users, this`identities
      ensures match EnsureUser(old(View()), r, slug, ids, lower)
              case Err(p) => result == Err(p)
              case Ok(row) => result == Ok((row.id, row.reused)) && View() == row.st
    {
      if exists i :: i in identities && IsIdentityOf(View(), r.provider, r.fingerprint, i) {
        var i :| i in identities && IsIdentityOf(View(), r.provider, r.fingerprint, i);
        IdentityIsUnique(View(), r.provider, r.fingerprint, i);
        var userId := identities[i].userId;
        if userId !in users { return Err(Conflict); }
        if r.email.Some? && r.email.value != "" && lower(users[userId].email) != lower(r.email.value) {
          if !EmailTaken(View(), r.email.value, lower) {
            users := users[userId := User(r.email.value)];
          }
        }
        return Ok((userId, true));
      }
      var email := match r.email case Some(e) => e case None => slug + "@eve.local";
      if !CanInsertUser(View(), ids.user, email) { return Err(ConstraintViolation); }
      users := users[ids.user := User(email)];
      if ids.identity in identities { return Err(ConstraintViolation); }
      identities := identities[ids.identity := Identity(ids.user, r.provider, r.fingerprint)];
      return Ok((ids.user, false));
    }

    /** The body of `db.begin`: it changes one table after the other and may stop halfway. */
    method ApprovalBody(id: string, admin: string, notes: Option<string>, ids: NewIds, lower: Lower)
      returns (result: Tried<Request>)
      requires Inv(View()) && admin != ""
      modifies this
      ensures result == Approve(old(View()), id, Some(admin), notes, ids, lower).0
      ensures result.Ok? ==> View() == Approve(old(View()), id, Some(admin), notes, ids, lower).1
    {
      hide SlugOf, ReviewNotes, EnsureOrg, EnsureUser, OrgsOk, UsersOk, IdentitiesOk, RequestsOk;
      if id !in requests { return Err(NotFound); }
      var r := requests[id];
      if r.status == Approved { return Ok(r); }
      if r.status != Pending { return Err(Conflict); }
      ghost var start := View();
      var org := ResolveOrg(r, ids.org, lower);
      if org.Err? { return Err(org.error); }
      EnsureOrgIs(start, r, ids.org, lower);
      OnlyOrgsChanged(start, View());
      var user := ResolveUser(r, SlugOf(r, lower), ids, lower);
      if user.Err? { return Err(user.error); }
      var orgId, userId := org.value.0, user.value.0;
      var role := if (orgId, userId) in members && members[(orgId, userId)] == Owner then Owner else Admin;
      members := members[(orgId, userId) := role];
      if admin !in users { return Err(ConstraintViolation); }
      var done := Review(r, admin, userId, orgId, ReviewNotes(notes, org.value.1, user.value.1));
      requests := requests[id := done];
      return Ok(done);
    }

    /** `approveRequest`: the transaction is rolled back when its body fails. */
    method ApproveRequest(id: string, admin: Option<string>, notes: Option<string>, ids: NewIds, lower: Lower)
      returns (result: Tried<Request>)
      requires Inv(View())
      modifies this
      ensures (result, View()) == Approve(old(View()), id, admin, notes, ids, lower)
      ensures Inv(View()) && (result.Err? ==> View() == old(View()))
    {
      ApproveKeepsInv(View(), id, admin, notes, ids, lower);
      FailedApprovalChangesNothing(View(), id, admin, notes, ids, lower);
      hide Approve, Inv;
      if admin.None? || admin.value == "" {
        NobodyApproves(View(), id, admin, notes, ids, lower);
        return Err(Unauthorized);
      }
      var before := View();
      result := ApprovalBody(id, admin.value, notes, ids, lower);
      if result.Err? { Restore(before); }
    }

    /** `submitRequest`. */
    method SubmitRequest(id: string, b: Body, ssh: string -> Tried<string>, lower: Lower)
      returns (result: Tried<Request>)
      requires Inv(View())
      modifies this`requests
      ensures (result, View()) == Submit(old(View()), id, b, ssh, lower) && Inv(View())
    {
      SubmitKeepsInv(View(), id, b, ssh, lower);
      hide OrgsOk, UsersOk, IdentitiesOk, ValidSlug, RequestsOk;
      if b.provider == "" || b.publicKey == "" || b.orgName == "" { return Err(BadRequest); }
      if b.provider != "github_ssh" && b.provider != "nostr" { return Err(BadRequest); }
      var fingerprint := if b.provider == "nostr" then Ok(lower(b.publicKey)) else ssh(b.publicKey);
      if fingerprint.Err? { return Err(fingerprint.error); }
      if exists x :: x in requests && IsPendingFor(View(), fingerprint.value, x) {
        var x :| x in requests && IsPendingFor(View(), fingerprint.value, x);
        PendingIsUnique(View(), fingerprint.value, x);
        return Ok(requests[x]);
      }
      if b.orgSlug.Some? && b.orgSlug.value != "" && !ValidSlug(b.orgSlug.value) { return Err(BadRequest); }
      if id in requests { return Err(ConstraintViolation); }
      var r := NewRequest(b, fingerprint.value);
      requests := requests[id := r];
      return Ok(r);
    }

    /** `UPDATE … WHERE id = … AND status = 'pending' RETURNING *`. */
    method UpdateRejected(id: string, admin: string, notes: Option<string>)
      returns (result: Tried<Option<Request>>)
      modifies this`requests
      ensures View() == Reject(old(View()), id, admin, notes)
      ensures if id !in old(requests) || old(requests)[id].status != Pending then result == Ok(None)
              else if admin !in users then result == Err(ConstraintViolation)
              else id in requests && result == Ok(Some(requests[id]))
    {
      if id !in requests || requests[id].status != Pending { return Ok(None); }
      if admin !in users { return Err(ConstraintViolation); }
      requests := requests[id := requests[id].(status := Rejected, reviewedBy := Some(admin), notes := notes)];
      return Ok(Some(requests[id]));
    }

    /** `rejectRequest`: between its look and its update other calls may take the tables to `later`. */
    method RejectRequest(id: string, admin: Option<string>, notes: Option<string>, later: State)
      returns (result: Tried<Request>)
      requires Inv(View()) && Inv(later)
      modifies this
      ensures Inv(View())
      ensures var seen := old(View());
              if admin.None? || admin.value == "" then result == Err(Unauthorized) && View() == seen
              else if id !in seen.requests then result == Err(NotFound) && View() == seen
              else if seen.requests[id].status != Pending then result == Err(Conflict) && View() == seen
              else
                && View() == Reject(later, id, admin.value, notes)
                && if id !in later.requests || later.requests[id].status != Pending then result == Err(ServerError)
                   else if admin.value !in later.users then result == Err(ConstraintViolation)
                   else id in requests && requests[id].status == Rejected && result == Ok(requests[id])
    {
      if admin.Some? { RejectKeepsInv(later, id, admin.value, notes); }
      hide Inv;
      if admin.None? || admin.value == "" { return Err(Unauthorized); }
      if id !in requests { return Err(NotFound); }
      if requests[id].status != Pending { return Err(Conflict); }
      Restore(later);
      var updated := UpdateRejected(id, admin.value, notes);
      match updated
      case Err(p) => return Err(p);
      case Ok(None) => return Err(ServerError);
      case Ok(Some(r)) => return Ok(r);
    }
  }

  lemma NobodyApproves(st: State, id: string, admin: Option<string>, notes: Option<string>, ids: NewIds, lower: Lower)
    requires admin.None? || admin.value == ""
    ensures Approve(st, id, admin, notes, ids, lower) == (Err(Unauthorized), st)
  {}
}
