/** Agent placement (`apps/agent-runtime/src/runtime/runtime.service.ts`): pods share a heartbeat table
    and a placement table, and every call accepts, stays, takes over or redirects. One
    `resolvePlacement` call is one atomic step. */
module Placement {
  import opened Text
  import opened StableSort

  // ---------------------------------------------------------------- sorting pod names

  /** The default order of `Array.prototype.sort` on strings. */
  predicate StringLeq(a: string, b: string) {
    a == "" || (b != "" && if a[0] == b[0] then StringLeq(a[1..], b[1..]) else a[0] < b[0])
  }

  lemma {:induction false} StringLeqIsAntisymmetric(a: string, b: string)
    ensures StringLeq(a, b) || StringLeq(b, a)
    ensures StringLeq(a, b) && StringLeq(b, a) ==> a == b
  {
    if a != "" && b != "" && a[0] == b[0] {
      StringLeqIsAntisymmetric(a[1..], b[1..]);
      assert a == [a[0]] + a[1..] && b == [b[0]] + b[1..];
    }
  }

  lemma {:induction false} StringLeqIsTransitive(a: string, b: string, c: string)
    requires StringLeq(a, b) && StringLeq(b, c)
    ensures StringLeq(a, c)
  {
    if a != "" && a[0] == b[0] && b[0] == c[0] {
      StringLeqIsTransitive(a[1..], b[1..], c[1..]);
    }
  }

  lemma StringLeqIsTotal()
    ensures TotalPreorder(StringLeq)
  {
    forall a, b ensures StringLeq(a, b) || StringLeq(b, a) { StringLeqIsAntisymmetric(a, b); }
    forall a, b, c | StringLeq(a, b) && StringLeq(b, c) ensures StringLeq(a, c) { StringLeqIsTransitive(a, b, c); }
  }

  /** The texts agree before `i`, and there `a` has the smaller character. */
  predicate SmallerAt(a: string, b: string, i: nat) {
    i < |a| && i < |b| && (forall j :: 0 <= j < i ==> a[j] == b[j]) && a[i] < b[i]
  }

  /** The order is lexicographic: a prefix comes first, otherwise the first difference decides. */
  lemma {:induction false} StringLeqIs(a: string, b: string)
    ensures StringLeq(a, b) <==> a <= b || exists i: nat :: SmallerAt(a, b, i)
  {
    if a != "" && b != "" {
      if a[0] == b[0] {
        StringLeqIs(a[1..], b[1..]);
        assert a == [a[0]] + a[1..] && b == [b[0]] + b[1..];
        if i: nat :| SmallerAt(a[1..], b[1..], i) { assert SmallerAt(a, b, i + 1); }
        if i: nat :| SmallerAt(a, b, i) { assert SmallerAt(a[1..], b[1..], i - 1); }
      } else if a[0] < b[0] {
        assert SmallerAt(a, b, 0);
      }
    }
  }

  /** `selectShardPod`: the hash of the agent picks from the sorted names. */
  function SelectShardPod(pods: seq<string>, agent: string, hash: string -> nat): (target: string)
    requires pods != []
    ensures target in pods
  {
    var sorted := Sort(pods, StringLeq);
    SortIsPermutation(pods, StringLeq);
    SameElements(sorted, pods);
    sorted[hash(agent) % |sorted|]
  }

  lemma {:induction false} ClassIsCopies(s: seq<string>, p: string)
    ensures |Class(s, p, StringLeq)| == multiset(s)[p]
    ensures forall i :: 0 <= i < |Class(s, p, StringLeq)| ==> Class(s, p, StringLeq)[i] == p
  {
    hide StringLeq, Class;
    ClassStep(s, p, StringLeq);
    if s != [] {
      var n := |s| - 1;
      ClassIsCopies(s[..n], p);
      StringLeqIsAntisymmetric(s[n], p);
      assert StringLeq(s[n], p) && StringLeq(p, s[n]) <==> s[n] == p;
      CountOfLast(s, p);
    }
  }

  lemma CountOfLast(s: seq<string>, p: string)
    requires s != []
    ensures multiset(s)[p] == multiset(s[..|s| - 1])[p] + if s[|s| - 1] == p then 1 else 0
  {
    var n := |s| - 1;
    assert s == s[..n] + [s[n]];
  }

  /** The choice depends on which pods are listed, not on the order the database lists them in. */
  lemma SelectionIgnoresOrder(pods: seq<string>, others: seq<string>, agent: string, hash: string -> nat)
    requires pods != [] && multiset(pods) == multiset(others)
    ensures others != [] && SelectShardPod(pods, agent, hash) == SelectShardPod(others, agent, hash)
  {
    hide StringLeq, Sort, TotalPreorder;
    var s, t := Sort(pods, StringLeq), Sort(others, StringLeq);
    SameElements(pods, others);
    StringLeqIsTotal();
    SortIsSorted(pods, StringLeq);
    SortIsSorted(others, StringLeq);
    SortIsPermutation(pods, StringLeq);
    SortIsPermutation(others, StringLeq);
    forall p ensures Class(s, p, StringLeq) == Class(t, p, StringLeq) {
      ClassIsCopies(s, p);
      ClassIsCopies(t, p);
    }
    StableSortIsUnique(s, t, StringLeq);
  }

  // ---------------------------------------------------------------- the tables and one call

  datatype PodRow = PodRow(status: string, capacity: int, heartbeat: int)
  datatype PlacementRow = PlacementRow(pod: string, shardKey: Option<string>)

  type PodTable = map<(string, string), PodRow>
  datatype State = State(pods: PodTable, placements: map<(string, string), PlacementRow>)

  datatype Answer = Accepted | Redirected(target: string)

  /** The pods of the organisation whose last heartbeat is at most `ttl` old at time `now`. */
  function HealthySet(pods: PodTable, org: string, now: int, ttl: int): set<string> {
    set k | k in pods && k.0 == org && now - pods[k].heartbeat <= ttl :: k.1
  }

  /** Some listing of a set without repetition. */
  ghost function Elements(names: set<string>): (s: seq<string>)
    ensures |s| == |names| && multiset(s) == multiset(names)
  {
    if names == {} then []
    else
      var x :| x in names;
      var rest := Elements(names - {x});
      assert multiset(names) == multiset{x} + multiset(names - {x});
      [x] + rest
  }

  /** The shard target of an agent among a set of healthy pods. */
  ghost function Target(healthy: set<string>, agent: string, hash: string -> nat): (target: string)
    requires healthy != {}
    ensures target in healthy
  {
    var s := Elements(healthy);
    var t := SelectShardPod(s, agent, hash);
    assert t in multiset(s);
    t
  }

  /** The healthy pods that come before `x` in name order. */
  function Before(healthy: set<string>, x: string): set<string> {
    set y | y in healthy && y != x && StringLeq(y, x)
  }

  lemma {:induction false} SizeOfDistinct(s: seq<string>, names: set<string>)
    requires multiset(s) == multiset(names)
    ensures |s| == |names|
  {
    assert |multiset(s)| == |s| && |multiset(names)| == |names|;
  }

  lemma ElementsBefore(s: seq<string>, healthy: set<string>, i: nat)
    requires i < |s| && multiset(s) == multiset(healthy) && SortedBy(s, StringLeq)
    ensures multiset(s[..i]) == multiset(Before(healthy, s[i]))
  {
    hide Before;
    forall y ensures multiset(s[..i])[y] == multiset(Before(healthy, s[i]))[y] {
      ElementBefore(s, healthy, i, y);
      assert y in s[..i] <==> multiset(s[..i])[y] > 0;
    }
  }

  lemma ElementBefore(s: seq<string>, healthy: set<string>, i: nat, y: string)
    requires i < |s| && multiset(s) == multiset(healthy) && SortedBy(s, StringLeq)
    ensures multiset(s[..i])[y] <= 1
    ensures y in s[..i] <==> y in Before(healthy, s[i])
  {
    hide StringLeq;
    var x := s[i];
    assert s == s[..i] + [x] + s[i + 1..];
    assert multiset(s) == multiset(s[..i]) + multiset{x} + multiset(s[i + 1..]);
    assert multiset(s)[y] <= 1 && multiset(s)[x] <= 1;
    assert y in s <==> y in healthy by { assert y in s <==> y in multiset(s); }
    StringLeqIsAntisymmetric(y, x);
    if j :| 0 <= j < i && s[j] == y {
      assert StringLeq(s[j], s[i]) && y in multiset(s[..i]);
      assert s[..i][j] == y;
    }
    if j :| i < j < |s| && s[j] == y {
      assert StringLeq(s[i], s[j]) && s[i + 1..][j - i - 1] == y;
      assert y in multiset(s[i + 1..]);
    }
  }

  /** Sharding: the target is the healthy pod with as many healthy pods before it, in name order, as the
      hash of the agent leaves as remainder. */
  lemma TargetRank(healthy: set<string>, agent: string, hash: string -> nat)
    requires healthy != {}
    ensures |Before(healthy, Target(healthy, agent, hash))| == hash(agent) % |healthy|
  {
    hide StringLeq, Sort, TotalPreorder, Before;
    var pods := Elements(healthy);
    assert pods != [];
    var s := Sort(pods, StringLeq);
    SortIsPermutation(pods, StringLeq);
    StringLeqIsTotal();
    SortIsSorted(pods, StringLeq);
    SizeOfDistinct(s, healthy);
    var i := hash(agent) % |s|;
    ElementsBefore(s, healthy, i);
    SizeOfDistinct(s[..i], Before(healthy, s[i]));
  }

  function Place(t: State, org: string, agent: string, pod: string, shardKey: Option<string>): State {
    t.(placements := t.placements[(org, agent) := PlacementRow(pod, shardKey)])
  }

  function Owner(t: State, org: string, agent: string): Option<string> {
    if (org, agent) in t.placements then Some(t.placements[(org, agent)].pod) else None
  }

  /** The part of a call after the pod's own heartbeat, for the healthy set it sees. */
  ghost function Decide(t: State, org: string, agent: string, pod: string, healthy: set<string>,
      hash: string -> nat): (Answer, State) {
    if healthy == {} then (Accepted, Place(t, org, agent, pod, None))
    else
      var target := Target(healthy, agent, hash);
      var owner := Owner(t, org, agent);
      if target == pod then (Accepted, Place(t, org, agent, pod, Some(agent)))
      else if owner == Some(pod) then (Accepted, t)
      else if owner.Some? && owner.value !in healthy then (Accepted, Place(t, org, agent, pod, Some(agent)))
      else (Redirected(target), t)
  }

  /** One `resolvePlacement` call: heartbeat at the time in `row`, healthy pods as of `now`. */
  ghost function Resolve(t: State, org: string, agent: string, pod: string, row: PodRow, now: int, ttl: int,
                         hash: string -> nat): (Answer, State) {
    var pods := t.pods[(org, pod) := row];
    Decide(t.(pods := pods), org, agent, pod, HealthySet(pods, org, now, ttl), hash)
  }

  // ---------------------------------------------------------------- the service

  class Tables {
    var pods: PodTable
    var placements: map<(string, string), PlacementRow>

    function View(): State
      reads this
    {
      State(pods, placements)
    }

    /** The query contract: every pod row of the organisation, once, in some order. */
    method ListByOrg(org: string) returns (rows: seq<(string, PodRow)>)
      ensures IsListing(rows, pods, org)
    {
      rows := [];
      var keys := set k | k in pods && k.0 == org;
      ghost var all := keys;
      while keys != {}
        invariant keys <= all
        invariant forall k :: k in all - keys ==> exists i :: 0 <= i < |rows| && rows[i].0 == k.1
        invariant forall i :: 0 <= i < |rows| ==> (org, rows[i].0) in all - keys && rows[i].1 == pods[(org, rows[i].0)]
        invariant forall i, j :: 0 <= i < j < |rows| ==> rows[i].0 != rows[j].0
      {
        var k :| k in keys;
        assert k == (org, k.1);
        ghost var before := rows;
        rows := rows + [(k.1, pods[k])];
        assert rows[|before|].0 == k.1;
        forall x | x in all - (keys - {k}) ensures exists i :: 0 <= i < |rows| && rows[i].0 == x.1 {
          if x != k {
            var i :| 0 <= i < |before| && before[i].0 == x.1;
            assert rows[i] == before[i];
          }
        }
        keys := keys - {k};
      }
    }
  }

  ghost predicate IsListing(rows: seq<(string, PodRow)>, pods: PodTable, org: string) {
    && (forall i, j :: 0 <= i < j < |rows| ==> rows[i].0 != rows[j].0)
    && (forall i :: 0 <= i < |rows| ==> (org, rows[i].0) in pods && rows[i].1 == pods[(org, rows[i].0)])
    && (forall k :: k in pods && k.0 == org ==> exists i :: 0 <= i < |rows| && rows[i].0 == k.1)
  }

  /** `isPodHealthy`: the first row with the name decides. */
  predicate IsPodHealthy(name: string, rows: seq<(string, PodRow)>, now: int, ttl: int) {
    rows != [] && if rows[0].0 == name then now - rows[0].1.heartbeat <= ttl
                  else IsPodHealthy(name, rows[1..], now, ttl)
  }

  /** `filterHealthyPods(rows).map((pod) => pod.pod_name)` for the first `n` rows. */
  function HealthyNames(rows: seq<(string, PodRow)>, n: nat, now: int, ttl: int): seq<string>
    requires n <= |rows|
  {
    if n == 0 then []
    else HealthyNames(rows, n - 1, now, ttl) +
         if IsPodHealthy(rows[n - 1].0, rows, now, ttl) then [rows[n - 1].0] else []
  }

  lemma {:induction false} IsPodHealthyAt(rows: seq<(string, PodRow)>, i: nat, now: int, ttl: int)
    requires i < |rows| && forall j :: 0 <= j < i ==> rows[j].0 != rows[i].0
    ensures IsPodHealthy(rows[i].0, rows, now, ttl) <==> now - rows[i].1.heartbeat <= ttl
  {
    if i > 0 {
      assert rows[0].0 != rows[i].0;
      IsPodHealthyAt(rows[1..], i - 1, now, ttl);
    }
  }

  lemma {:induction false} IsPodHealthyAbsent(rows: seq<(string, PodRow)>, name: string, now: int, ttl: int)
    requires forall j :: 0 <= j < |rows| ==> rows[j].0 != name
    ensures !IsPodHealthy(name, rows, now, ttl)
  {
    if rows != [] { IsPodHealthyAbsent(rows[1..], name, now, ttl); }
  }

  lemma HealthIsMembership(rows: seq<(string, PodRow)>, pods: PodTable, org: string, name: string, now: int, ttl: int)
    requires IsListing(rows, pods, org)
    ensures IsPodHealthy(name, rows, now, ttl) <==> name in HealthySet(pods, org, now, ttl)
  {
    if (org, name) in pods {
      var i :| 0 <= i < |rows| && rows[i].0 == (org, name).1;
      IsPodHealthyAt(rows, i, now, ttl);
    } else {
      IsPodHealthyAbsent(rows, name, now, ttl);
    }
  }

  lemma {:induction false} HealthyNamesAre(rows: seq<(string, PodRow)>, n: nat, now: int, ttl: int)
    requires n <= |rows| && forall i, j :: 0 <= i < j < |rows| ==> rows[i].0 != rows[j].0
    ensures forall x :: x in HealthyNames(rows, n, now, ttl) <==>
                        exists i :: 0 <= i < n && rows[i].0 == x && IsPodHealthy(x, rows, now, ttl)
    ensures forall x :: multiset(HealthyNames(rows, n, now, ttl))[x] <= 1
  {
    if n > 0 {
      HealthyNamesAre(rows, n - 1, now, ttl);
      var s, x := HealthyNames(rows, n - 1, now, ttl), rows[n - 1].0;
      assert x !in s;
      assert multiset(s + [x]) == multiset(s) + multiset{x};
      assert multiset(s)[x] == 0;
    }
  }

  /** Filtering a listing gives the healthy set, each name once. */
  lemma HealthyNamesAreTheSet(rows: seq<(string, PodRow)>, pods: PodTable, org: string, now: int, ttl: int)
    requires IsListing(rows, pods, org)
    ensures multiset(HealthyNames(rows, |rows|, now, ttl)) == multiset(HealthySet(pods, org, now, ttl))
  {
    var s, h := HealthyNames(rows, |rows|, now, ttl), HealthySet(pods, org, now, ttl);
    HealthyNamesAre(rows, |rows|, now, ttl);
    forall x ensures multiset(s)[x] == multiset(h)[x] {
      HealthIsMembership(rows, pods, org, x, now, ttl);
      if x in h {
        assert (org, x) in pods;
        var i :| 0 <= i < |rows| && rows[i].0 == (org, x).1;
      }
      assert x in s <==> x in h;
      assert x in s <==> multiset(s)[x] > 0;
    }
  }

  function ResolveOrg(orgId: Option<string>, envOrg: Option<string>): Option<string> {
    if orgId.Some? && Trim(orgId.value) != "" then Some(Trim(orgId.value)) else envOrg
  }

  class RuntimeService {
    const podName: string
    const envOrg: Option<string>
    const db: Tables
    var trackedOrgIds: set<string>

    constructor (podName: string, envOrg: Option<string>, db: Tables)
      ensures this.podName == podName && this.envOrg == envOrg && this.db == db && trackedOrgIds == {}
    {
      this.podName := podName;
      this.envOrg := envOrg;
      this.db := db;
      trackedOrgIds := {};
    }

    method RegisterOrg(orgId: string)
      modifies this`trackedOrgIds
      ensures trackedOrgIds == old(trackedOrgIds) + if Trim(orgId) == "" then {} else {Trim(orgId)}
    {
      if Trim(orgId) != "" { trackedOrgIds := trackedOrgIds + {Trim(orgId)}; }
    }

    /** Without an agent or an organisation nothing is recorded; otherwise the call is one `Resolve`
        step on the shared tables, whatever order the pods are listed in. */
    method ResolvePlacement(agentId: Option<string>, orgId: Option<string>, row: PodRow, now: int, ttl: int,
                            hash: string -> nat) returns (answer: Answer)
      modifies this`trackedOrgIds, db
      ensures var org := if orgId.Some? && Trim(orgId.value) != "" then Some(Trim(orgId.value)) else envOrg;
              if agentId.None? || agentId.value == "" || org.None? || org.value == "" then
                answer == Accepted && db.View() == old(db.View()) && trackedOrgIds == old(trackedOrgIds)
              else
                var before, agent := old(db.View()), agentId.value;
                && (answer, db.View()) == Resolve(before, org.value, agent, podName, row, now, ttl, hash)
                && trackedOrgIds == old(trackedOrgIds) + if Trim(org.value) == "" then {} else {Trim(org.value)}
    {
      hide Trim, SelectShardPod, HealthyNames, HealthySet, IsPodHealthy, Elements, IsListing;
      if agentId.None? || agentId.value == "" { return Accepted; }
      var resolved := ResolveOrg(orgId, envOrg);
      if resolved.None? || resolved.value == "" { return Accepted; }
      var org, agent := resolved.value, agentId.value;
      RegisterOrg(org);
      db.pods := db.pods[(org, podName) := row];
      var pods := db.ListByOrg(org);
      var healthyPods := HealthyNames(pods, |pods|, now, ttl);
      ghost var healthy := HealthySet(db.pods, org, now, ttl);
      HealthyNamesAreTheSet(pods, db.pods, org, now, ttl);
      EmptyTogether(healthyPods, healthy);
      if |healthyPods| == 0 {
        db.placements := db.placements[(org, agent) := PlacementRow(podName, None)];
        return Accepted;
      }
      var targetPod := SelectShardPod(healthyPods, agent, hash);
      SelectionIgnoresOrder(Elements(healthy), healthyPods, agent, hash);
      if targetPod == podName {
        db.placements := db.placements[(org, agent) := PlacementRow(podName, Some(agent))];
        return Accepted;
      }
      if (org, agent) in db.placements {
        var existing := db.placements[(org, agent)];
        if existing.pod == podName { return Accepted; }
        HealthIsMembership(pods, db.pods, org, existing.pod, now, ttl);
        if !IsPodHealthy(existing.pod, pods, now, ttl) {
          db.placements := db.placements[(org, agent) := PlacementRow(podName, Some(agent))];
          return Accepted;
        }
      }
      return Redirected(targetPod);
    }
  }

  lemma EmptyTogether(s: seq<string>, h: set<string>)
    requires multiset(s) == multiset(h)
    ensures s == [] <==> h == {}
    ensures h != {} ==> Elements(h) != []
  {
    if s != [] { assert s[0] in multiset(s); }
    if h != {} { var x :| x in h; assert x in multiset(h); }
  }

  // ---------------------------------------------------------------- single steps

  /** Every accept leaves the placement on the acceptor; every redirect changes no placement and names
      another healthy pod, whose own call is accepted next or at any later time, whatever the tables are
      then, as long as it sees the same pods healthy. */
  lemma AnswersAreHonest(t: State, org: string, agent: string, pod: string, row: PodRow, now: int, ttl: int,
      hash: string -> nat, later: State, row': PodRow, now': int)
    ensures var (answer, t') := Resolve(t, org, agent, pod, row, now, ttl, hash);
            match answer
            case Accepted => Owner(t', org, agent) == Some(pod)
            case Redirected(target) =>
              var healthy := HealthySet(t'.pods, org, now, ttl);
              && t'.placements == t.placements
              && target != pod && target in healthy
              && (HealthySet(later.pods[(org, target) := row'], org, now', ttl) == healthy ==>
                    var (answer', after) := Resolve(later, org, agent, target, row', now', ttl, hash);
                    answer' == Accepted && Owner(after, org, agent) == Some(target))
  {}

  /** A pod is healthy as long as its heartbeat is at most `ttl` old. */
  lemma HealthIs(pods: PodTable, org: string, pod: string, now: int, ttl: int)
    ensures pod in HealthySet(pods, org, now, ttl) <==> (org, pod) in pods && now <= pods[(org, pod)].heartbeat + ttl
  {
    if (org, pod) in pods { assert (org, pod).0 == org && (org, pod).1 == pod; }
  }

  /** When a call accepts: nobody is healthy, the caller is the shard target, it holds the placement
      already, or the holder is not healthy. In every other case it redirects to the target. */
  lemma CallAcceptsExactly(t: State, org: string, agent: string, pod: string, row: PodRow, now: int, ttl: int,
      hash: string -> nat)
    ensures var (answer, t') := Resolve(t, org, agent, pod, row, now, ttl, hash);
            var healthy, key := HealthySet(t'.pods, org, now, ttl), (org, agent);
            && t'.pods == t.pods[(org, pod) := row]
            && (answer == Accepted <==>
                  || healthy == {}
                  || pod == Target(healthy, agent, hash)
                  || (key in t.placements && t.placements[key].pod == pod)
                  || (key in t.placements && t.placements[key].pod !in healthy))
            && (answer.Redirected? ==> healthy != {} && answer.target == Target(healthy, agent, hash))
  {
    hide Target;
  }

  /** What a call writes: a holder that only stays keeps its row, and every other accept writes one, whose
      shard key is the agent unless no pod is healthy. */
  lemma CallWritesExactly(t: State, org: string, agent: string, pod: string, row: PodRow, now: int, ttl: int,
      hash: string -> nat)
    ensures var (answer, t') := Resolve(t, org, agent, pod, row, now, ttl, hash);
            var healthy, key := HealthySet(t'.pods, org, now, ttl), (org, agent);
            var stays := key in t.placements && t.placements[key].pod == pod
                         && healthy != {} && pod != Target(healthy, agent, hash);
            t'.placements == if answer.Redirected? || stays then t.placements
                             else t.placements[key := PlacementRow(pod, if healthy == {} then None else Some(agent))]
  {
    hide Target;
  }

  /** A call touches one placement: that of its own organisation and agent. */
  lemma OtherAgentsAreUntouched(t: State, org: string, agent: string, pod: string, row: PodRow, now: int, ttl: int,
                                hash: string -> nat, org': string, agent': string)
    requires (org, agent) != (org', agent')
    ensures Owner(Resolve(t, org, agent, pod, row, now, ttl, hash).1, org', agent') == Owner(t, org', agent')
  {}

  // ---------------------------------------------------------------- runs

  /** What can happen to the tables: a placement call, or a heartbeat from the API. */
  datatype Event =
    | Call(org: string, agent: string, pod: string, row: PodRow, now: int)
    | Heartbeat(org: string, pod: string, row: PodRow)

  ghost function React(t: State, e: Event, ttl: int, hash: string -> nat): State {
    match e
    case Call(org, agent, pod, row, now) => Resolve(t, org, agent, pod, row, now, ttl, hash).1
    case Heartbeat(org, pod, row) => t.(pods := t.pods[(org, pod) := row])
  }

  ghost predicate AcceptedBy(t: State, e: Event, ttl: int, hash: string -> nat) {
    e.Call? && Resolve(t, e.org, e.agent, e.pod, e.row, e.now, ttl, hash).0 == Accepted
  }

  ghost function Play(t: State, events: seq<Event>, ttl: int, hash: string -> nat): State
    decreases |events|
  {
    if events == [] then t else Play(React(t, events[0], ttl, hash), events[1..], ttl, hash)
  }

  predicate About(e: Event, org: string, agent: string) {
    e.Call? && e.org == org && e.agent == agent
  }

  /** Every call for this agent sees the same healthy pods, the caller among them. Calls for other
      agents and heartbeats are not restricted. */
  ghost predicate Steady(t: State, events: seq<Event>, org: string, agent: string, healthy: set<string>, ttl: int,
      hash: string -> nat)
    decreases |events|
  {
    events == [] ||
    (&& (About(events[0], org, agent) ==>
           events[0].pod in healthy &&
           HealthySet(t.pods[(org, events[0].pod) := events[0].row], org, events[0].now, ttl) == healthy)
     && Steady(React(t, events[0], ttl, hash), events[1..], org, agent, healthy, ttl, hash))
  }

  /** How often the owner of the placement changes during the run. */
  ghost function Moves(t: State, events: seq<Event>, org: string, agent: string, ttl: int, hash: string -> nat): nat
    decreases |events|
  {
    if events == [] then 0
    else
      var t' := React(t, events[0], ttl, hash);
      (if Owner(t', org, agent) == Owner(t, org, agent) then 0 else 1) + Moves(t', events[1..], org, agent, ttl, hash)
  }

  /** Moves an owner can still cause: none once the target owns, one from a healthy owner or from no
      owner, two from an unhealthy one. */
  ghost function Budget(owner: Option<string>, healthy: set<string>, agent: string, hash: string -> nat): nat
    requires healthy != {}
  {
    if owner == Some(Target(healthy, agent, hash)) then 0
    else if owner.Some? && owner.value !in healthy then 2
    else 1
  }

  lemma StepSpendsBudget(t: State, e: Event, org: string, agent: string, healthy: set<string>, ttl: int,
      hash: string -> nat)
    requires healthy != {}
    requires About(e, org, agent) ==>
               e.pod in healthy && HealthySet(t.pods[(org, e.pod) := e.row], org, e.now, ttl) == healthy
    ensures var t' := React(t, e, ttl, hash);
            var o, o' := Owner(t, org, agent), Owner(t', org, agent);
            && (o' != o ==> Budget(o', healthy, agent, hash) < Budget(o, healthy, agent, hash))
            && (o == Some(Target(healthy, agent, hash)) && About(e, org, agent) && AcceptedBy(t, e, ttl, hash) ==>
                  e.pod == Target(healthy, agent, hash))
            && (About(e, org, agent) && e.pod == Target(healthy, agent, hash) ==> o' == Some(e.pod))
  {
    hide Target;
    if !About(e, org, agent) && e.Call? {
      OtherAgentsAreUntouched(t, e.org, e.agent, e.pod, e.row, e.now, ttl, hash, org, agent);
    }
  }

  /** Over any run with a fixed healthy set the owner changes at most twice, and at most once when the
      first owner was healthy or there was none. */
  lemma {:induction false} OwnershipSettles(t: State, events: seq<Event>, org: string, agent: string,
      healthy: set<string>, ttl: int, hash: string -> nat)
    requires healthy != {} && Steady(t, events, org, agent, healthy, ttl, hash)
    ensures Moves(t, events, org, agent, ttl, hash) <= Budget(Owner(t, org, agent), healthy, agent, hash) <= 2
    decreases |events|
  {
    hide React, Budget, Owner;
    if events != [] {
      StepSpendsBudget(t, events[0], org, agent, healthy, ttl, hash);
      OwnershipSettles(React(t, events[0], ttl, hash), events[1..], org, agent, healthy, ttl, hash);
    }
    BudgetIsSmall(Owner(t, org, agent), healthy, agent, hash);
  }

  lemma BudgetIsSmall(owner: Option<string>, healthy: set<string>, agent: string, hash: string -> nat)
    requires healthy != {}
    ensures Budget(owner, healthy, agent, hash) <= 2
  {}

  /** Once the shard target owns the placement, it keeps it, and no other pod accepts again. */
  lemma {:induction false} TargetKeepsThePlacement(t: State, events: seq<Event>, org: string, agent: string,
      healthy: set<string>, ttl: int, hash: string -> nat, k: nat)
    requires healthy != {} && Steady(t, events, org, agent, healthy, ttl, hash)
    requires Owner(t, org, agent) == Some(Target(healthy, agent, hash)) && k <= |events|
    ensures var s := Play(t, events[..k], ttl, hash);
            && Owner(s, org, agent) == Some(Target(healthy, agent, hash))
            && (k < |events| && About(events[k], org, agent) && AcceptedBy(s, events[k], ttl, hash) ==>
                  events[k].pod == Target(healthy, agent, hash))
    decreases k
  {
    hide React, Owner, Target, AcceptedBy;
    if events != [] {
      StepSpendsBudget(t, events[0], org, agent, healthy, ttl, hash);
      TargetHasNoBudget(healthy, agent, hash);
      if k > 0 {
        TargetKeepsThePlacement(React(t, events[0], ttl, hash), events[1..], org, agent, healthy, ttl, hash, k - 1);
        assert events[..k][1..] == events[1..][..k - 1];
      }
    }
  }

  lemma TargetHasNoBudget(healthy: set<string>, agent: string, hash: string -> nat)
    requires healthy != {}
    ensures Budget(Some(Target(healthy, agent, hash)), healthy, agent, hash) == 0
  {}

  /** Convergence: as soon as the shard target has called once, it owns the placement for good. */
  lemma {:induction false} TargetWins(t: State, events: seq<Event>, org: string, agent: string,
      healthy: set<string>, ttl: int, hash: string -> nat, i: nat)
    requires healthy != {} && Steady(t, events, org, agent, healthy, ttl, hash)
    requires i < |events| && About(events[i], org, agent) && events[i].pod == Target(healthy, agent, hash)
    ensures Owner(Play(t, events, ttl, hash), org, agent) == Some(Target(healthy, agent, hash))
    decreases i
  {
    hide React, Owner, Target, AcceptedBy;
    StepSpendsBudget(t, events[0], org, agent, healthy, ttl, hash);
    var t', rest := React(t, events[0], ttl, hash), events[1..];
    if i == 0 {
      TargetKeepsThePlacement(t', rest, org, agent, healthy, ttl, hash, |rest|);
      assert rest[..|rest|] == rest;
    } else {
      TargetWins(t', rest, org, agent, healthy, ttl, hash, i - 1);
    }
  }
}
