/** Message merging in the chat provider (`packages/chat-react/src/provider.tsx`): a Map keyed by id,
    filled in order, then a stable sort by creation time. */
module Messages {
  import opened StableSort

  datatype Message = Message(id: string, createdAt: string, body: string)

  /** `localeCompare` on creation times; any total preorder. */
  type TimeOrder = (string, string) -> bool

  function ByTime(le: TimeOrder): (Message, Message) -> bool {
    (a: Message, b: Message) => le(a.createdAt, b.createdAt)
  }

  predicate DistinctIds(entries: seq<Message>) {
    forall i, j :: 0 <= i < j < |entries| ==> entries[i].id != entries[j].id
  }

  /** `map.set(m.id, m)` on the entries of a JavaScript Map: a known id keeps its place. */
  function Upsert(entries: seq<Message>, m: Message): (r: seq<Message>)
    ensures |entries| <= |r|
  {
    if entries == [] then [m]
    else if entries[0].id == m.id then [m] + entries[1..]
    else [entries[0]] + Upsert(entries[1..], m)
  }

  function UpsertAll(entries: seq<Message>, ms: seq<Message>): seq<Message> {
    if ms == [] then entries
    else Upsert(UpsertAll(entries, ms[..|ms| - 1]), ms[|ms| - 1])
  }

  function Merge(current: seq<Message>, incoming: seq<Message>, le: TimeOrder): seq<Message> {
    Sort(UpsertAll(UpsertAll([], current), incoming), ByTime(le))
  }

  method MergeMessages(current: seq<Message>, incoming: seq<Message>, le: TimeOrder) returns (r: seq<Message>)
    ensures r == Merge(current, incoming, le)
  {
    var byId := [];
    for k := 0 to |current|
      invariant byId == UpsertAll([], current[..k])
    {
      assert current[..k + 1][..k] == current[..k];
      byId := Upsert(byId, current[k]);
    }
    assert current[..|current|] == current;
    for k := 0 to |incoming|
      invariant byId == UpsertAll(UpsertAll([], current), incoming[..k])
    {
      assert incoming[..k + 1][..k] == incoming[..k];
      byId := Upsert(byId, incoming[k]);
    }
    assert incoming[..|incoming|] == incoming;
    r := Sort(byId, ByTime(le));
  }

  // ---------------------------------------------------------------- what a map holds

  /** `m` is the last message with its id in the delivery log. */
  predicate IsLatest(log: seq<Message>, m: Message) {
    log != [] && var n := |log| - 1;
                 log[n] == m || (log[n].id != m.id && IsLatest(log[..n], m))
  }

  /** `entries` holds one entry per delivered id, in its last delivered version, and nothing else. */
  ghost predicate Represents(entries: seq<Message>, log: seq<Message>) {
    DistinctIds(entries) && forall m :: m in entries <==> IsLatest(log, m)
  }

  lemma {:induction false} LatestExists(log: seq<Message>, m: Message) returns (l: Message)
    requires m in log
    ensures IsLatest(log, l) && l.id == m.id
  {
    var n := |log| - 1;
    if log[n].id == m.id {
      l := log[n];
    } else {
      assert m in log[..n];
      l := LatestExists(log[..n], m);
    }
  }

  lemma {:induction false} LatestIsUnique(log: seq<Message>, a: Message, b: Message)
    requires IsLatest(log, a) && IsLatest(log, b) && a.id == b.id
    ensures a == b
  {
    var n := |log| - 1;
    if log[n] != a { LatestIsUnique(log[..n], a, b); }
  }

  lemma {:induction false} UpsertMembers(entries: seq<Message>, m: Message, x: Message)
    requires DistinctIds(entries)
    ensures DistinctIds(Upsert(entries, m))
    ensures x in Upsert(entries, m) <==> x == m || (x in entries && x.id != m.id)
  {
    if entries != [] {
      assert entries == [entries[0]] + entries[1..];
      assert forall y :: y in entries[1..] ==> y.id != entries[0].id;
      UpsertMembers(entries[1..], m, x);
      if entries[0].id != m.id {
        forall y | y in Upsert(entries[1..], m) ensures y.id != entries[0].id {
          UpsertMembers(entries[1..], m, y);
        }
      }
    }
  }

  lemma UpsertRepresents(entries: seq<Message>, log: seq<Message>, m: Message)
    requires Represents(entries, log)
    ensures Represents(Upsert(entries, m), log + [m])
  {
    assert (log + [m])[..|log|] == log;
    forall x ensures x in Upsert(entries, m) <==> IsLatest(log + [m], x) {
      UpsertMembers(entries, m, x);
    }
    UpsertMembers(entries, m, m);
  }

  lemma {:induction false} UpsertAllRepresents(entries: seq<Message>, log: seq<Message>, ms: seq<Message>)
    requires Represents(entries, log)
    ensures Represents(UpsertAll(entries, ms), log + ms)
  {
    hide Represents;
    if ms == [] {
      assert log + ms == log;
    } else {
      var n := |ms| - 1;
      UpsertAllRepresents(entries, log, ms[..n]);
      UpsertRepresents(UpsertAll(entries, ms[..n]), log + ms[..n], ms[n]);
      assert log + ms == (log + ms[..n]) + [ms[n]];
    }
  }

  lemma {:induction false} UpsertAtEnd(entries: seq<Message>, m: Message)
    requires forall i :: 0 <= i < |entries| ==> entries[i].id != m.id
    ensures Upsert(entries, m) == entries + [m]
  {
    if entries != [] {
      UpsertAtEnd(entries[1..], m);
      assert entries == [entries[0]] + entries[1..];
    }
  }

  /** Rebuilding a map from its own values gives the same map, in the same order. */
  lemma {:induction false} RebuildIsIdentity(entries: seq<Message>)
    requires DistinctIds(entries)
    ensures UpsertAll([], entries) == entries
  {
    if entries != [] {
      var n := |entries| - 1;
      RebuildIsIdentity(entries[..n]);
      UpsertAtEnd(entries[..n], entries[n]);
      assert entries == entries[..n] + [entries[n]];
    }
  }

  lemma DistinctIdsOfPermutation(s: seq<Message>, t: seq<Message>)
    requires multiset(s) == multiset(t) && DistinctIds(s)
    ensures DistinctIds(t)
  {
    SameElements(s, t);
    forall i, j | 0 <= i < j < |t|
      ensures t[i].id != t[j].id
    {
      var a, b := t[i], t[j];
      assert t == t[..i] + [a] + t[i + 1..j] + [b] + t[j + 1..];
      assert multiset(t) == multiset(t[..i]) + multiset{a} + multiset(t[i + 1..j]) + multiset{b} + multiset(t[j + 1..]);
      if a == b {
        assert multiset(s)[a] >= 2;
        DistinctIdsCount(s, a);
      } else {
        assert a in s && b in s;
      }
    }
  }

  lemma {:induction false} DistinctIdsCount(s: seq<Message>, m: Message)
    requires DistinctIds(s)
    ensures multiset(s)[m] <= 1
  {
    if s != [] {
      DistinctIdsCount(s[1..], m);
      assert s == [s[0]] + s[1..];
      assert multiset(s) == multiset{s[0]} + multiset(s[1..]);
      assert forall y :: y in s[1..] ==> y.id != s[0].id;
      assert s[0] !in multiset(s[1..]);
    }
  }

  lemma SortRepresents(entries: seq<Message>, log: seq<Message>, le: TimeOrder)
    requires Represents(entries, log)
    ensures Represents(Sort(entries, ByTime(le)), log)
  {
    var t := Sort(entries, ByTime(le));
    SortIsPermutation(entries, ByTime(le));
    SameElements(entries, t);
    DistinctIdsOfPermutation(entries, t);
  }

  // ---------------------------------------------------------------- runs of merges

  function MergeAll(batches: seq<seq<Message>>, le: TimeOrder): seq<Message> {
    if batches == [] then []
    else Merge(MergeAll(batches[..|batches| - 1], le), batches[|batches| - 1], le)
  }

  function Log(batches: seq<seq<Message>>): seq<Message> {
    if batches == [] then [] else Log(batches[..|batches| - 1]) + batches[|batches| - 1]
  }

  lemma OrderOfTimes(le: TimeOrder)
    requires TotalPreorder(le)
    ensures TotalPreorder(ByTime(le))
  {
    var order := ByTime(le);
    assert forall a, b :: order(a, b) == le(a.createdAt, b.createdAt);
    forall a, b ensures order(a, b) || order(b, a) {
      assert le(a.createdAt, b.createdAt) || le(b.createdAt, a.createdAt);
    }
    forall a, b, c | order(a, b) && order(b, c) ensures order(a, c) {
      assert le(a.createdAt, b.createdAt) && le(b.createdAt, c.createdAt);
    }
  }

  predicate InTimeOrder(s: seq<Message>, le: TimeOrder) {
    forall i, j :: 0 <= i < j < |s| ==> le(s[i].createdAt, s[j].createdAt)
  }

  /** After any run of merges: one entry per delivered id, in its last version, in time order. */
  lemma {:induction false} RunsKeepTheLatest(batches: seq<seq<Message>>, le: TimeOrder)
    requires TotalPreorder(le)
    ensures Represents(MergeAll(batches, le), Log(batches))
    ensures InTimeOrder(MergeAll(batches, le), le)
  {
    hide Represents, Sort, TotalPreorder;
    if batches == [] {
      assert Represents([], []) by { Nothing(); }
    } else {
      var n := |batches| - 1;
      RunsKeepTheLatest(batches[..n], le);
      MergeRepresents(MergeAll(batches[..n], le), Log(batches[..n]), batches[n], le);
    }
  }

  lemma Nothing()
    ensures Represents([], [])
  {}

  lemma MergeRepresents(current: seq<Message>, log: seq<Message>, incoming: seq<Message>, le: TimeOrder)
    requires TotalPreorder(le) && Represents(current, log)
    ensures Represents(Merge(current, incoming, le), log + incoming)
    ensures InTimeOrder(Merge(current, incoming, le), le)
  {
    hide Sort, TotalPreorder;
    RebuildIsIdentity(current);
    UpsertAllRepresents(current, log, incoming);
    SortRepresents(UpsertAll(current, incoming), log + incoming, le);
    OrderOfTimes(le);
    SortIsSorted(UpsertAll(current, incoming), ByTime(le));
  }

  /** Every delivered id is still there, in its last version. */
  lemma NothingIsLost(batches: seq<seq<Message>>, le: TimeOrder, m: Message) returns (kept: Message)
    requires TotalPreorder(le) && m in Log(batches)
    ensures kept in MergeAll(batches, le) && kept.id == m.id && IsLatest(Log(batches), kept)
  {
    hide TotalPreorder;
    RunsKeepTheLatest(batches, le);
    kept := LatestExists(Log(batches), m);
  }

  // ---------------------------------------------------------------- ties

  /** The position of the first delivery with an id, or the length. */
  function FirstDelivery(log: seq<Message>, id: string): nat {
    if log == [] || log[0].id == id then 0 else 1 + FirstDelivery(log[1..], id)
  }

  lemma {:induction false} FirstDeliveryIs(log: seq<Message>, id: string)
    ensures var n := FirstDelivery(log, id);
            n <= |log| && (n < |log| ==> log[n].id == id) && forall i :: 0 <= i < n ==> log[i].id != id
  {
    if log != [] && log[0].id != id { FirstDeliveryIs(log[1..], id); }
  }

  function EarlierIn(log: seq<Message>): (Message, Message) -> bool {
    (a: Message, b: Message) => FirstDelivery(log, a.id) < FirstDelivery(log, b.id)
  }

  lemma {:induction false} FirstDeliveryOfMore(log: seq<Message>, m: Message, id: string)
    ensures FirstDelivery(log + [m], id) ==
            if FirstDelivery(log, id) < |log| then FirstDelivery(log, id)
            else if m.id == id then |log| else |log| + 1
  {
    if log == [] {
      assert log + [m] == [m] && [m][1..] == [];
    } else {
      assert (log + [m])[1..] == log[1..] + [m];
      FirstDeliveryOfMore(log[1..], m, id);
      FirstDeliveryIs(log[1..], id);
    }
  }

  function Delivery(log: seq<Message>): string -> nat {
    (id: string) => FirstDelivery(log, id)
  }

  /** Exactly the ids of rank below `n`, by rank. */
  ghost predicate Ranked(ids: seq<string>, rank: string -> nat, n: nat) {
    && (forall i, j :: 0 <= i < j < |ids| ==> rank(ids[i]) < rank(ids[j]))
    && (forall id :: id in ids <==> rank(id) < n)
  }

  lemma OneMoreRank(ids: seq<string>, was: string -> nat, now: string -> nat, n: nat, x: string)
    requires Ranked(ids, was, n)
    requires forall id :: now(id) == if was(id) < n then was(id) else if id == x then n else n + 1
    ensures Ranked(if x in ids then ids else ids + [x], now, n + 1)
  {
    assert forall i :: 0 <= i < |ids| ==> ids[i] in ids;
  }

  lemma OneMoreArrival(ids: seq<string>, log: seq<Message>, m: Message)
    requires Ranked(ids, Delivery(log), |log|)
    ensures Ranked(if m.id in ids then ids else ids + [m.id], Delivery(log + [m]), |log + [m]|)
  {
    hide FirstDelivery, Ranked;
    var was, now := Delivery(log), Delivery(log + [m]);
    forall id ensures now(id) == if was(id) < |log| then was(id) else if id == m.id then |log| else |log| + 1 {
      FirstDeliveryOfMore(log, m, id);
    }
    OneMoreRank(ids, was, now, |log|, m.id);
  }

  lemma IdsOfUpsert(entries: seq<Message>, m: Message)
    ensures Ids(Upsert(entries, m)) == if m.id in Ids(entries) then Ids(entries) else Ids(entries) + [m.id]
  {
    if m.id in Ids(entries) {
      UpsertKeepsIds(entries, m);
    } else {
      assert forall i :: 0 <= i < |entries| ==> entries[i].id == Ids(entries)[i] != m.id;
      UpsertAtEnd(entries, m);
    }
  }

  lemma {:induction false} EntriesAreInArrivalOrder(log: seq<Message>)
    ensures Ranked(Ids(UpsertAll([], log)), Delivery(log), |log|)
  {
    hide Ranked, Delivery;
    if log == [] {
      NothingArrived();
    } else {
      var n := |log| - 1;
      EntriesAreInArrivalOrder(log[..n]);
      IdsOfUpsert(UpsertAll([], log[..n]), log[n]);
      OneMoreArrival(Ids(UpsertAll([], log[..n])), log[..n], log[n]);
      assert log == log[..n] + [log[n]];
    }
  }

  lemma NothingArrived()
    ensures Ranked([], Delivery([]), 0)
  {}

  /** Messages with equal times stand in the order of their first delivery; a new version takes the place of
      the old one. */
  lemma TiesAreInArrivalOrder(current: seq<Message>, incoming: seq<Message>, le: TimeOrder, i: nat, j: nat)
    requires TotalPreorder(le) && i < j < |Merge(current, incoming, le)|
    requires var r := Merge(current, incoming, le);
             le(r[i].createdAt, r[j].createdAt) && le(r[j].createdAt, r[i].createdAt)
    ensures var r, log := Merge(current, incoming, le), current + incoming;
            FirstDelivery(log, r[i].id) < FirstDelivery(log, r[j].id)
  {
    hide Sort, TotalPreorder, FirstDelivery, UpsertAll;
    var log := current + incoming;
    UpsertAllConcat([], current, incoming);
    EntriesAreInArrivalOrder(log);
    OrderOfTimes(le);
    var ids := Ids(UpsertAll([], log));
    assert forall i :: 0 <= i < |ids| ==> UpsertAll([], log)[i].id == ids[i];
    assert Pairwise(UpsertAll([], log), EarlierIn(log));
    TiesKeepTheirOrder(UpsertAll([], log), ByTime(le), EarlierIn(log), i, j);
  }

  // ---------------------------------------------------------------- merging twice

  function Ids(s: seq<Message>): (r: seq<string>)
    ensures |r| == |s| && forall i :: 0 <= i < |s| ==> r[i] == s[i].id
  {
    if s == [] then [] else [s[0].id] + Ids(s[1..])
  }

  lemma {:induction false} UpsertKeepsIds(entries: seq<Message>, m: Message)
    requires m.id in Ids(entries)
    ensures Ids(Upsert(entries, m)) == Ids(entries)
  {
    if entries[0].id == m.id {
      assert ([m] + entries[1..])[1..] == entries[1..];
    } else {
      UpsertKeepsIds(entries[1..], m);
    }
  }

  lemma {:induction false} UpsertAllKeepsIds(entries: seq<Message>, ms: seq<Message>)
    requires forall i :: 0 <= i < |ms| ==> ms[i].id in Ids(entries)
    ensures Ids(UpsertAll(entries, ms)) == Ids(entries)
  {
    if ms != [] {
      var n := |ms| - 1;
      UpsertAllKeepsIds(entries, ms[..n]);
      UpsertKeepsIds(UpsertAll(entries, ms[..n]), ms[n]);
    }
  }

  /** Two logs with the same latest versions, two maps with the same ids in the same order. */
  lemma SameIdsSameEntries(s: seq<Message>, t: seq<Message>, log: seq<Message>)
    requires Represents(s, log) && Represents(t, log) && Ids(s) == Ids(t)
    ensures s == t
  {
    assert |s| == |t|;
    forall i | 0 <= i < |s| ensures s[i] == t[i] {
      assert s[i].id == Ids(s)[i] == Ids(t)[i] == t[i].id;
      assert s[i] in s && t[i] in t;
      LatestIsUnique(log, s[i], t[i]);
    }
  }

  lemma {:induction false} LatestOfAppend(log: seq<Message>, ms: seq<Message>, m: Message)
    ensures IsLatest(log + ms, m) <==>
            IsLatest(ms, m) || (IsLatest(log, m) && forall i :: 0 <= i < |ms| ==> ms[i].id != m.id)
  {
    if ms == [] {
      assert log + ms == log;
    } else {
      var n := |ms| - 1;
      LatestOfAppend(log, ms[..n], m);
      assert (log + ms)[..|log + ms| - 1] == log + ms[..n];
    }
  }

  lemma {:induction false} LatestOccurs(log: seq<Message>, m: Message)
    requires IsLatest(log, m)
    ensures m in log
  {
    var n := |log| - 1;
    if log[n] != m { LatestOccurs(log[..n], m); }
  }

  lemma RepeatChangesNoLatest(log: seq<Message>, ms: seq<Message>, m: Message)
    ensures IsLatest(log + ms + ms, m) <==> IsLatest(log + ms, m)
  {
    LatestOfAppend(log, ms, m);
    LatestOfAppend(log + ms, ms, m);
    if IsLatest(ms, m) { LatestOccurs(ms, m); }
  }

  /** Merging the same batch again changes nothing, not even the order of messages with equal times. */
  lemma MergeTwiceIsMergeOnce(current: seq<Message>, batch: seq<Message>, le: TimeOrder)
    requires TotalPreorder(le)
    ensures var r := Merge(current, batch, le); Merge(r, batch, le) == r
  {
    hide Sort, TotalPreorder, IsLatest;
    var r := Merge(current, batch, le);
    var log := current + batch;
    Nothing();
    UpsertAllRepresents([], [], current);
    assert [] + current == current;
    var c := UpsertAll([], current);
    MergeRepresents(c, current, batch, le);
    RebuildIsIdentity(c);
    assert r == Merge(c, batch, le);
    RebuildIsIdentity(r);
    UpsertAllRepresents(r, log, batch);
    assert Represents(UpsertAll(r, batch), log) by {
      forall m ensures IsLatest(log + batch, m) <==> IsLatest(log, m) { RepeatChangesNoLatest(current, batch, m); }
    }
    forall i | 0 <= i < |batch| ensures batch[i].id in Ids(r) {
      var l := LatestExists(log, batch[i]);
      var j :| 0 <= j < |r| && r[j] == l;
      assert Ids(r)[j] == l.id;
    }
    UpsertAllKeepsIds(r, batch);
    SameIdsSameEntries(UpsertAll(r, batch), r, log);
    SortOfSorted(r, ByTime(le));
  }

  // ---------------------------------------------------------------- batch boundaries do not matter

  /** Replaces the message with the id of `m`, where there is one. */
  function Replace(s: seq<Message>, m: Message): seq<Message> {
    if s == [] then []
    else var n := |s| - 1; Replace(s[..n], m) + [if s[n].id == m.id then m else s[n]]
  }

  /** New versions of a message come with a creation time that sorts alike. */
  ghost predicate TimesAreStable(log: seq<Message>, le: TimeOrder) {
    forall a, b :: a in log && b in log && a.id == b.id ==> le(a.createdAt, b.createdAt)
  }

  ghost predicate SameTime(s: seq<Message>, m: Message, le: TimeOrder) {
    forall x :: x in s && x.id == m.id ==> le(x.createdAt, m.createdAt) && le(m.createdAt, x.createdAt)
  }

  lemma {:induction false} ReplaceIsUpsert(s: seq<Message>, m: Message)
    requires DistinctIds(s) && m.id in Ids(s)
    ensures Upsert(s, m) == Replace(s, m)
  {
    if s[0].id == m.id {
      ReplaceAbsent(s[1..], m);
      ReplaceConcat([s[0]], s[1..], m);
      assert s == [s[0]] + s[1..];
      assert [s[0]][..0] == [] && Replace([s[0]], m) == [m];
    } else {
      ReplaceIsUpsert(s[1..], m);
      ReplaceConcat([s[0]], s[1..], m);
      assert s == [s[0]] + s[1..];
      assert [s[0]][..0] == [] && Replace([s[0]], m) == [s[0]];
    }
  }

  lemma {:induction false} ReplaceAbsent(s: seq<Message>, m: Message)
    requires forall i :: 0 <= i < |s| ==> s[i].id != m.id
    ensures Replace(s, m) == s
  {
    if s != [] {
      ReplaceAbsent(s[..|s| - 1], m);
      assert s == s[..|s| - 1] + [s[|s| - 1]];
    }
  }

  lemma {:induction false} ReplaceConcat(s: seq<Message>, t: seq<Message>, m: Message)
    ensures Replace(s + t, m) == Replace(s, m) + Replace(t, m)
  {
    if t == [] {
      assert s + t == s;
    } else {
      var n := |t| - 1;
      assert (s + t)[..|s + t| - 1] == s + t[..n];
      ReplaceConcat(s, t[..n], m);
    }
  }

  lemma {:induction false} InsertOfReplace(s: seq<Message>, x: Message, m: Message, le: TimeOrder)
    requires TotalPreorder(le) && SameTime(s + [x], m, le)
    ensures Replace(Insert(s, x, ByTime(le)), m) ==
            Insert(Replace(s, m), if x.id == m.id then m else x, ByTime(le))
  {
    var y := if x.id == m.id then m else x;
    assert x in s + [x];
    if s == [] {
      assert [x][..0] == [];
      assert Replace([x], m) == Replace([], m) + [y];
    } else {
      var n := |s| - 1;
      var z := if s[n].id == m.id then m else s[n];
      var order := ByTime(le);
      assert s[n] in s + [x];
      assert order(s[n], x) == order(z, y);
      assert SameTime(s[..n] + [x], m, le) by {
        assert forall w :: w in s[..n] + [x] ==> w in s + [x];
      }
      InsertOfReplace(s[..n], x, m, le);
      var r := Replace(s, m);
      assert r[..|r| - 1] == Replace(s[..n], m) && r[|r| - 1] == z;
      if order(s[n], x) {
        assert (s + [x])[..|s|] == s;
      } else {
        var t := Insert(s[..n], x, order);
        assert (t + [s[n]])[..|t|] == t;
      }
    }
  }

  lemma {:induction false} SortOfReplace(s: seq<Message>, m: Message, le: TimeOrder)
    requires TotalPreorder(le) && SameTime(s, m, le)
    ensures Replace(Sort(s, ByTime(le)), m) == Sort(Replace(s, m), ByTime(le))
  {
    hide Insert, TotalPreorder;
    if s != [] {
      var n := |s| - 1;
      var order := ByTime(le);
      assert s == s[..n] + [s[n]];
      assert SameTime(s[..n], m, le) by { assert forall w :: w in s[..n] ==> w in s; }
      SortOfReplace(s[..n], m, le);
      var t := Sort(s[..n], order);
      SortIsPermutation(s[..n], order);
      SameElements(t, s[..n]);
      assert SameTime(t + [s[n]], m, le) by { assert forall w :: w in t + [s[n]] ==> w in s; }
      InsertOfReplace(t, s[n], m, le);
      var r := Replace(s, m);
      assert r[..|r| - 1] == Replace(s[..n], m) && |r| > 0;
    }
  }

  /** One more delivery gives the same sorted list whether or not the map was sorted before. */
  lemma UpsertOfSorted(s: seq<Message>, m: Message, le: TimeOrder)
    requires TotalPreorder(le) && DistinctIds(s) && SameTime(s, m, le)
    ensures var order := ByTime(le);
            Sort(Upsert(Sort(s, order), m), order) == Sort(Upsert(s, m), order)
  {
    hide Insert, TotalPreorder, DistinctIds;
    var order := ByTime(le);
    var t := Sort(s, order);
    SortIsPermutation(s, order);
    SameElements(s, t);
    DistinctIdsOfPermutation(s, t);
    OrderOfTimes(le);
    SortIsSorted(s, order);
    IdsMembers(s, m.id);
    IdsMembers(t, m.id);
    if m.id in Ids(s) {
      var x :| x in s && x.id == m.id;
      assert x in t;
      ReplaceIsUpsert(s, m);
      ReplaceIsUpsert(t, m);
      SortOfReplace(s, m, le);
      assert SameTime(t, m, le);
      SortOfReplace(t, m, le);
      SortOfSorted(t, order);
    } else {
      UpsertAtEnd(s, m);
      UpsertAtEnd(t, m);
      SortOfSorted(t, order);
      assert (s + [m])[..|s|] == s && (t + [m])[..|t|] == t;
    }
  }

  lemma {:induction false} IdsMembers(s: seq<Message>, id: string)
    ensures id in Ids(s) <==> exists x :: x in s && x.id == id
  {}

  lemma {:induction false} UpsertAllOfSorted(s: seq<Message>, log: seq<Message>, ms: seq<Message>, le: TimeOrder)
    requires TotalPreorder(le) && Represents(s, log) && TimesAreStable(log + ms, le)
    ensures var order := ByTime(le);
            Sort(UpsertAll(Sort(s, order), ms), order) == Sort(UpsertAll(s, ms), order)
  {
    hide Sort, Insert, TotalPreorder, IsLatest;
    var order := ByTime(le);
    if ms == [] {
      OrderOfTimes(le);
      SortIsSorted(s, order);
      SortOfSorted(Sort(s, order), order);
    } else {
      var n := |ms| - 1;
      var m := ms[n];
      var a, b := UpsertAll(Sort(s, order), ms[..n]), UpsertAll(s, ms[..n]);
      assert forall x :: x in log + ms[..n] ==> x in log + ms;
      UpsertAllOfSorted(s, log, ms[..n], le);
      SortRepresents(s, log, le);
      UpsertAllRepresents(Sort(s, order), log, ms[..n]);
      UpsertAllRepresents(s, log, ms[..n]);
      assert m in log + ms;
      TimesOfLatest(a, log + ms[..n], log + ms, m, le);
      TimesOfLatest(b, log + ms[..n], log + ms, m, le);
      UpsertOfSorted(a, m, le);
      UpsertOfSorted(b, m, le);
    }
  }

  lemma TimesOfLatest(s: seq<Message>, log: seq<Message>, all: seq<Message>, m: Message, le: TimeOrder)
    requires Represents(s, log) && TimesAreStable(all, le) && m in all
    requires forall x :: x in log ==> x in all
    ensures SameTime(s, m, le)
  {
    forall x | x in s && x.id == m.id
      ensures le(x.createdAt, m.createdAt) && le(m.createdAt, x.createdAt)
    {
      LatestOccurs(log, x);
    }
  }

  /** When versions of a message keep their creation time, cutting the deliveries into batches makes
      no difference: any run of merges is the single merge of everything delivered. */
  lemma {:induction false} BatchingIsIrrelevant(batches: seq<seq<Message>>, le: TimeOrder)
    requires TotalPreorder(le) && TimesAreStable(Log(batches), le)
    ensures MergeAll(batches, le) == Merge([], Log(batches), le)
  {
    hide Sort, Insert, TotalPreorder, Represents;
    var order := ByTime(le);
    if batches == [] {
      SortOfSorted([], order);
    } else {
      var n := |batches| - 1;
      var log, last := Log(batches[..n]), batches[n];
      assert forall x :: x in log ==> x in Log(batches);
      BatchingIsIrrelevant(batches[..n], le);
      var u := UpsertAll([], log);
      assert Represents(u, log) by {
        Nothing();
        UpsertAllRepresents([], [], log);
        assert [] + log == log;
      }
      var t := MergeAll(batches[..n], le);
      assert t == Sort(u, order);
      SortRepresents(u, log, le);
      RebuildOf(t, log);
      UpsertAllOfSorted(u, log, last, le);
      UpsertAllConcat([], log, last);
    }
  }

  lemma RebuildOf(t: seq<Message>, log: seq<Message>)
    requires Represents(t, log)
    ensures UpsertAll([], t) == t
  {
    RebuildIsIdentity(t);
  }

  lemma {:induction false} UpsertAllConcat(s: seq<Message>, xs: seq<Message>, ys: seq<Message>)
    ensures UpsertAll(s, xs + ys) == UpsertAll(UpsertAll(s, xs), ys)
  {
    if ys == [] {
      assert xs + ys == xs;
    } else {
      var n := |ys| - 1;
      assert (xs + ys)[..|xs + ys| - 1] == xs + ys[..n];
      UpsertAllConcat(s, xs, ys[..n]);
    }
  }
}
