/** The tenant migration runner (`packages/migrate/src/runner.ts`) as a restartable protocol: each
    runner works through its sorted list against a snapshot read at the start, one transaction per
    migration, while other runners share the `schema_migrations` table and may crash at any point. */
module Migrate {
  import opened Text
  import opened StableSort

  datatype Migration = Migration(name: string, sql: string)
  datatype MigrationResult = MigrationResult(filename: string, applied: bool, checksum: string)

  /** `sha256(sql)` in hexadecimal. */
  type Digest = string -> string

  /** How the SQL text of one migration ends when the database executes it. */
  datatype SqlOutcome = SqlOk | SqlAlreadyExists | SqlError

  datatype Failure = InvalidName(name: string) | Modified(name: string) | SqlFailed(name: string)
    | DuplicateKey(name: string)

  /** `rows` is `schema_migrations`, with its primary key on the name; `committed` lists the
      migrations whose SQL took effect, in commit order. */
  datatype Db = Db(rows: map<string, string>, committed: seq<string>)

  datatype Phase = Ready | Baselining
  datatype Status = Running | Returned | Threw(failure: Failure) | Crashed

  /** The local state of one `applyMigrations` call. */
  datatype Runner = Runner(snapshot: map<string, string>, isBaseline: bool, next: nat, phase: Phase,
                           results: seq<MigrationResult>, status: Status)

  // ---------------------------------------------------------------- normalizeMigrations

  predicate IsNameChar(c: char) { 'a' <= c <= 'z' || IsDigit(c) || c == '_' }

  /** `/^(\d{14})_([a-z0-9_]+)\.sql$/`. */
  predicate ValidName(name: string) {
    && |name| >= 20
    && (forall i :: 0 <= i < 14 ==> IsDigit(name[i]))
    && name[14] == '_'
    && (forall i :: 15 <= i < |name| - 4 ==> IsNameChar(name[i]))
    && name[|name| - 4..] == ".sql"
  }

  predicate AllDigits(s: string) {
    forall i :: 0 <= i < |s| ==> IsDigit(s[i])
  }

  predicate AllNameChars(s: string) {
    forall i :: 0 <= i < |s| ==> IsNameChar(s[i])
  }

  /** A valid name is a timestamp of fourteen digits, an underscore, a description and the extension. */
  lemma ValidNameIs(name: string)
    ensures ValidName(name) <==>
            exists stamp, text :: |stamp| == 14 && AllDigits(stamp) && text != "" && AllNameChars(text)
                                  && name == stamp + "_" + text + ".sql"
  {
    if ValidName(name) {
      var stamp, text := name[..14], name[15..|name| - 4];
      assert name == stamp + [name[14]] + text + name[|name| - 4..];
      assert AllDigits(stamp) && AllNameChars(text);
      assert name == stamp + "_" + text + ".sql";
    }
    if stamp, text :| |stamp| == 14 && AllDigits(stamp) && text != "" && AllNameChars(text)
                      && name == stamp + "_" + text + ".sql" {
      assert name[..14] == stamp && name[15..|name| - 4] == text && name[|name| - 4..] == ".sql";
      assert forall i :: 15 <= i < |name| - 4 ==> name[i] == text[i - 15];
    }
  }

  function ByName(le: (string, string) -> bool): (Migration, Migration) -> bool {
    (a: Migration, b: Migration) => le(a.name, b.name)
  }

  // ---------------------------------------------------------------- one step of one runner

  function Begin(db: Db): Runner {
    Runner(db.rows, |db.rows| == 0, 0, Ready, [], Running)
  }

  /** The checksum the snapshot knows; an empty one counts as absent, as in the source. */
  function Known(r: Runner, name: string): string {
    if name in r.snapshot then r.snapshot[name] else ""
  }

  function Finish(r: Runner, m: Migration, applied: bool, sha: Digest): Runner {
    r.(next := r.next + 1, phase := Ready, results := r.results + [MigrationResult(m.name, applied, sha(m.sql))])
  }

  function Throw(r: Runner, f: Failure): Runner {
    r.(status := Threw(f))
  }

  /** The next atomic action of a running runner: leave the loop, skip a known migration, run one
      transaction (its SQL and its row commit together or not at all), or insert a baseline row. */
  function Step(ms: seq<Migration>, sha: Digest, r: Runner, db: Db, outcome: SqlOutcome): (Runner, Db)
    requires r.next <= |ms|
  {
    if r.next == |ms| then (r.(status := Returned), db)
    else
      var m := ms[r.next];
      var checksum := sha(m.sql);
      if r.phase == Ready && Known(r, m.name) != "" then
        if Known(r, m.name) != checksum then (Throw(r, Modified(m.name)), db)
        else (Finish(r, m, false, sha), db)
      else if r.phase == Ready && outcome == SqlError then (Throw(r, SqlFailed(m.name)), db)
      else if r.phase == Ready && outcome == SqlAlreadyExists then
        if r.isBaseline then (r.(phase := Baselining), db) else (Throw(r, SqlFailed(m.name)), db)
      else if m.name in db.rows then (Throw(r, DuplicateKey(m.name)), db)
      else
        var rows := db.rows[m.name := checksum];
        (Finish(r, m, true, sha), Db(rows, if r.phase == Ready then db.committed + [m.name] else db.committed))
  }

  // ---------------------------------------------------------------- many runners

  datatype World = World(db: Db, runners: seq<Runner>)

  datatype Event = Start | Advance(who: nat, outcome: SqlOutcome) | Crash(who: nat)

  predicate Bounded(ms: seq<Migration>, w: World) {
    forall i :: 0 <= i < |w.runners| ==> w.runners[i].next <= |ms|
  }

  /** Any runner may move next; an event that names no running runner does nothing. */
  function React(ms: seq<Migration>, sha: Digest, w: World, e: Event): (w': World)
    requires Bounded(ms, w)
    ensures Bounded(ms, w')
  {
    match e
    case Start => World(w.db, w.runners + [Begin(w.db)])
    case Advance(who, outcome) =>
      if who < |w.runners| && w.runners[who].status == Running then
        var (r, db) := Step(ms, sha, w.runners[who], w.db, outcome);
        World(db, w.runners[who := r])
      else w
    case Crash(who) =>
      if who < |w.runners| && w.runners[who].status == Running then
        World(w.db, w.runners[who := w.runners[who].(status := Crashed)])
      else w
  }

  /** The world after a run that starts with the given database and no runner. */
  function Play(ms: seq<Migration>, sha: Digest, db: Db, events: seq<Event>): (w: World)
    ensures Bounded(ms, w)
  {
    if events == [] then World(db, [])
    else React(ms, sha, Play(ms, sha, db, events[..|events| - 1]), events[|events| - 1])
  }

  // ---------------------------------------------------------------- safety from an empty table

  function Names(ms: seq<Migration>): set<string> {
    set i | 0 <= i < |ms| :: ms[i].name
  }

  /** The table is the first `n` names of the list, every runner has only passed recorded names, and
      each committed name is recorded and occurs once. */
  ghost predicate PrefixInvariant(ms: seq<Migration>, w: World, n: nat) {
    && n <= |ms|
    && w.db.rows.Keys == Names(ms[..n])
    && CommittedOnce(w.db)
    && (forall i :: 0 <= i < |w.runners| ==> w.runners[i].next <= |ms| && Passed(ms, w.runners[i], w.db))
  }

  ghost predicate Passed(ms: seq<Migration>, r: Runner, db: Db)
    requires r.next <= |ms|
  {
    Names(ms[..r.next]) <= db.rows.Keys && r.snapshot.Keys <= db.rows.Keys
  }

  lemma NamesGrow(ms: seq<Migration>, i: nat, j: nat)
    requires i <= j <= |ms|
    ensures Names(ms[..i]) <= Names(ms[..j])
    ensures j < |ms| ==> Names(ms[..j + 1]) == Names(ms[..j]) + {ms[j].name}
  {}

  /** Each committed name is recorded, and occurs once. */
  ghost predicate CommittedOnce(db: Db) {
    && Distinct(db.committed)
    && forall i :: 0 <= i < |db.committed| ==> db.committed[i] in db.rows
  }

  lemma StepCommitsOnce(ms: seq<Migration>, sha: Digest, r: Runner, db: Db, outcome: SqlOutcome)
    requires r.next <= |ms| && CommittedOnce(db)
    ensures CommittedOnce(Step(ms, sha, r, db, outcome).1)
  {}

  /** A step inserts an unrecorded name and moves on, or leaves the table alone and moves on only past
      a name of its snapshot. */
  lemma StepShape(ms: seq<Migration>, sha: Digest, r: Runner, db: Db, outcome: SqlOutcome)
    requires r.next <= |ms|
    ensures var (r', db') := Step(ms, sha, r, db, outcome);
            && r'.snapshot == r.snapshot
            && (r'.next == r.next ==> db' == db)
            && (r'.next != r.next ==>
                  && r.next < |ms| && r'.next == r.next + 1
                  && (db' == db ==> ms[r.next].name in r.snapshot)
                  && (db' != db ==> ms[r.next].name !in db.rows && db'.rows.Keys == db.rows.Keys + {ms[r.next].name}))
  {}

  /** A runner that inserts does so exactly at the end of the recorded prefix. */
  lemma StepKeepsPrefix(ms: seq<Migration>, sha: Digest, r: Runner, db: Db, outcome: SqlOutcome, n: nat)
    returns (n': nat)
    requires r.next <= |ms| && n <= |ms| && db.rows.Keys == Names(ms[..n]) && Passed(ms, r, db)
    ensures var (r', db') := Step(ms, sha, r, db, outcome);
            && n' <= |ms| && r'.next <= |ms| && db'.rows.Keys == Names(ms[..n']) && Passed(ms, r', db')
            && db.rows.Keys <= db'.rows.Keys
  {
    hide Names, Step;
    var (r', db') := Step(ms, sha, r, db, outcome);
    StepShape(ms, sha, r, db, outcome);
    n' := n;
    if r'.next != r.next {
      var name := ms[r.next].name;
      NamesGrow(ms, r.next, r.next);
      if db' != db {
        if n > r.next { NamesGrow(ms, r.next + 1, n); } else { NamesGrow(ms, n, r.next); }
        n' := r.next + 1;
      }
    }
  }

  /** For every interleaving of any number of runners over one list, starting from an empty table,
      with SQL failures and crashes anywhere: the recorded names are the names of a prefix of the
      list, and no migration's SQL commits twice. */
  lemma {:induction false} RecordedNamesFormAPrefix(ms: seq<Migration>, sha: Digest, events: seq<Event>)
    returns (n: nat)
    ensures PrefixInvariant(ms, Play(ms, sha, Db(map[], []), events), n)
  {
    hide Names, Step, CommittedOnce, Passed;
    var empty := Db(map[], []);
    if events == [] {
      n := 0;
      NothingRecorded(ms);
    } else {
      var k := |events| - 1;
      n := RecordedNamesFormAPrefix(ms, sha, events[..k]);
      var w := Play(ms, sha, empty, events[..k]);
      n := ReactKeepsPrefix(ms, sha, w, events[k], n);
    }
  }

  lemma NothingRecorded(ms: seq<Migration>)
    ensures PrefixInvariant(ms, World(Db(map[], []), []), 0)
  {}

  lemma ReactKeepsPrefix(ms: seq<Migration>, sha: Digest, w: World, e: Event, n: nat) returns (n': nat)
    requires PrefixInvariant(ms, w, n)
    ensures PrefixInvariant(ms, React(ms, sha, w, e), n')
  {
    hide Names, Step, CommittedOnce;
    n' := n;
    var w' := React(ms, sha, w, e);
    match e {
      case Start =>
        assert Passed(ms, Begin(w.db), w.db) by { assert ms[..0] == []; NoNames(ms); }
      case Advance(who, outcome) =>
        if who < |w.runners| && w.runners[who].status == Running {
          StepCommitsOnce(ms, sha, w.runners[who], w.db, outcome);
          n' := StepKeepsPrefix(ms, sha, w.runners[who], w.db, outcome, n);
        }
      case Crash(who) =>
    }
  }

  lemma NoNames(ms: seq<Migration>)
    ensures Names(ms[..0]) == {}
  {}

  // ---------------------------------------------------------------- what a run guarantees

  /** A runner baselines only what its snapshot does not know. */
  ghost predicate BaselinesUnknown(ms: seq<Migration>, r: Runner) {
    r.next <= |ms| && (r.phase == Baselining ==> r.next < |ms| && Known(r, ms[r.next].name) == "")
  }

  /** Everything the runner has passed is recorded with the checksum of its file, and its results
      follow the list; the snapshot is still part of the table. Any initial table is allowed. */
  ghost predicate RunnerInvariant(ms: seq<Migration>, sha: Digest, r: Runner, db: Db) {
    && BaselinesUnknown(ms, r) && |r.results| == r.next
    && (r.status == Returned ==> r.next == |ms|)
    && (forall x :: x in r.snapshot ==> x in db.rows && db.rows[x] == r.snapshot[x])
    && (forall i :: 0 <= i < r.next ==> Settled(ms, sha, r, db, i))
  }

  ghost predicate Settled(ms: seq<Migration>, sha: Digest, r: Runner, db: Db, i: nat)
    requires i < r.next <= |ms| && |r.results| == r.next
  {
    var m := ms[i];
    && m.name in db.rows && db.rows[m.name] == sha(m.sql)
    && r.results[i] == MigrationResult(m.name, Known(r, m.name) == "", sha(m.sql))
  }

  ghost predicate RowsKept(db: Db, db': Db) {
    && (forall x :: x in db.rows ==> x in db'.rows && db'.rows[x] == db.rows[x])
    && db.committed <= db'.committed
  }

  lemma RunnerFacts(ms: seq<Migration>, sha: Digest, r: Runner, db: Db)
    requires RunnerInvariant(ms, sha, r, db)
    ensures BaselinesUnknown(ms, r) && |r.results| == r.next
    ensures forall x :: x in r.snapshot ==> x in db.rows && db.rows[x] == r.snapshot[x]
  {}

  lemma StepKeepsRunner(ms: seq<Migration>, sha: Digest, r: Runner, db: Db, outcome: SqlOutcome)
    requires r.status == Running && RunnerInvariant(ms, sha, r, db)
    ensures var (r', db') := Step(ms, sha, r, db, outcome);
            RowsKept(db, db') && RunnerInvariant(ms, sha, r', db')
  {
    hide RunnerInvariant;
    RunnerFacts(ms, sha, r, db);
    var (r', db') := Step(ms, sha, r, db, outcome);
    if r'.next == r.next {
      WaitingKeepsRunner(ms, sha, r, r', db);
    } else {
      var name := ms[r.next].name;
      FinishKeepsRunner(ms, sha, r, db, db', r'.results[|r.results|].applied);
    }
  }

  lemma WaitingKeepsRunner(ms: seq<Migration>, sha: Digest, r: Runner, r': Runner, db: Db)
    requires RunnerInvariant(ms, sha, r, db) && BaselinesUnknown(ms, r')
    requires r'.next == r.next && r'.results == r.results && r'.snapshot == r.snapshot
    requires r'.status == Returned ==> r'.next == |ms|
    ensures RunnerInvariant(ms, sha, r', db)
  {
    forall i | 0 <= i < r'.next ensures Settled(ms, sha, r', db, i) {
      assert Settled(ms, sha, r, db, i);
    }
  }

  lemma FinishKeepsRunner(ms: seq<Migration>, sha: Digest, r: Runner, db: Db, db': Db, applied: bool)
    requires RunnerInvariant(ms, sha, r, db) && RowsKept(db, db') && r.next < |ms| && r.status == Running
    requires var m := ms[r.next];
             m.name in db'.rows && db'.rows[m.name] == sha(m.sql) && applied == (Known(r, m.name) == "")
    ensures RunnerInvariant(ms, sha, Finish(r, ms[r.next], applied, sha), db')
  {
    var r' := Finish(r, ms[r.next], applied, sha);
    forall i | 0 <= i < r'.next ensures Settled(ms, sha, r', db', i) {
      if i < r.next { assert Settled(ms, sha, r, db, i); }
    }
  }

  lemma OthersKeepRunner(ms: seq<Migration>, sha: Digest, r: Runner, db: Db, db': Db)
    requires RunnerInvariant(ms, sha, r, db) && RowsKept(db, db')
    ensures RunnerInvariant(ms, sha, r, db')
  {
    forall i | 0 <= i < r.next ensures Settled(ms, sha, r, db', i) {
      assert Settled(ms, sha, r, db, i);
    }
  }

  ghost predicate AllRunners(ms: seq<Migration>, sha: Digest, w: World) {
    forall i :: 0 <= i < |w.runners| ==> RunnerInvariant(ms, sha, w.runners[i], w.db)
  }

  lemma ReactKeepsRunners(ms: seq<Migration>, sha: Digest, w: World, e: Event)
    requires Bounded(ms, w) && AllRunners(ms, sha, w)
    ensures AllRunners(ms, sha, React(ms, sha, w, e)) && RowsKept(w.db, React(ms, sha, w, e).db)
  {
    hide RunnerInvariant, Step, RowsKept;
    var w' := React(ms, sha, w, e);
    match e {
      case Start =>
        NewRunner(ms, sha, w.db);
      case Advance(who, outcome) =>
        SameRows(w.db);
        if who < |w.runners| && w.runners[who].status == Running {
          StepKeepsRunner(ms, sha, w.runners[who], w.db, outcome);
          forall i | 0 <= i < |w.runners| && i != who
            ensures RunnerInvariant(ms, sha, w'.runners[i], w'.db)
          {
            OthersKeepRunner(ms, sha, w.runners[i], w.db, w'.db);
          }
        }
      case Crash(who) =>
        SameRows(w.db);
        if who < |w.runners| && w.runners[who].status == Running {
          CrashKeepsRunner(ms, sha, w.runners[who], w.db);
        }
    }
  }

  lemma NewRunner(ms: seq<Migration>, sha: Digest, db: Db)
    ensures RunnerInvariant(ms, sha, Begin(db), db) && RowsKept(db, db)
  {}

  lemma SameRows(db: Db)
    ensures RowsKept(db, db)
  {}

  lemma CrashKeepsRunner(ms: seq<Migration>, sha: Digest, r: Runner, db: Db)
    requires RunnerInvariant(ms, sha, r, db)
    ensures RunnerInvariant(ms, sha, r.(status := Crashed), db)
  {
    var r' := r.(status := Crashed);
    forall i | 0 <= i < r'.next ensures Settled(ms, sha, r', db, i) {
      assert Settled(ms, sha, r, db, i);
    }
  }

  lemma {:induction false} RunnersAreSound(ms: seq<Migration>, sha: Digest, db: Db, events: seq<Event>)
    ensures AllRunners(ms, sha, Play(ms, sha, db, events))
  {
    hide RunnerInvariant, React;
    if events != [] {
      var k := |events| - 1;
      RunnersAreSound(ms, sha, db, events[..k]);
      ReactKeepsRunners(ms, sha, Play(ms, sha, db, events[..k]), events[k]);
    }
  }

  /** When a run returns, whatever the other runners did: its results follow the list, and the table
      holds the checksum of every file in it. */
  lemma ReturnedRunsAreComplete(ms: seq<Migration>, sha: Digest, db: Db, events: seq<Event>, who: nat)
    requires var w := Play(ms, sha, db, events); who < |w.runners| && w.runners[who].status == Returned
    ensures var w := Play(ms, sha, db, events); var r := w.runners[who];
            && |r.results| == |ms|
            && forall i :: 0 <= i < |ms| ==>
                 && r.results[i].filename == ms[i].name && r.results[i].checksum == sha(ms[i].sql)
                 && r.results[i].applied == (Known(r, ms[i].name) == "")
                 && ms[i].name in w.db.rows && w.db.rows[ms[i].name] == sha(ms[i].sql)
  {
    hide Play;
    RunnersAreSound(ms, sha, db, events);
    var w := Play(ms, sha, db, events);
    var r := w.runners[who];
    assert RunnerInvariant(ms, sha, r, w.db);
    forall i | 0 <= i < |ms|
      ensures r.results[i].filename == ms[i].name && r.results[i].checksum == sha(ms[i].sql)
      ensures r.results[i].applied == (Known(r, ms[i].name) == "")
      ensures ms[i].name in w.db.rows && w.db.rows[ms[i].name] == sha(ms[i].sql)
    {
      assert Settled(ms, sha, r, w.db, i);
    }
  }

  /** The whole list is recorded with the checksums of its files. */
  ghost predicate Complete(ms: seq<Migration>, sha: Digest, rows: map<string, string>) {
    forall i :: 0 <= i < |ms| ==> ms[i].name in rows && rows[ms[i].name] == sha(ms[i].sql)
  }

  /** A runner that started on a complete table, and has only skipped since. */
  ghost predicate OnlySkips(ms: seq<Migration>, sha: Digest, r: Runner) {
    && Complete(ms, sha, r.snapshot) && r.next <= |ms| && r.phase == Ready && !r.status.Threw?
    && forall i :: 0 <= i < |r.results| ==> !r.results[i].applied
  }

  /** Once a run has returned, further runs change nothing: from a complete table, no interleaving of
      any number of runners touches the database, none fails, and no result says `applied`. */
  lemma {:induction false} RerunsChangeNothing(ms: seq<Migration>, sha: Digest, db: Db, events: seq<Event>)
    requires Complete(ms, sha, db.rows) && forall s :: sha(s) != ""
    ensures var w := Play(ms, sha, db, events);
            w.db == db && forall i :: 0 <= i < |w.runners| ==> OnlySkips(ms, sha, w.runners[i])
  {
    if events != [] {
      var k := |events| - 1;
      RerunsChangeNothing(ms, sha, db, events[..k]);
      var w := Play(ms, sha, db, events[..k]);
      match events[k] {
        case Start =>
        case Advance(who, outcome) =>
          if who < |w.runners| && w.runners[who].status == Running {
            assert OnlySkips(ms, sha, w.runners[who]);
          }
        case Crash(who) =>
          if who < |w.runners| && w.runners[who].status == Running {
            assert OnlySkips(ms, sha, w.runners[who]);
          }
      }
    }
  }

  /** The runner stops at or before position `k`. */
  ghost predicate StopsBefore(r: Runner, k: nat) {
    r.next <= k && r.status != Returned && |r.results| == r.next
  }

  /** A recorded file whose checksum changed stops every run: whoever started with that row never
      returns and never passes it, so nothing sorted after it is applied by that run. */
  lemma {:induction false} ChangedFilesStopTheRun(ms: seq<Migration>, sha: Digest, db: Db, events: seq<Event>, k: nat)
    requires k < |ms| && ms[k].name in db.rows && db.rows[ms[k].name] != "" && db.rows[ms[k].name] != sha(ms[k].sql)
    ensures var w := Play(ms, sha, db, events);
            && ms[k].name in w.db.rows && w.db.rows[ms[k].name] == db.rows[ms[k].name]
            && forall i :: 0 <= i < |w.runners| ==>
                 StopsBefore(w.runners[i], k) && Known(w.runners[i], ms[k].name) == db.rows[ms[k].name]
  {
    if events != [] {
      var n := |events| - 1;
      ChangedFilesStopTheRun(ms, sha, db, events[..n], k);
      var w := Play(ms, sha, db, events[..n]);
      match events[n] {
        case Start =>
        case Advance(who, outcome) =>
          if who < |w.runners| && w.runners[who].status == Running {
            assert StopsBefore(w.runners[who], k);
            RunnersAreSound(ms, sha, db, events[..n]);
            assert RunnerInvariant(ms, sha, w.runners[who], w.db);
          }
        case Crash(who) =>
          if who < |w.runners| && w.runners[who].status == Running {
            assert StopsBefore(w.runners[who], k);
          }
      }
    }
  }

  // ---------------------------------------------------------------- a run on its own

  /** A runner that is left alone until it stops; `sql(i)` is how the SQL of migration `i` ends. */
  function Alone(ms: seq<Migration>, sha: Digest, r: Runner, db: Db, sql: nat -> SqlOutcome): (Runner, Db)
    requires r.next <= |ms|
    decreases |ms| - r.next, r.phase == Ready, r.status == Running
  {
    if r.status != Running then (r, db)
    else
      var (r', db') := Step(ms, sha, r, db, sql(r.next));
      Alone(ms, sha, r', db', sql)
  }

  /** A lone run is one of the runs of the protocol, so everything above holds of it. */
  lemma {:induction false} AloneIsAPlay(ms: seq<Migration>, sha: Digest, r: Runner, db: Db, sql: nat -> SqlOutcome,
                                        db0: Db, events: seq<Event>) returns (all: seq<Event>)
    requires r.next <= |ms| && Play(ms, sha, db0, events) == World(db, [r])
    ensures var (r', db') := Alone(ms, sha, r, db, sql); Play(ms, sha, db0, all) == World(db', [r'])
    decreases |ms| - r.next, r.phase == Ready, r.status == Running
  {
    if r.status != Running {
      all := events;
    } else {
      var (r', db') := Step(ms, sha, r, db, sql(r.next));
      var more := events + [Advance(0, sql(r.next))];
      assert more[..|more| - 1] == events;
      all := AloneIsAPlay(ms, sha, r', db', sql, db0, more);
    }
  }

  /** One round of the loop: the lone runner either stops or goes on behind the migration. */
  lemma AloneRound(ms: seq<Migration>, sha: Digest, r: Runner, db: Db, sql: nat -> SqlOutcome)
    requires r.next < |ms| && r.status == Running && r.phase == Ready
    ensures var m, o := ms[r.next], sql(r.next);
            var checksum, known, recorded := sha(m.sql), Known(r, m.name), m.name in db.rows;
            var a, rows := Alone(ms, sha, r, db, sql), db.rows[m.name := checksum];
            var applied := Finish(r, m, true, sha);
            && (known != "" && known != checksum ==> a.0.status == Threw(Modified(m.name)) && a.1 == db)
            && (known != "" && known == checksum ==> a == Alone(ms, sha, Finish(r, m, false, sha), db, sql))
            && (known == "" && (o == SqlError || (o == SqlAlreadyExists && !r.isBaseline)) ==>
                  a.0.status == Threw(SqlFailed(m.name)) && a.1 == db)
            && (known == "" && (o == SqlOk || (o == SqlAlreadyExists && r.isBaseline)) && recorded ==>
                  a.0.status == Threw(DuplicateKey(m.name)) && a.1 == db)
            && (known == "" && o == SqlOk && !recorded ==>
                  a == Alone(ms, sha, applied, Db(rows, db.committed + [m.name]), sql))
            && (known == "" && o == SqlAlreadyExists && r.isBaseline && !recorded ==>
                  a == Alone(ms, sha, applied, Db(rows, db.committed), sql))
  {
    var m := ms[r.next];
    var w := r.(phase := Baselining);
    assert Known(w, m.name) == Known(r, m.name);
    assert Finish(w, m, true, sha) == Finish(r, m, true, sha);
    var (w', db') := Step(ms, sha, w, db, sql(r.next));
    assert Alone(ms, sha, w, db, sql) == Alone(ms, sha, w', db', sql);
    assert w'.status != Running ==> Alone(ms, sha, w', db', sql) == (w', db');
  }

  lemma AloneEnd(ms: seq<Migration>, sha: Digest, r: Runner, db: Db, sql: nat -> SqlOutcome)
    requires r.next == |ms| && r.status == Running
    ensures Alone(ms, sha, r, db, sql) == (r.(status := Returned), db)
  {}

  /** The names a database has committed since it was `db`. */
  ghost predicate NewCommitsAmong(db: Db, db': Db, names: set<string>) {
    && db.committed <= db'.committed
    && forall i :: |db.committed| <= i < |db'.committed| ==> db'.committed[i] in names
  }

  /** A lone run over a list with a changed file ends in an error, and commits only migrations sorted
      before that file. */
  lemma {:induction false} ChangedFileThrows(ms: seq<Migration>, sha: Digest, r: Runner, db: Db,
      sql: nat -> SqlOutcome, k: nat)
    requires r.next <= k < |ms| && r.status == Running && BaselinesUnknown(ms, r)
    requires Known(r, ms[k].name) != "" && Known(r, ms[k].name) != sha(ms[k].sql)
    ensures var (r', db') := Alone(ms, sha, r, db, sql);
            r'.status.Threw? && NewCommitsAmong(db, db', Names(ms[..k]))
    decreases |ms| - r.next, r.phase == Ready
  {
    hide Names, Step;
    var (r', db') := Step(ms, sha, r, db, sql(r.next));
    StepBeforeChange(ms, sha, r, db, sql(r.next), k);
    if r'.status == Running {
      ChangedFileThrows(ms, sha, r', db', sql, k);
    } else {
      assert Alone(ms, sha, r', db', sql) == (r', db');
    }
  }

  lemma StepBeforeChange(ms: seq<Migration>, sha: Digest, r: Runner, db: Db, outcome: SqlOutcome, k: nat)
    requires r.next <= k < |ms| && r.status == Running && BaselinesUnknown(ms, r)
    requires Known(r, ms[k].name) != "" && Known(r, ms[k].name) != sha(ms[k].sql)
    ensures var (r', db') := Step(ms, sha, r, db, outcome);
            && r'.snapshot == r.snapshot && r'.next <= k && BaselinesUnknown(ms, r')
            && (r'.status == Running ==> r'.next > r.next || (r.phase == Ready && r'.phase == Baselining))
            && (r'.status == Running || r'.status.Threw?)
            && r'.next >= r.next && NewCommitsAmong(db, db', Names(ms[..k]))
  {}

  // ---------------------------------------------------------------- what is committed, and why runs fail

  predicate ReportsExisting(e: Event) {
    e.Advance? && e.outcome == SqlAlreadyExists
  }

  /** Since `db`, exactly the names with committed SQL have been recorded. */
  ghost predicate OnlyCommitted(db: Db, db': Db) {
    && db.committed <= db'.committed
    && forall x :: x in db'.rows <==> x in db.rows || x in db'.committed[|db.committed|..]
  }

  lemma CommitOne(db: Db, before: Db, name: string, checksum: string)
    requires OnlyCommitted(db, before)
    ensures OnlyCommitted(db, Db(before.rows[name := checksum], before.committed + [name]))
  {
    var n := |db.committed|;
    assert (before.committed + [name])[n..] == before.committed[n..] + [name];
  }

  lemma NothingCommitted(db: Db)
    ensures OnlyCommitted(db, db)
  {}

  /** Every runner is between two transactions; with rows at the start, none may baseline. */
  ghost predicate NoneBaselines(runners: seq<Runner>, db: Db) {
    forall i :: 0 <= i < |runners| ==> runners[i].phase == Ready && (db.rows != map[] ==> !runners[i].isBaseline)
  }

  /** Baselining needs an empty table and a report that objects exist. Without either, a name is recorded
      exactly when it was before or its SQL has been committed. */
  lemma {:induction false} RecordedMeansCommitted(ms: seq<Migration>, sha: Digest, db: Db, events: seq<Event>)
    requires db.rows != map[] || forall e :: e in events ==> !ReportsExisting(e)
    ensures var w := Play(ms, sha, db, events);
            OnlyCommitted(db, w.db) && NoneBaselines(w.runners, db)
  {
    PlayUnfolds(ms, sha, db, events);
    hide Play, OnlyCommitted, Step;
    NothingCommitted(db);
    if events != [] {
      var n := |events| - 1;
      RecordedMeansCommitted(ms, sha, db, events[..n]);
      assert events[n] in events;
      var w := Play(ms, sha, db, events[..n]);
      match events[n] {
        case Start => if db.rows != map[] { SomeRows(w.db, db); }
        case Advance(who, outcome) =>
          if who < |w.runners| && w.runners[who].status == Running {
            var r := w.runners[who];
            StepRecords(ms, sha, r, w.db, outcome);
            if r.next < |ms| { CommitOne(db, w.db, ms[r.next].name, sha(ms[r.next].sql)); }
          }
        case Crash(who) =>
      }
    }
  }

  lemma SomeRows(db': Db, db: Db)
    requires db.rows != map[] && OnlyCommitted(db, db')
    ensures |db'.rows| > 0
  {
    var x :| x in db.rows;
    assert x in db'.rows;
  }

  /** Outside a baseline, a step records a name and commits its SQL, or does neither. */
  lemma StepRecords(ms: seq<Migration>, sha: Digest, r: Runner, db: Db, outcome: SqlOutcome)
    requires r.next <= |ms| && r.phase == Ready
    ensures var (r', db') := Step(ms, sha, r, db, outcome);
            && (r'.phase == Ready || (r.isBaseline && outcome == SqlAlreadyExists && db' == db))
            && r'.isBaseline == r.isBaseline
            && (db' == db ||
                (r.next < |ms| && outcome == SqlOk && var m := ms[r.next];
                 db' == Db(db.rows[m.name := sha(m.sql)], db.committed + [m.name])))
  {}

  function Successes(events: seq<Event>): nat {
    if events == [] then 0
    else
      var e := events[|events| - 1];
      Successes(events[..|events| - 1]) + if e.Advance? && e.outcome == SqlOk then 1 else 0
  }

  /** No SQL is committed that did not succeed. */
  lemma {:induction false} CommitsNeedSuccess(ms: seq<Migration>, sha: Digest, db: Db, events: seq<Event>)
    ensures |Play(ms, sha, db, events).db.committed| <= |db.committed| + Successes(events)
  {
    PlayUnfolds(ms, sha, db, events);
    hide Play;
    if events != [] {
      CommitsNeedSuccess(ms, sha, db, events[..|events| - 1]);
    }
  }

  /** Why a runner has stopped with an error, said of the migration it stopped at. */
  ghost predicate FailedFor(ms: seq<Migration>, sha: Digest, r: Runner, db: Db) {
    r.status.Threw? ==>
      && r.next < |ms|
      && var m := ms[r.next];
         match r.status.failure
         case Modified(x) => x == m.name && Known(r, x) != "" && Known(r, x) != sha(m.sql)
         case SqlFailed(x) => x == m.name && Known(r, x) == ""
         case DuplicateKey(x) => x == m.name && Known(r, x) == "" && x in db.rows
         case InvalidName(_) => false
  }

  /** Over every run: a changed file, failing SQL, or a name that somebody else recorded meanwhile. */
  lemma {:induction false} FailuresHaveReasons(ms: seq<Migration>, sha: Digest, db: Db, events: seq<Event>)
    ensures var w := Play(ms, sha, db, events);
            forall i :: 0 <= i < |w.runners| ==> FailedFor(ms, sha, w.runners[i], w.db)
  {
    PlayUnfolds(ms, sha, db, events);
    hide Play, RunnerInvariant, RowsKept;
    if events != [] {
      var n := |events| - 1;
      FailuresHaveReasons(ms, sha, db, events[..n]);
      RunnersAreSound(ms, sha, db, events[..n]);
      var w := Play(ms, sha, db, events[..n]);
      match events[n] {
        case Start =>
        case Advance(who, outcome) =>
          if who < |w.runners| && w.runners[who].status == Running {
            RunnerFacts(ms, sha, w.runners[who], w.db);
          }
        case Crash(who) =>
      }
    }
  }

  /** A database that was set up by other means: its first run records every file and commits nothing. */
  lemma {:induction false} FirstRunBaselines(ms: seq<Migration>, sha: Digest, r: Runner, db: Db)
    requires DistinctNames(ms) && r.next <= |ms| && r.phase == Ready && r.status == Running
    requires r.isBaseline && r.snapshot == map[] && forall i :: r.next <= i < |ms| ==> ms[i].name !in db.rows
    ensures var (r', db') := Alone(ms, sha, r, db, _ => SqlAlreadyExists);
            && r'.status == Returned && db'.committed == db.committed
            && db'.rows.Keys == db.rows.Keys + Names(ms[r.next..])
    decreases |ms| - r.next
  {
    hide Alone, Names;
    var sql := _ => SqlAlreadyExists;
    NamesFrom(ms, r.next);
    if r.next == |ms| {
      AloneEnd(ms, sha, r, db, sql);
    } else {
      AloneRound(ms, sha, r, db, sql);
      var m := ms[r.next];
      FirstRunBaselines(ms, sha, Finish(r, m, true, sha), Db(db.rows[m.name := sha(m.sql)], db.committed));
    }
  }

  /** From an empty table, with every object present already: all names are recorded, no SQL commits. */
  lemma EmptyTableIsBaselined(ms: seq<Migration>, sha: Digest)
    requires DistinctNames(ms)
    requires forall s :: sha(s) != ""
    ensures var empty := Db(map[], []);
            var (r, db) := Alone(ms, sha, Begin(empty), empty, _ => SqlAlreadyExists);
            r.status == Returned && db.committed == [] && db.rows.Keys == Names(ms)
  {
    FirstRunBaselines(ms, sha, Begin(Db(map[], [])), Db(map[], []));
    assert ms[0..] == ms;
  }

  lemma NamesFrom(ms: seq<Migration>, i: nat)
    requires i <= |ms|
    ensures Names(ms[i..]) == if i == |ms| then {} else {ms[i].name} + Names(ms[i + 1..])
  {
    if i < |ms| {
      assert ms[i..] == [ms[i]] + ms[i + 1..];
      forall x ensures x in Names(ms[i..]) <==> x == ms[i].name || x in Names(ms[i + 1..]) {
        var rest := ms[i + 1..];
        if x == ms[i].name { assert ms[i..][0].name == x; }
        if x in Names(rest) {
          var j :| 0 <= j < |rest| && rest[j].name == x;
          assert ms[i..][j + 1].name == x;
        }
      }
    }
  }

  // ---------------------------------------------------------------- restarting

  predicate DistinctNames(ms: seq<Migration>) {
    forall i, j :: 0 <= i < j < |ms| ==> ms[i].name != ms[j].name
  }

  /** Whatever is recorded under the name of a file has the checksum of that file. */
  ghost predicate Unchanged(ms: seq<Migration>, sha: Digest, rows: map<string, string>) {
    forall i :: 0 <= i < |ms| && ms[i].name in rows ==> rows[ms[i].name] == sha(ms[i].sql)
  }

  /** A run from an empty table records no other checksums than those of the files. */
  lemma {:induction false} RowsAreUnchangedFiles(ms: seq<Migration>, sha: Digest, events: seq<Event>)
    requires DistinctNames(ms)
    ensures Unchanged(ms, sha, Play(ms, sha, Db(map[], []), events).db.rows)
  {
    hide Play, Known;
    var empty := Db(map[], []);
    PlayUnfolds(ms, sha, empty, events);
    if events != [] {
      RowsAreUnchangedFiles(ms, sha, events[..|events| - 1]);
    }
  }

  lemma PlayUnfolds(ms: seq<Migration>, sha: Digest, db: Db, events: seq<Event>)
    ensures Play(ms, sha, db, events) ==
            if events == [] then World(db, [])
            else React(ms, sha, Play(ms, sha, db, events[..|events| - 1]), events[|events| - 1])
  {}

  lemma {:induction false} PlayKeepsRows(ms: seq<Migration>, sha: Digest, db: Db, events: seq<Event>)
    ensures RowsKept(db, Play(ms, sha, db, events).db)
  {
    hide React;
    if events != [] {
      var k := |events| - 1;
      PlayKeepsRows(ms, sha, db, events[..k]);
      RunnersAreSound(ms, sha, db, events[..k]);
      ReactKeepsRunners(ms, sha, Play(ms, sha, db, events[..k]), events[k]);
    }
  }

  /** What a lone runner still has ahead of it is recorded exactly when its snapshot knows it. */
  ghost predicate AheadAsKnown(ms: seq<Migration>, sha: Digest, r: Runner, db: Db) {
    && r.next <= |ms| && r.phase == Ready && r.status == Running
    && forall i :: r.next <= i < |ms| ==>
         if ms[i].name in db.rows then Known(r, ms[i].name) == sha(ms[i].sql) else Known(r, ms[i].name) == ""
  }

  lemma {:induction false} LoneRunnerReturns(ms: seq<Migration>, sha: Digest, r: Runner, db: Db)
    requires DistinctNames(ms) && (forall s :: sha(s) != "") && AheadAsKnown(ms, sha, r, db)
    ensures Alone(ms, sha, r, db, _ => SqlOk).0.status == Returned
    decreases |ms| - r.next
  {
    hide Alone;
    var sql := _ => SqlOk;
    if r.next == |ms| {
      AloneEnd(ms, sha, r, db, sql);
    } else {
      AloneRound(ms, sha, r, db, sql);
      var m := ms[r.next];
      if m.name in db.rows {
        LoneRunnerReturns(ms, sha, Finish(r, m, false, sha), db);
      } else {
        LoneRunnerReturns(ms, sha, Finish(r, m, true, sha), Db(db.rows[m.name := sha(m.sql)], db.committed + [m.name]));
      }
    }
  }

  /** A fresh run whose SQL succeeds returns exactly when no recorded file has changed, and then the whole
      list is recorded. */
  lemma FreshRunReturns(ms: seq<Migration>, sha: Digest, db: Db)
    requires DistinctNames(ms) && forall s :: sha(s) != ""
    ensures var (r, db') := Alone(ms, sha, Begin(db), db, _ => SqlOk);
            && (r.status == Returned <==> Unchanged(ms, sha, db.rows))
            && (r.status == Returned ==> Complete(ms, sha, db'.rows))
  {
    hide Play, Alone;
    var sql := _ => SqlOk;
    var (r, db') := Alone(ms, sha, Begin(db), db, sql);
    if Unchanged(ms, sha, db.rows) {
      LoneRunnerReturns(ms, sha, Begin(db), db);
    }
    OneStart(ms, sha, db);
    var all := AloneIsAPlay(ms, sha, Begin(db), db, sql, db, [Start]);
    PlayKeepsRows(ms, sha, db, all);
    if r.status == Returned {
      ReturnedRunsAreComplete(ms, sha, db, all, 0);
    }
  }

  lemma OneStart(ms: seq<Migration>, sha: Digest, db: Db)
    ensures Play(ms, sha, db, [Start]) == World(db, [Begin(db)])
  {
    assert [Start][..0] == [];
  }

  /** Restarting finishes: after any interleaving of runners, failures and crashes from an empty table, a
      fresh run whose SQL succeeds returns and leaves the whole list recorded. */
  lemma RestartFinishes(ms: seq<Migration>, sha: Digest, events: seq<Event>)
    requires DistinctNames(ms) && forall s :: sha(s) != ""
    ensures var db := Play(ms, sha, Db(map[], []), events).db;
            var (r, db') := Alone(ms, sha, Begin(db), db, _ => SqlOk);
            r.status == Returned && Complete(ms, sha, db'.rows)
  {
    hide Play, Alone;
    RowsAreUnchangedFiles(ms, sha, events);
    FreshRunReturns(ms, sha, Play(ms, sha, Db(map[], []), events).db);
  }

  predicate AllValid(ms: seq<Migration>) {
    forall i :: 0 <= i < |ms| ==> ValidName(ms[i].name)
  }

  /** The first name of the sorted list that does not fit the expected format. */
  ghost predicate FirstInvalid(ms: seq<Migration>, name: string) {
    exists i :: 0 <= i < |ms| && ms[i].name == name && !ValidName(name) && AllValid(ms[..i])
  }

  /** The migrations of `input`, with their names in order. */
  ghost predicate IsSortedByName(ms: seq<Migration>, input: seq<Migration>, le: (string, string) -> bool) {
    multiset(ms) == multiset(input) && forall i, j :: 0 <= i < j < |ms| ==> le(ms[i].name, ms[j].name)
  }

  /** Sorting keeps every migration and puts their names in order. */
  lemma NamesAreSorted(input: seq<Migration>, le: (string, string) -> bool)
    requires TotalPreorder(le)
    ensures IsSortedByName(Sort(input, ByName(le)), input, le)
  {
    hide Sort;
    var order := ByName(le);
    assert TotalPreorder(order) by {
      assert forall a, b :: order(a, b) == le(a.name, b.name);
      forall a, b ensures order(a, b) || order(b, a) { assert le(a.name, b.name) || le(b.name, a.name); }
      forall a, b, c | order(a, b) && order(b, c) ensures order(a, c) {
        assert le(a.name, b.name) && le(b.name, c.name);
      }
    }
    SortIsPermutation(input, order);
    SortIsSorted(input, order);
    assert forall a, b :: order(a, b) ==> le(a.name, b.name);
  }

  /** `normalizeMigrations` for inline migrations: sort by name, then refuse the first bad name. */
  method NormalizeMigrations(input: seq<Migration>, le: (string, string) -> bool)
    returns (r: Result<seq<Migration>, Failure>)
    ensures var sorted := Sort(input, ByName(le));
            match r
            case Ok(ms) => ms == sorted && AllValid(sorted)
            case Err(f) => f.InvalidName? && FirstInvalid(sorted, f.name)
    ensures TotalPreorder(le) && r.Ok? ==> IsSortedByName(r.value, input, le)
  {
    if TotalPreorder(le) { NamesAreSorted(input, le); }
    var sorted := Sort(input, ByName(le));
    for k := 0 to |sorted|
      invariant AllValid(sorted[..k])
    {
      if !ValidName(sorted[k].name) {
        return Err(InvalidName(sorted[k].name));
      }
    }
    assert sorted[..|sorted|] == sorted;
    return Ok(sorted);
  }

  /** The tenant database, as one session sees it. */
  class TenantDatabase {
    var rows: map<string, string>
    var committed: seq<string>

    function State(): Db
      reads this
    {
      Db(rows, committed)
    }

    /** `db.begin`: the SQL and the row commit together, or neither does. */
    method Transaction(name: string, checksum: string, outcome: SqlOutcome)
      returns (result: SqlOutcome, duplicate: bool)
      modifies this
      ensures duplicate == (outcome == SqlOk && name in old(rows))
      ensures result == if duplicate then SqlError else outcome
      ensures State() == if result == SqlOk then Db(old(rows)[name := checksum], old(committed) + [name])
                         else old(State())
    {
      duplicate := outcome == SqlOk && name in rows;
      result := if duplicate then SqlError else outcome;
      if result == SqlOk {
        rows := rows[name := checksum];
        committed := committed + [name];
      }
    }

    /** `applyMigrations` without other runners: the loop ends in the state of the lone runner. */
    method ApplyMigrations(input: seq<Migration>, le: (string, string) -> bool, sha: Digest, sql: nat -> SqlOutcome)
      returns (r: Result<seq<MigrationResult>, Failure>)
      modifies this
      ensures var ms := Sort(input, ByName(le));
              var (runner, db) := Alone(ms, sha, Begin(old(State())), old(State()), sql);
              if AllValid(ms) then
                State() == db &&
                match r
                case Ok(results) => runner.status == Returned && results == runner.results
                case Err(f) => runner.status == Threw(f)
              else
                State() == old(State()) && r.Err? && r.error.InvalidName? && FirstInvalid(ms, r.error.name)
    {
      hide Sort, Alone, Step, ValidName, IsSortedByName, TotalPreorder;
      var normalized := NormalizeMigrations(input, le);
      if normalized.Err? { return Err(normalized.error); }
      var migrations := normalized.value;
      var appliedMap := rows;
      var isBaseline := |appliedMap| == 0;
      var results := [];
      ghost var start := State();
      for k := 0 to |migrations|
        invariant |results| == k
        invariant Alone(migrations, sha, Runner(appliedMap, isBaseline, k, Ready, results, Running), State(), sql) ==
                  Alone(migrations, sha, Begin(start), start, sql)
      {
        AloneRound(migrations, sha, Runner(appliedMap, isBaseline, k, Ready, results, Running), State(), sql);
        var migration := migrations[k];
        var checksum := sha(migration.sql);
        var existingChecksum := if migration.name in appliedMap then appliedMap[migration.name] else "";
        if existingChecksum != "" {
          if existingChecksum != checksum {
            return Err(Modified(migration.name));
          }
          results := results + [MigrationResult(migration.name, false, checksum)];
          continue;
        }
        var outcome, duplicate := Transaction(migration.name, checksum, sql(k));
        if outcome != SqlOk {
          if duplicate { return Err(DuplicateKey(migration.name)); }
          if isBaseline && outcome == SqlAlreadyExists {
            if migration.name in rows { return Err(DuplicateKey(migration.name)); }
            rows := rows[migration.name := checksum];
          } else {
            return Err(SqlFailed(migration.name));
          }
        }
        results := results + [MigrationResult(migration.name, true, checksum)];
      }
      AloneEnd(migrations, sha, Runner(appliedMap, isBaseline, |migrations|, Ready, results, Running), State(), sql);
      return Ok(results);
    }
  }
}
