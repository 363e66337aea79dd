/** Recomputing receipts (`apps/api/src/billing/receipts-admin.service.ts`): one loop over the attempts
    with three caches in front of the lookups. The reference looks everything up afresh for each row. */
module Receipts {
  import opened Text

  datatype Row = Row(attemptId: string, orgId: string, projectId: string, endedAt: Option<int>, hasReceipt: bool,
      details: string)

  datatype Billing = Billing(currency: Option<string>, markupPct: real, rateCardName: string)
  datatype RateCard = RateCard(name: string, version: int, rates: string)
  datatype Fx = Fx(rate: string, fetchedAt: string, source: string)

  /** A query that may throw. */
  type Lookup<!T> = string -> Result<T, string>

  /** What the database and the pricing functions answer, fixed for one recomputation. A query gives
      `None` when it finds no row; a manifest may also be found without defaults. */
  datatype Services = Services(
    findOrg: Lookup<Option<string>>,
    resolveBilling: Option<string> -> Result<Billing, string>,
    findRateCard: (string, int) -> Result<Option<RateCard>, string>,
    defaultRateCard: RateCard,
    lower: string -> string,
    findFx: Lookup<Option<Fx>>,
    findManifest: Lookup<Option<Option<string>>>,
    listLogs: Lookup<seq<string>>,
    assemble: (Row, Billing, RateCard, Option<Fx>, Option<string>, seq<string>) -> Result<string, string>,
    updateReceipt: (string, string) -> Result<(), string>)

  // ---------------------------------------------------------------- the reference

  function FreshBilling(s: Services, org: string): Result<Billing, string> {
    match s.findOrg(org)
    case Err(e) => Err(e)
    case Ok(config) => s.resolveBilling(config)
  }

  function Currency(s: Services, b: Billing): string {
    s.lower(match b.currency case Some(c) => c case None => "usd")
  }

  /** No rate is needed for US dollars; elsewhere a missing rate is a result, not a failure. */
  function FreshFx(s: Services, currency: string): Result<Option<Fx>, string> {
    if currency == "usd" then Ok(None) else s.findFx(currency)
  }

  function FreshManifest(s: Services, project: string): Result<Option<string>, string> {
    match s.findManifest(project)
    case Err(e) => Err(e)
    case Ok(None) => Ok(None)
    case Ok(Some(defaults)) => Ok(defaults)
  }

  function FreshRateCard(s: Services, name: string, at: int): Result<RateCard, string> {
    match s.findRateCard(name, at)
    case Err(e) => Err(e)
    case Ok(None) => Ok(s.defaultRateCard)
    case Ok(Some(card)) => Ok(card)
  }

  datatype Outcome = Skipped | Updated(receipt: string) | Failed(error: string)

  predicate IsSkipped(row: Row, force: bool) {
    (!force && row.hasReceipt) || row.endedAt.None?
  }

  /** One row, with every lookup done afresh, in the order of the source. */
  function FreshOutcome(s: Services, row: Row, force: bool, dryRun: bool): Outcome {
    if IsSkipped(row, force) then Skipped else FreshAttempt(s, row, dryRun)
  }

  function FreshAttempt(s: Services, row: Row, dryRun: bool): Outcome
    requires row.endedAt.Some?
  {
    match FreshBilling(s, row.orgId)
    case Err(e) => Failed(e)
    case Ok(billing) =>
      match FreshRateCard(s, billing.rateCardName, row.endedAt.value)
      case Err(e) => Failed(e)
      case Ok(card) =>
        match FreshFx(s, Currency(s, billing))
        case Err(e) => Failed(e)
        case Ok(fx) =>
          match FreshManifest(s, row.projectId)
          case Err(e) => Failed(e)
          case Ok(defaults) => Finish(s, row, billing, card, fx, defaults, dryRun)
  }

  function Finish(s: Services, row: Row, billing: Billing, card: RateCard, fx: Option<Fx>,
      defaults: Option<string>, dryRun: bool): Outcome {
    match s.listLogs(row.attemptId)
    case Err(e) => Failed(e)
    case Ok(logs) =>
      match s.assemble(row, billing, card, fx, defaults, logs)
      case Err(e) => Failed(e)
      case Ok(receipt) =>
        if dryRun then Updated(receipt)
        else match s.updateReceipt(row.attemptId, receipt)
             case Err(e) => Failed(e)
             case Ok(_) => Updated(receipt)
  }

  datatype Report = Report(updated: nat, skipped: nat, errors: seq<(string, string)>)

  function Add(r: Report, row: Row, o: Outcome): Report {
    match o
    case Skipped => r.(skipped := r.skipped + 1)
    case Failed(e) => r.(errors := r.errors + [(row.attemptId, e)])
    case Updated(receipt) => r.(updated := r.updated + 1)
  }

  function FreshReport(s: Services, rows: seq<Row>, force: bool, dryRun: bool): Report {
    if rows == [] then Report(0, 0, [])
    else
      var n := |rows| - 1;
      Add(FreshReport(s, rows[..n], force, dryRun), rows[n], FreshOutcome(s, rows[n], force, dryRun))
  }

  function Write(row: Row, o: Outcome, dryRun: bool): seq<(string, string)> {
    if o.Updated? && !dryRun then [(row.attemptId, o.receipt)] else []
  }

  /** The receipts written, in order. */
  function FreshWrites(s: Services, rows: seq<Row>, force: bool, dryRun: bool): seq<(string, string)> {
    if rows == [] then []
    else
      var n := |rows| - 1;
      FreshWrites(s, rows[..n], force, dryRun) + Write(rows[n], FreshOutcome(s, rows[n], force, dryRun), dryRun)
  }

  /** Every scanned row is counted once; outside a dry run the writes are the updates, and a dry run
      writes nothing. */
  lemma {:induction false} CountsAddUp(s: Services, rows: seq<Row>, force: bool, dryRun: bool)
    ensures var r := FreshReport(s, rows, force, dryRun);
            && r.updated + r.skipped + |r.errors| == |rows|
            && |FreshWrites(s, rows, force, dryRun)| == if dryRun then 0 else r.updated
  {
    if rows != [] { CountsAddUp(s, rows[..|rows| - 1], force, dryRun); }
  }

  // ---------------------------------------------------------------- the reference in terms of the services

  ghost predicate IsCard(s: Services, name: string, at: int, card: RateCard) {
    s.findRateCard(name, at) == Ok(Some(card)) || (s.findRateCard(name, at) == Ok(None) && card == s.defaultRateCard)
  }

  /** Every currency but US dollars is looked up, in lower case; dollars are the default. */
  ghost predicate IsFx(s: Services, billing: Billing, fx: Option<Fx>) {
    var currency := s.lower(if billing.currency.Some? then billing.currency.value else "usd");
    if currency == "usd" then fx == None else s.findFx(currency) == Ok(fx)
  }

  ghost predicate AreDefaults(s: Services, project: string, defaults: Option<string>) {
    s.findManifest(project) == Ok(Some(defaults)) || (s.findManifest(project) == Ok(None) && defaults == None)
  }

  ghost predicate IsBilling(s: Services, org: string, billing: Billing) {
    s.findOrg(org).Ok? && s.resolveBilling(s.findOrg(org).value) == Ok(billing)
  }

  /** The receipt of a row: assembled from the billing of its organisation, the card in force when it
      ended, the rate of the billing currency, the defaults of its project and its logs. */
  ghost predicate IsReceipt(s: Services, row: Row, receipt: string)
    requires row.endedAt.Some?
  {
    exists billing, card, fx, defaults, logs ::
      && IsBilling(s, row.orgId, billing)
      && IsCard(s, billing.rateCardName, row.endedAt.value, card)
      && IsFx(s, billing, fx)
      && AreDefaults(s, row.projectId, defaults)
      && s.listLogs(row.attemptId) == Ok(logs)
      && s.assemble(row, billing, card, fx, defaults, logs) == Ok(receipt)
  }

  /** What becomes of a row: it is skipped when it has a receipt and none is forced, or has not ended; it is
      updated with its receipt when there is one and, outside a dry run, it can be stored. */
  lemma OutcomeMeaning(s: Services, row: Row, force: bool, dryRun: bool, receipt: string)
    ensures var o := FreshOutcome(s, row, force, dryRun);
            && (o == Skipped <==> (row.hasReceipt && !force) || row.endedAt == None)
            && (o == Updated(receipt) <==>
                  o != Skipped && IsReceipt(s, row, receipt)
                  && (dryRun || s.updateReceipt(row.attemptId, receipt).Ok?))
  {
    hide IsReceipt;
    if !IsSkipped(row, force) {
      if IsReceipt(s, row, receipt) { ReceiptIsFresh(s, row, dryRun, receipt); }
      if FreshAttempt(s, row, dryRun) == Updated(receipt) { FreshIsReceipt(s, row, dryRun, receipt); }
    }
  }

  lemma ReceiptIsFresh(s: Services, row: Row, dryRun: bool, receipt: string)
    requires row.endedAt.Some? && IsReceipt(s, row, receipt)
    ensures FreshAttempt(s, row, dryRun) ==
            if dryRun then Updated(receipt)
            else match s.updateReceipt(row.attemptId, receipt) case Ok(_) => Updated(receipt) case Err(e) => Failed(e)
  {}

  lemma FreshIsReceipt(s: Services, row: Row, dryRun: bool, receipt: string)
    requires row.endedAt.Some? && FreshAttempt(s, row, dryRun) == Updated(receipt)
    ensures IsReceipt(s, row, receipt) && (dryRun || s.updateReceipt(row.attemptId, receipt).Ok?)
  {
    var billing := FreshBilling(s, row.orgId).value;
    var card := FreshRateCard(s, billing.rateCardName, row.endedAt.value).value;
    var fx := FreshFx(s, Currency(s, billing)).value;
    var defaults := FreshManifest(s, row.projectId).value;
    var logs := s.listLogs(row.attemptId).value;
    assert IsBilling(s, row.orgId, billing) && IsCard(s, billing.rateCardName, row.endedAt.value, card);
    assert IsFx(s, billing, fx) && AreDefaults(s, row.projectId, defaults);
    assert s.assemble(row, billing, card, fx, defaults, logs) == Ok(receipt);
  }

  /** Everything before the logs is there: billing, card, rate and defaults. */
  ghost predicate ArePriced(s: Services, row: Row, billing: Billing, card: RateCard, fx: Option<Fx>,
      defaults: Option<string>)
    requires row.endedAt.Some?
  {
    && IsBilling(s, row.orgId, billing) && IsCard(s, billing.rateCardName, row.endedAt.value, card)
    && IsFx(s, billing, fx) && AreDefaults(s, row.projectId, defaults)
  }

  /** The first call that throws for a row, in the order of the calls. */
  ghost predicate ThrowsFirst(s: Services, row: Row, dryRun: bool, e: string)
    requires row.endedAt.Some?
  {
    || s.findOrg(row.orgId) == Err(e)
    || (s.findOrg(row.orgId).Ok? && s.resolveBilling(s.findOrg(row.orgId).value) == Err(e))
    || (exists billing :: IsBilling(s, row.orgId, billing) &&
          (s.findRateCard(billing.rateCardName, row.endedAt.value) == Err(e) ||
           (s.findRateCard(billing.rateCardName, row.endedAt.value).Ok? && FxThrows(s, billing, e))))
    || (exists billing, fx :: IsBilling(s, row.orgId, billing) && IsFx(s, billing, fx)
                              && s.findRateCard(billing.rateCardName, row.endedAt.value).Ok?
                              && s.findManifest(row.projectId) == Err(e))
    || (exists billing, card, fx, defaults :: ArePriced(s, row, billing, card, fx, defaults) &&
          (s.listLogs(row.attemptId) == Err(e) ||
           (s.listLogs(row.attemptId).Ok? &&
            var assembled := s.assemble(row, billing, card, fx, defaults, s.listLogs(row.attemptId).value);
            assembled == Err(e) ||
            (!dryRun && assembled.Ok? && s.updateReceipt(row.attemptId, assembled.value) == Err(e)))))
  }

  ghost predicate FxThrows(s: Services, billing: Billing, e: string) {
    var currency := s.lower(if billing.currency.Some? then billing.currency.value else "usd");
    currency != "usd" && s.findFx(currency) == Err(e)
  }

  /** A row fails with the error of the first call that throws. */
  lemma FailureMeaning(s: Services, row: Row, force: bool, dryRun: bool, e: string)
    ensures FreshOutcome(s, row, force, dryRun) == Failed(e) <==>
            !IsSkipped(row, force) && ThrowsFirst(s, row, dryRun, e)
  {
    if !IsSkipped(row, force) && FreshOutcome(s, row, force, dryRun) == Failed(e) {
      FailureIsFirst(s, row, dryRun, e);
    }
  }

  lemma FailureIsFirst(s: Services, row: Row, dryRun: bool, e: string)
    requires row.endedAt.Some? && FreshAttempt(s, row, dryRun) == Failed(e)
    ensures ThrowsFirst(s, row, dryRun, e)
  {
    if FreshBilling(s, row.orgId).Ok? {
      var billing := FreshBilling(s, row.orgId).value;
      assert IsBilling(s, row.orgId, billing);
      var card := FreshRateCard(s, billing.rateCardName, row.endedAt.value);
      var fx := FreshFx(s, Currency(s, billing));
      var defaults := FreshManifest(s, row.projectId);
      if card.Ok? && fx.Ok? {
        assert IsFx(s, billing, fx.value);
        if defaults.Ok? {
          assert ArePriced(s, row, billing, card.value, fx.value, defaults.value);
        }
      }
    }
  }

  function Fails(s: Services, rows: seq<Row>, force: bool, dryRun: bool): nat -> bool {
    (k: nat) => k < |rows| && FreshOutcome(s, rows[k], force, dryRun).Failed?
  }

  function Updates(s: Services, rows: seq<Row>, force: bool, dryRun: bool): nat -> bool {
    (k: nat) => k < |rows| && FreshOutcome(s, rows[k], force, dryRun).Updated?
  }

  /** The errors of a report are those of the failing rows, in order, each under the attempt of its row. */
  lemma {:induction false} ErrorsAre(s: Services, rows: seq<Row>, force: bool, dryRun: bool) returns (idx: seq<nat>)
    ensures Picks(idx, |rows|, Fails(s, rows, force, dryRun))
    ensures var errors := FreshReport(s, rows, force, dryRun).errors;
            |errors| == |idx| && forall j :: 0 <= j < |idx| ==>
              idx[j] < |rows| && errors[j].0 == rows[idx[j]].attemptId
              && FreshOutcome(s, rows[idx[j]], force, dryRun) == Failed(errors[j].1)
  {
    hide Picks, FreshOutcome;
    if rows == [] {
      idx := [];
      PicksNone(Fails(s, rows, force, dryRun));
    } else {
      var n := |rows| - 1;
      idx := ErrorsAre(s, rows[..n], force, dryRun);
      PicksMore(idx, n, Fails(s, rows[..n], force, dryRun), Fails(s, rows, force, dryRun));
      idx := if FreshOutcome(s, rows[n], force, dryRun).Failed? then idx + [n] else idx;
    }
  }

  /** The updated rows are counted, and outside a dry run their receipts are written, in order and each under
      the attempt of its row. */
  lemma {:induction false} WritesAre(s: Services, rows: seq<Row>, force: bool, dryRun: bool) returns (idx: seq<nat>)
    ensures Picks(idx, |rows|, Updates(s, rows, force, dryRun))
    ensures FreshReport(s, rows, force, dryRun).updated == |idx|
    ensures var writes := FreshWrites(s, rows, force, dryRun);
            if dryRun then writes == [] else
              |writes| == |idx| && forall j :: 0 <= j < |idx| ==>
                idx[j] < |rows| && writes[j].0 == rows[idx[j]].attemptId
                && FreshOutcome(s, rows[idx[j]], force, dryRun) == Updated(writes[j].1)
  {
    hide Picks, FreshOutcome;
    if rows == [] {
      idx := [];
      PicksNone(Updates(s, rows, force, dryRun));
    } else {
      var n := |rows| - 1;
      idx := WritesAre(s, rows[..n], force, dryRun);
      PicksMore(idx, n, Updates(s, rows[..n], force, dryRun), Updates(s, rows, force, dryRun));
      idx := if FreshOutcome(s, rows[n], force, dryRun).Updated? then idx + [n] else idx;
    }
  }

  // ---------------------------------------------------------------- what the database is asked

  /** Keys of the three cached queries, in the order they come up. */
  datatype Keys = Keys(orgs: seq<string>, rates: seq<string>, manifests: seq<string>)

  function Plus(a: Keys, b: Keys): Keys {
    Keys(a.orgs + b.orgs, a.rates + b.rates, a.manifests + b.manifests)
  }

  /** The keys one attempt needs: it stops at the first lookup that throws. */
  function AttemptKeys(s: Services, row: Row): Keys
    requires row.endedAt.Some?
  {
    var billing := FreshBilling(s, row.orgId);
    if billing.Err? || FreshRateCard(s, billing.value.rateCardName, row.endedAt.value).Err?
    then Keys([row.orgId], [], [])
    else
      var currency := Currency(s, billing.value);
      Keys([row.orgId], [currency], if FreshFx(s, currency).Err? then [] else [row.projectId])
  }

  function Needs(s: Services, rows: seq<Row>, force: bool): Keys {
    if rows == [] then Keys([], [], [])
    else
      var n := |rows| - 1;
      Plus(Needs(s, rows[..n], force),
           if IsSkipped(rows[n], force) then Keys([], [], []) else AttemptKeys(s, rows[n]))
  }

  /** The keys of `keys` that a cache lets through: those without an answer so far. `free` keys are
      answered without the database. */
  function Misses<T>(keys: seq<string>, lookup: Lookup<T>, free: set<string>): seq<string> {
    if keys == [] then []
    else
      var n := |keys| - 1;
      Misses(keys[..n], lookup, free) +
      if keys[n] in free || (keys[n] in keys[..n] && lookup(keys[n]).Ok?) then [] else [keys[n]]
  }

  function BillingOf(s: Services): Lookup<Billing> { k => FreshBilling(s, k) }

  function FxOf(s: Services): Lookup<Option<Fx>> { k => FreshFx(s, k) }

  function ManifestOf(s: Services): Lookup<Option<string>> { k => FreshManifest(s, k) }

  /** What the database is asked when each answer is asked for once. */
  function Reads(s: Services, needs: Keys): Keys {
    Keys(Misses(needs.orgs, BillingOf(s), {}),
         Misses(needs.rates, FxOf(s), {"usd"}),
         Misses(needs.manifests, ManifestOf(s), {}))
  }

  /** A key with an answer, absence included, is read once if it is needed at all; a key whose lookup
      throws is read each time it is needed; free keys are never read. */
  lemma {:induction false} AnswersAreReadOnce<T>(keys: seq<string>, lookup: Lookup<T>, free: set<string>, k: string)
    ensures multiset(Misses(keys, lookup, free))[k] ==
            if k in free then 0
            else if lookup(k).Err? then multiset(keys)[k]
            else if k in keys then 1 else 0
  {
    if keys != [] {
      var n := |keys| - 1;
      AnswersAreReadOnce(keys[..n], lookup, free, k);
      var before, last := Misses(keys[..n], lookup, free), keys[n];
      assert keys == keys[..n] + [last];
      CountOfAppend(keys[..n], last, k);
      CountOfAppend(before, last, k);
    }
  }

  lemma CountOfAppend(s: seq<string>, x: string, k: string)
    ensures multiset(s + [x])[k] == multiset(s)[k] + if x == k then 1 else 0
    ensures k in s <==> multiset(s)[k] > 0
  {}

  /** The cache holds the answers to the keys needed so far, and nothing else. */
  ghost predicate Holds<T(!new)>(cache: map<string, T>, lookup: Lookup<T>, keys: seq<string>) {
    forall k :: (k in cache <==> k in keys && lookup(k).Ok?) && (k in cache ==> lookup(k) == Ok(cache[k]))
  }

  function Remember<T>(cache: map<string, T>, k: string, r: Result<T, string>): map<string, T> {
    if r.Ok? then cache[k := r.value] else cache
  }

  lemma OneMoreKey<T(!new)>(cache: map<string, T>, lookup: Lookup<T>, keys: seq<string>, free: set<string>, k: string)
    requires Holds(cache, lookup, keys)
    ensures k in cache ==> lookup(k) == Ok(cache[k]) && Remember(cache, k, lookup(k)) == cache
    ensures Holds(Remember(cache, k, lookup(k)), lookup, keys + [k])
    ensures Misses(keys + [k], lookup, free) ==
            Misses(keys, lookup, free) + if k in cache || k in free then [] else [k]
  {
    assert (keys + [k])[..|keys|] == keys;
    if k in cache { assert cache[k := cache[k]] == cache; }
  }

  /** The database, which answers as `s` says and keeps the keys it was asked for and the receipts written. */
  class Store {
    const s: Services
    var asked: Keys
    var written: seq<(string, string)>

    constructor (s: Services)
      ensures this.s == s && asked == Keys([], [], []) && written == []
    {
      this.s, asked, written := s, Keys([], [], []), [];
    }

    method FindOrg(id: string) returns (r: Result<Option<string>, string>)
      modifies this`asked
      ensures r == s.findOrg(id) && asked == Plus(old(asked), Keys([id], [], []))
    {
      asked := asked.(orgs := asked.orgs + [id]);
      r := s.findOrg(id);
    }

    method FindFx(currency: string) returns (r: Result<Option<Fx>, string>)
      modifies this`asked
      ensures r == s.findFx(currency) && asked == Plus(old(asked), Keys([], [currency], []))
    {
      asked := asked.(rates := asked.rates + [currency]);
      r := s.findFx(currency);
    }

    method FindManifest(project: string) returns (r: Result<Option<Option<string>>, string>)
      modifies this`asked
      ensures r == s.findManifest(project) && asked == Plus(old(asked), Keys([], [], [project]))
    {
      asked := asked.(manifests := asked.manifests + [project]);
      r := s.findManifest(project);
    }

    method UpdateReceipt(attempt: string, receipt: string) returns (r: Result<(), string>)
      modifies this`written
      ensures r == s.updateReceipt(attempt, receipt)
      ensures written == old(written) + if r.Ok? then [(attempt, receipt)] else []
    {
      r := s.updateReceipt(attempt, receipt);
      if r.Ok? { written := written + [(attempt, receipt)]; }
    }
  }

  // ---------------------------------------------------------------- the loop

  datatype Caches = Caches(orgs: map<string, Billing>, rates: map<string, Option<Fx>>,
      manifests: map<string, Option<string>>)

  ghost predicate Warm(s: Services, c: Caches, needs: Keys) {
    && Holds(c.orgs, BillingOf(s), needs.orgs)
    && Holds(c.rates, FxOf(s), needs.rates)
    && Holds(c.manifests, ManifestOf(s), needs.manifests)
  }

  /** The caches hold exactly the answers needed so far, and since `start` the database was asked for
      exactly those, each once. */
  ghost predicate InStep(db: Store, c: Caches, needs: Keys, start: Keys)
    reads db`asked
  {
    Warm(db.s, c, needs) && db.asked == Plus(start, Reads(db.s, needs))
  }

  /** The organisation's billing, from the cache or from the database; a failed lookup is not cached. */
  method LookUpBilling(db: Store, org: string, c: Caches, ghost needs: Keys, ghost start: Keys)
    returns (r: Result<Billing, string>, c': Caches)
    requires InStep(db, c, needs, start)
    modifies db`asked
    ensures r == FreshBilling(db.s, org) && c' == c.(orgs := Remember(c.orgs, org, r))
    ensures db.asked == if org in c.orgs then old(db.asked) else Plus(old(db.asked), Keys([org], [], []))
    ensures InStep(db, c', Plus(needs, Keys([org], [], [])), start)
  {
    hide Holds, Misses, FreshFx, FreshManifest, Remember;
    OneMoreKey(c.orgs, BillingOf(db.s), needs.orgs, {}, org);
    ghost var more := Keys([org], [], []);
    assert Plus(needs, more) == needs.(orgs := needs.orgs + [org]);
    ghost var read := if org in c.orgs then Keys([], [], []) else more;
    assert Reads(db.s, Plus(needs, more)) == Plus(Reads(db.s, needs), read);
    PlusAssociates(start, Reads(db.s, needs), read);
    NoMoreKeys(db.asked);
    c' := c;
    if org in c.orgs {
      r := Ok(c.orgs[org]);
    } else {
      var config := db.FindOrg(org);
      r := if config.Err? then Err(config.error) else db.s.resolveBilling(config.value);
      c' := c.(orgs := Remember(c.orgs, org, r));
    }
  }

  method LookUpRateCard(s: Services, name: string, at: int) returns (r: Result<RateCard, string>)
    ensures r == FreshRateCard(s, name, at)
  {
    var row := s.findRateCard(name, at);
    match row
    case Err(e) => r := Err(e);
    case Ok(found) =>
      r := Ok(if found.Some? then found.value else s.defaultRateCard);
  }

  /** The exchange rate; a cached `None` is an answer, only an absent key is a miss, and US dollars
      never reach the database. */
  method LookUpFx(db: Store, currency: string, c: Caches, ghost needs: Keys, ghost start: Keys)
    returns (r: Result<Option<Fx>, string>, c': Caches)
    requires InStep(db, c, needs, start)
    modifies db`asked
    ensures r == FreshFx(db.s, currency) && c' == c.(rates := Remember(c.rates, currency, r))
    ensures db.asked == if currency in c.rates || currency == "usd" then old(db.asked)
                        else Plus(old(db.asked), Keys([], [currency], []))
    ensures InStep(db, c', Plus(needs, Keys([], [currency], [])), start)
  {
    hide Holds, Misses, FreshBilling, FreshManifest, Remember;
    OneMoreKey(c.rates, FxOf(db.s), needs.rates, {"usd"}, currency);
    ghost var more := Keys([], [currency], []);
    assert Plus(needs, more) == needs.(rates := needs.rates + [currency]);
    ghost var read := if currency in c.rates || currency == "usd" then Keys([], [], []) else more;
    assert Reads(db.s, Plus(needs, more)) == Plus(Reads(db.s, needs), read);
    PlusAssociates(start, Reads(db.s, needs), read);
    NoMoreKeys(db.asked);
    c' := c;
    if currency in c.rates {
      r := Ok(c.rates[currency]);
    } else {
      if currency == "usd" {
        r := Ok(None);
      } else {
        r := db.FindFx(currency);
      }
      c' := c.(rates := Remember(c.rates, currency, r));
    }
  }

  /** The manifest defaults; again `None` may be a cached answer. */
  method LookUpManifest(db: Store, project: string, c: Caches, ghost needs: Keys, ghost start: Keys)
    returns (r: Result<Option<string>, string>, c': Caches)
    requires InStep(db, c, needs, start)
    modifies db`asked
    ensures r == FreshManifest(db.s, project) && c' == c.(manifests := Remember(c.manifests, project, r))
    ensures db.asked == if project in c.manifests then old(db.asked)
                        else Plus(old(db.asked), Keys([], [], [project]))
    ensures InStep(db, c', Plus(needs, Keys([], [], [project])), start)
  {
    hide Holds, Misses, FreshBilling, FreshFx, Remember;
    OneMoreKey(c.manifests, ManifestOf(db.s), needs.manifests, {}, project);
    ghost var more := Keys([], [], [project]);
    assert Plus(needs, more) == needs.(manifests := needs.manifests + [project]);
    ghost var read := if project in c.manifests then Keys([], [], []) else more;
    assert Reads(db.s, Plus(needs, more)) == Plus(Reads(db.s, needs), read);
    PlusAssociates(start, Reads(db.s, needs), read);
    NoMoreKeys(db.asked);
    c' := c;
    if project in c.manifests {
      r := Ok(c.manifests[project]);
    } else {
      var manifest := db.FindManifest(project);
      match manifest {
        case Err(e) => r := Err(e);
        case Ok(found) => r := Ok(if found.Some? then found.value else None);
      }
      c' := c.(manifests := Remember(c.manifests, project, r));
    }
  }

  method Price(db: Store, row: Row, billing: Billing, card: RateCard, fx: Option<Fx>, defaults: Option<string>,
      dryRun: bool)
    returns (o: Outcome)
    modifies db`written
    ensures o == Finish(db.s, row, billing, card, fx, defaults, dryRun) && !o.Skipped?
    ensures db.written == old(db.written) + Write(row, o, dryRun)
  {
    var logs := db.s.listLogs(row.attemptId);
    if logs.Err? { return Failed(logs.error); }
    var receipt := db.s.assemble(row, billing, card, fx, defaults, logs.value);
    if receipt.Err? { return Failed(receipt.error); }
    if !dryRun {
      var done := db.UpdateReceipt(row.attemptId, receipt.value);
      if done.Err? { return Failed(done.error); }
    }
    return Updated(receipt.value);
  }

  /** The `try` block of one row. */
  method Attempt(db: Store, row: Row, c: Caches, dryRun: bool, ghost needs: Keys, ghost start: Keys)
    returns (o: Outcome, c': Caches)
    requires row.endedAt.Some? && InStep(db, c, needs, start)
    modifies db
    ensures o == FreshAttempt(db.s, row, dryRun) && !o.Skipped?
    ensures InStep(db, c', Plus(needs, AttemptKeys(db.s, row)), start)
    ensures db.written == old(db.written) + Write(row, o, dryRun)
  {
    hide Warm, Reads, FreshBilling, FreshFx, FreshManifest, FreshRateCard, Remember, Finish;
    ghost var keys := needs;
    var billing;
    billing, c' := LookUpBilling(db, row.orgId, c, keys, start);
    keys := Plus(keys, Keys([row.orgId], [], []));
    if billing.Err? { return Failed(billing.error), c'; }
    var card := LookUpRateCard(db.s, billing.value.rateCardName, row.endedAt.value);
    if card.Err? { return Failed(card.error), c'; }
    var currency := Currency(db.s, billing.value);
    var fx;
    fx, c' := LookUpFx(db, currency, c', keys, start);
    keys := Plus(keys, Keys([], [currency], []));
    assert keys == Plus(needs, Keys([row.orgId], [currency], []));
    if fx.Err? { return Failed(fx.error), c'; }
    var defaults;
    defaults, c' := LookUpManifest(db, row.projectId, c', keys, start);
    keys := Plus(keys, Keys([], [], [row.projectId]));
    assert keys == Plus(needs, Keys([row.orgId], [currency], [row.projectId]));
    if defaults.Err? { return Failed(defaults.error), c'; }
    o := Price(db, row, billing.value, card.value, fx.value, defaults.value, dryRun);
  }

  /** The cached loop reports and writes what the uncached reference does, and asks the database for
      exactly the keys that had no answer yet. */
  method Recompute(db: Store, rows: seq<Row>, force: bool, dryRun: bool) returns (report: Report, scanned: nat)
    modifies db
    ensures report == FreshReport(db.s, rows, force, dryRun)
    ensures db.written == old(db.written) + FreshWrites(db.s, rows, force, dryRun)
    ensures db.asked == Plus(old(db.asked), Reads(db.s, Needs(db.s, rows, force)))
    ensures scanned == |rows| && report.updated + report.skipped + |report.errors| == scanned
  {
    hide InStep, FreshAttempt, AttemptKeys, Plus;
    var c := Caches(map[], map[], map[]);
    var errors: seq<(string, string)> := [];
    var updated, skipped := 0, 0;
    ghost var start := db.asked;
    NothingAsked(db, start);
    for k := 0 to |rows|
      invariant Report(updated, skipped, errors) == FreshReport(db.s, rows[..k], force, dryRun)
      invariant db.written == old(db.written) + FreshWrites(db.s, rows[..k], force, dryRun)
      invariant InStep(db, c, Needs(db.s, rows[..k], force), start)
    {
      var row := rows[k];
      ghost var needs := Needs(db.s, rows[..k], force);
      assert rows[..k + 1][..k] == rows[..k];
      NoMoreKeys(needs);
      if !force && row.hasReceipt {
        skipped := skipped + 1;
        continue;
      }
      if row.endedAt.None? {
        skipped := skipped + 1;
        continue;
      }
      var outcome;
      outcome, c := Attempt(db, row, c, dryRun, needs, start);
      match outcome
      case Failed(e) => errors := errors + [(row.attemptId, e)];
      case _ => updated := updated + 1;
    }
    assert rows[..|rows|] == rows;
    CountsAddUp(db.s, rows, force, dryRun);
    report, scanned := Report(updated, skipped, errors), |rows|;
    AskedIs(db, c, Needs(db.s, rows, force), start);
  }

  lemma NothingAsked(db: Store, start: Keys)
    requires db.asked == start
    ensures InStep(db, Caches(map[], map[], map[]), Keys([], [], []), start)
  {}

  lemma PlusAssociates(a: Keys, b: Keys, c: Keys)
    ensures Plus(Plus(a, b), c) == Plus(a, Plus(b, c))
  {}

  lemma NoMoreKeys(needs: Keys)
    ensures Plus(needs, Keys([], [], [])) == needs
  {}

  lemma AskedIs(db: Store, c: Caches, needs: Keys, start: Keys)
    requires InStep(db, c, needs, start)
    ensures db.asked == Plus(start, Reads(db.s, needs))
  {}
}
