/** Cost allocation (`apps/api/src/billing/app-cost.service.ts`): a bill is split over environments in
    proportion to their estimates, then grouped by project and rounded to four decimals. Amounts are
    exact reals. */
module Cost {
  import opened Text

  // ---------------------------------------------------------------- allocation

  datatype EnvRow = EnvRow(environmentId: string, amountUsd: real)

  datatype Method = BillAllocated | OpencostDirect | NoMethod

  datatype Allocation = Allocation(how: Method, factor: Option<real>, overheadUsd: real,
      byEnvironment: map<string, real>)

  /** `Math.max(0, x)`. */
  function Clamp(x: real): (r: real)
    ensures r >= 0.0 && r >= x && (r == 0.0 || r == x)
  {
    if x < 0.0 then 0.0 else x
  }

  function EnvTotal(rows: seq<EnvRow>): (r: real)
    ensures r >= 0.0
  {
    if rows == [] then 0.0 else EnvTotal(rows[..|rows| - 1]) + Clamp(rows[|rows| - 1].amountUsd)
  }

  function Denominator(rows: seq<EnvRow>, sharedUsd: real): real {
    EnvTotal(rows) + Clamp(sharedUsd)
  }

  predicate DistinctEnvironments(rows: seq<EnvRow>) {
    forall i, j :: 0 <= i < j < |rows| ==> rows[i].environmentId != rows[j].environmentId
  }

  function Portion(row: EnvRow, factor: real): real {
    Clamp(row.amountUsd) * factor
  }

  /** `map.set` for every row in turn; a later row replaces an earlier one with the same id. */
  function Shares(rows: seq<EnvRow>, factor: real): map<string, real> {
    if rows == [] then map[]
    else
      var n := |rows| - 1;
      Shares(rows[..n], factor)[rows[n].environmentId := Portion(rows[n], factor)]
  }

  function Allocate(rows: seq<EnvRow>, sharedUsd: real, bill: Option<real>): Allocation {
    if rows == [] && sharedUsd <= 0.0 then
      Allocation(if bill.Some? then BillAllocated else NoMethod, None, if bill.Some? then bill.value else 0.0, map[])
    else if bill.None? || Denominator(rows, sharedUsd) <= 0.0 then
      Allocation(if bill.None? then OpencostDirect else BillAllocated, None, Clamp(sharedUsd), Shares(rows, 1.0))
    else
      var factor := bill.value / Denominator(rows, sharedUsd);
      Allocation(BillAllocated, Some(factor), Clamp(sharedUsd) * factor, Shares(rows, factor))
  }

  function IdsOf(rows: seq<EnvRow>): set<string> {
    set i | 0 <= i < |rows| :: rows[i].environmentId
  }

  /** An amount before allocation and what is charged for it: a bill is split in proportion to the clamped
      amounts when there is something to divide by; otherwise the clamped amount itself is charged. */
  predicate IsCharge(charge: real, amountUsd: real, total: real, bill: Option<real>) {
    if bill.None? || total <= 0.0 then charge == Clamp(amountUsd)
    else charge * total == Clamp(amountUsd) * bill.value
  }

  predicate IsLastWithId(rows: seq<EnvRow>, k: nat)
    requires k < |rows|
  {
    forall j :: k < j < |rows| ==> rows[j].environmentId != rows[k].environmentId
  }

  /** What an allocation is, environment by environment; of several rows with one id the last counts. */
  ghost predicate IsAllocation(a: Allocation, rows: seq<EnvRow>, sharedUsd: real, bill: Option<real>) {
    var total, nothing := Denominator(rows, sharedUsd), rows == [] && sharedUsd <= 0.0;
    && (a.how == BillAllocated <==> bill.Some?)
    && (a.how == NoMethod <==> bill.None? && nothing)
    && (a.factor.Some? <==> bill.Some? && total > 0.0)
    && (a.factor.Some? ==> a.factor.value * total == bill.value)
    && a.byEnvironment.Keys == IdsOf(rows)
    && (forall k :: 0 <= k < |rows| && IsLastWithId(rows, k) ==>
          rows[k].environmentId in a.byEnvironment
          && IsCharge(a.byEnvironment[rows[k].environmentId], rows[k].amountUsd, total, bill))
    && if nothing then a.overheadUsd == match bill case Some(b) => b case None => 0.0
       else IsCharge(a.overheadUsd, sharedUsd, total, bill)
  }

  lemma {:induction false} SharesAreLast(rows: seq<EnvRow>, factor: real, k: nat)
    requires k < |rows| && IsLastWithId(rows, k)
    ensures var id := rows[k].environmentId;
            id in Shares(rows, factor) && Shares(rows, factor)[id] == Clamp(rows[k].amountUsd) * factor
  {
    hide Clamp;
    var n := |rows| - 1;
    if k < n {
      assert rows[n].environmentId != rows[k].environmentId;
      assert rows[..n][k] == rows[k];
      assert IsLastWithId(rows[..n], k);
      SharesAreLast(rows[..n], factor, k);
    }
  }

  lemma {:induction false} SharedIds(rows: seq<EnvRow>, factor: real)
    ensures Shares(rows, factor).Keys == IdsOf(rows)
  {
    hide Portion;
    if rows != [] {
      var n := |rows| - 1;
      SharedIds(rows[..n], factor);
      assert IdsOf(rows) == IdsOf(rows[..n]) + {rows[n].environmentId};
    }
  }

  lemma ChargeOfShare(charge: real, amountUsd: real, factor: real, total: real, bill: Option<real>)
    requires charge == Clamp(amountUsd) * factor
    requires if bill.None? || total <= 0.0 then factor == 1.0 else factor * total == bill.value
    ensures IsCharge(charge, amountUsd, total, bill)
  {
    var x := Clamp(amountUsd);
    assert x * factor * total == x * (factor * total);
  }

  lemma SharesAreCharges(rows: seq<EnvRow>, factor: real, total: real, bill: Option<real>)
    requires if bill.None? || total <= 0.0 then factor == 1.0 else factor * total == bill.value
    ensures forall k :: 0 <= k < |rows| && IsLastWithId(rows, k) ==>
              rows[k].environmentId in Shares(rows, factor)
              && IsCharge(Shares(rows, factor)[rows[k].environmentId], rows[k].amountUsd, total, bill)
  {
    hide IsLastWithId, Shares, IsCharge;
    forall k | 0 <= k < |rows| && IsLastWithId(rows, k)
      ensures rows[k].environmentId in Shares(rows, factor)
              && IsCharge(Shares(rows, factor)[rows[k].environmentId], rows[k].amountUsd, total, bill)
    {
      SharesAreLast(rows, factor, k);
      ChargeOfShare(Shares(rows, factor)[rows[k].environmentId], rows[k].amountUsd, factor, total, bill);
    }
  }

  /** Every environment is charged its own part, and the overhead is the part of the shared cost. */
  lemma AllocationIsExact(rows: seq<EnvRow>, sharedUsd: real, bill: Option<real>)
    ensures IsAllocation(Allocate(rows, sharedUsd, bill), rows, sharedUsd, bill)
  {
    hide IsLastWithId, IdsOf, Clamp, EnvTotal, Denominator, Shares, IsCharge;
    var total := Denominator(rows, sharedUsd);
    if rows == [] && sharedUsd <= 0.0 {
      NothingToDivide(sharedUsd);
    } else {
      var factor := if bill.None? || total <= 0.0 then 1.0 else bill.value / total;
      SharesAreCharges(rows, factor, total, bill);
      SharedIds(rows, factor);
      ChargeOfShare(Allocate(rows, sharedUsd, bill).overheadUsd, sharedUsd, factor, total, bill);
    }
  }

  lemma NothingToDivide(sharedUsd: real)
    requires sharedUsd <= 0.0
    ensures Denominator([], sharedUsd) == 0.0 && IdsOf([]) == {}
  {}

  method AllocateAppCosts(rows: seq<EnvRow>, sharedUsd: real, bill: Option<real>) returns (r: Allocation)
    ensures r == Allocate(rows, sharedUsd, bill) && IsAllocation(r, rows, sharedUsd, bill)
  {
    AllocationIsExact(rows, sharedUsd, bill);
    hide IsAllocation;
    hide Portion;
    var envTotal := 0.0;
    for k := 0 to |rows|
      invariant envTotal == EnvTotal(rows[..k])
    {
      assert rows[..k + 1][..k] == rows[..k];
      envTotal := envTotal + Clamp(rows[k].amountUsd);
    }
    assert rows[..|rows|] == rows;
    var denominator := envTotal + Clamp(sharedUsd);
    if |rows| == 0 && sharedUsd <= 0.0 {
      return Allocation(if bill.Some? then BillAllocated else NoMethod, None,
                        if bill.Some? then bill.value else 0.0, map[]);
    }
    var direct := bill.None? || denominator <= 0.0;
    var factor := if direct then 1.0 else bill.value / denominator;
    var byEnvironment: map<string, real> := map[];
    for k := 0 to |rows|
      invariant byEnvironment == Shares(rows[..k], factor)
    {
      assert rows[..k + 1][..k] == rows[..k] && rows[..k + 1][k] == rows[k];
      var row := rows[k];
      byEnvironment := byEnvironment[row.environmentId := Portion(row, factor)];
    }
    if direct {
      return Allocation(if bill.None? then OpencostDirect else BillAllocated, None, Clamp(sharedUsd), byEnvironment);
    }
    return Allocation(BillAllocated, Some(factor), Clamp(sharedUsd) * factor, byEnvironment);
  }

  function ShareOf(m: map<string, real>, id: string): real {
    if id in m then m[id] else 0.0
  }

  /** What all rows together are charged. */
  function Charged(rows: seq<EnvRow>, m: map<string, real>): real {
    if rows == [] then 0.0 else Charged(rows[..|rows| - 1], m) + ShareOf(m, rows[|rows| - 1].environmentId)
  }

  lemma {:induction false} SharesAre(rows: seq<EnvRow>, factor: real, k: nat)
    requires k < |rows| && DistinctEnvironments(rows)
    ensures ShareOf(Shares(rows, factor), rows[k].environmentId) == Clamp(rows[k].amountUsd) * factor
  {
    var n := |rows| - 1;
    if k < n {
      assert rows[..n][k] == rows[k];
      SharesAre(rows[..n], factor, k);
    }
  }

  lemma Distribute(x: real, y: real, factor: real)
    ensures (x + y) * factor == x * factor + y * factor
  {}

  lemma {:induction false} ChargedIs(rows: seq<EnvRow>, m: map<string, real>, factor: real)
    requires forall i :: 0 <= i < |rows| ==> ShareOf(m, rows[i].environmentId) == Clamp(rows[i].amountUsd) * factor
    ensures Charged(rows, m) == EnvTotal(rows) * factor
  {
    hide ShareOf, Clamp, Charged, EnvTotal;
    ChargedStep(rows, m);
    if rows == [] {
      assert EnvTotal(rows) * factor == 0.0;
    } else {
      var n := |rows| - 1;
      var x, y := EnvTotal(rows[..n]), Clamp(rows[n].amountUsd);
      assert forall i :: 0 <= i < n ==> rows[..n][i] == rows[i];
      ChargedIs(rows[..n], m, factor);
      Distribute(x, y, factor);
      assert EnvTotal(rows) == x + y;
    }
  }

  lemma ChargedStep(rows: seq<EnvRow>, m: map<string, real>)
    ensures if rows == [] then Charged(rows, m) == EnvTotal(rows) == 0.0
            else
              var n := |rows| - 1;
              && Charged(rows, m) == Charged(rows[..n], m) + ShareOf(m, rows[n].environmentId)
              && EnvTotal(rows) == EnvTotal(rows[..n]) + Clamp(rows[n].amountUsd)
  {}

  lemma ChargedByShares(rows: seq<EnvRow>, factor: real)
    requires DistinctEnvironments(rows)
    ensures Charged(rows, Shares(rows, factor)) == EnvTotal(rows) * factor
  {
    forall i | 0 <= i < |rows|
      ensures ShareOf(Shares(rows, factor), rows[i].environmentId) == Clamp(rows[i].amountUsd) * factor
    {
      SharesAre(rows, factor, i);
    }
    ChargedIs(rows, Shares(rows, factor), factor);
  }

  /** Conservation. Without a bill, shares and overhead add up to the clamped estimates and shared
      cost. With a bill they add up to the bill exactly when there is something to divide by, or no
      row at all, or nothing to pay: with rows but no positive estimate the bill vanishes. */
  lemma NothingIsLost(rows: seq<EnvRow>, sharedUsd: real, bill: Option<real>)
    requires DistinctEnvironments(rows)
    ensures var a := Allocate(rows, sharedUsd, bill);
            var total := Charged(rows, a.byEnvironment) + a.overheadUsd;
            match bill
            case None => total == Denominator(rows, sharedUsd)
            case Some(b) => total == b <==> rows == [] || Denominator(rows, sharedUsd) > 0.0 || b == 0.0
  {
    var a := Allocate(rows, sharedUsd, bill);
    if rows == [] && sharedUsd <= 0.0 {
    } else if bill.None? || Denominator(rows, sharedUsd) <= 0.0 {
      ChargedByShares(rows, 1.0);
    } else {
      var d := Denominator(rows, sharedUsd);
      var factor := bill.value / d;
      ChargedByShares(rows, factor);
      assert EnvTotal(rows) * factor + Clamp(sharedUsd) * factor == d * factor == bill.value;
    }
  }

  /** One environment without a positive estimate: a bill of 100 dollars is charged to nobody. */
  lemma BillCanVanish()
    ensures var rows := [EnvRow("e", 0.0)];
            var a := Allocate(rows, 0.0, Some(100.0));
            a.how == BillAllocated && Charged(rows, a.byEnvironment) + a.overheadUsd == 0.0
  {
    var rows := [EnvRow("e", 0.0)];
    assert rows[..0] == [];
    assert EnvTotal(rows) == EnvTotal([]) + 0.0;
    ChargedByShares(rows, 1.0);
  }

  /** Shares keep the ratios of the clamped estimates. */
  lemma SharesAreProportional(rows: seq<EnvRow>, sharedUsd: real, bill: Option<real>, i: nat, j: nat)
    requires DistinctEnvironments(rows) && i < |rows| && j < |rows|
    ensures var m := Allocate(rows, sharedUsd, bill).byEnvironment;
            ShareOf(m, rows[i].environmentId) * Clamp(rows[j].amountUsd) ==
            ShareOf(m, rows[j].environmentId) * Clamp(rows[i].amountUsd)
  {
    var denominator := Denominator(rows, sharedUsd);
    var factor := if bill.None? || denominator <= 0.0 then 1.0 else bill.value / denominator;
    SharesAre(rows, factor, i);
    SharesAre(rows, factor, j);
    var x, y := Clamp(rows[i].amountUsd), Clamp(rows[j].amountUsd);
    assert (x * factor) * y == (y * factor) * x;
  }

  // ---------------------------------------------------------------- money

  /** An amount with four decimals, counted in ten-thousandths. */
  type Money = int

  function ToNumber(m: Money): real {
    m as real / 10000.0
  }

  /** `value.toFixed(4)`: the nearest amount, ties away from zero. */
  function ToMoney(value: real): Money {
    if value < 0.0 then -(-value * 10000.0 + 0.5).Floor else (value * 10000.0 + 0.5).Floor
  }

  function Abs(x: real): real {
    if x < 0.0 then -x else x
  }

  const HALF_UNIT := 0.00005

  /** Rounding moves an amount by at most half a unit. */
  lemma RoundingError(value: real)
    ensures Abs(ToNumber(ToMoney(value)) - value) <= HALF_UNIT
  {}

  /** Halfway between two amounts the one farther from zero is taken, and signs are treated alike. */
  lemma TiesGoAwayFromZero(m: nat)
    ensures ToMoney((m as real + 0.5) / 10000.0) == m + 1
    ensures ToMoney(-(m as real + 0.5) / 10000.0) == -(m + 1)
  {}

  /** An amount that already has four decimals is not moved. */
  lemma RoundingIsExact(m: Money)
    ensures ToMoney(ToNumber(m)) == m
  {}

  // ---------------------------------------------------------------- the report

  /** A snapshot of one environment, cluster-wide; a row without project is not attributed. */
  datatype Snapshot = Snapshot(environmentId: string, orgId: string, projectId: Option<string>, amountUsd: real)

  datatype Spend = Spend(projectId: string, usd: real, attempts: nat)

  datatype EnvCost = EnvCost(environmentId: string, opencostUsd: Money, cloudUsd: Money)

  datatype App = App(projectId: string, llmUsd: Money, llmAttempts: nat, cloudUsd: Money, totalUsd: Money,
      environments: seq<EnvCost>)

  /** A JavaScript Map from project to app: the apps, and the order they were created in. */
  datatype Apps = Apps(byProject: map<string, App>, order: seq<string>)

  datatype Report = Report(cloudUsd: Money, llmUsd: Money, totalUsd: Money, overheadUsd: Option<Money>, apps: seq<App>)

  function EnvRows(rows: seq<Snapshot>): seq<EnvRow> {
    if rows == [] then []
    else EnvRows(rows[..|rows| - 1]) + [EnvRow(rows[|rows| - 1].environmentId, rows[|rows| - 1].amountUsd)]
  }

  lemma {:induction false} EnvRowsAre(rows: seq<Snapshot>)
    ensures |EnvRows(rows)| == |rows|
    ensures forall i :: 0 <= i < |rows| ==>
              EnvRows(rows)[i].environmentId == rows[i].environmentId && EnvRows(rows)[i].amountUsd == rows[i].amountUsd
  {
    if rows != [] { EnvRowsAre(rows[..|rows| - 1]); }
  }

  /** Unrounded cost of the rows that belong to a project, and of the others. */
  function Attributed(rows: seq<Snapshot>, m: map<string, real>): real {
    if rows == [] then 0.0
    else
      var row := rows[|rows| - 1];
      Attributed(rows[..|rows| - 1], m) + if row.projectId.Some? then ShareOf(m, row.environmentId) else 0.0
  }

  function Unattributed(rows: seq<Snapshot>, m: map<string, real>): real {
    if rows == [] then 0.0
    else
      var row := rows[|rows| - 1];
      Unattributed(rows[..|rows| - 1], m) + if row.projectId.None? then ShareOf(m, row.environmentId) else 0.0
  }

  function CountAttributed(rows: seq<Snapshot>): nat {
    if rows == [] then 0
    else CountAttributed(rows[..|rows| - 1]) + if rows[|rows| - 1].projectId.Some? then 1 else 0
  }

  function SumCloud(envs: seq<EnvCost>): Money {
    if envs == [] then 0 else SumCloud(envs[..|envs| - 1]) + envs[|envs| - 1].cloudUsd
  }

  function CloudOf(m: map<string, App>, p: string): Money {
    if p in m then SumCloud(m[p].environments) else 0
  }

  function LlmOf(m: map<string, App>, p: string): Money {
    if p in m then m[p].llmUsd else 0
  }

  /** Cloud and spend amounts of all apps, in order. */
  function CloudSum(order: seq<string>, m: map<string, App>): Money {
    if order == [] then 0 else CloudSum(order[..|order| - 1], m) + CloudOf(m, order[|order| - 1])
  }

  function LlmSum(order: seq<string>, m: map<string, App>): Money {
    if order == [] then 0 else LlmSum(order[..|order| - 1], m) + LlmOf(m, order[|order| - 1])
  }

  /** The map is well formed, and its apps carry these amounts in all. */
  ghost predicate Books(a: Apps, cloud: Money, llm: Money) {
    && Distinct(a.order)
    && (forall p :: p in a.order <==> p in a.byProject)
    && CloudSum(a.order, a.byProject) == cloud
    && LlmSum(a.order, a.byProject) == llm
  }

  lemma {:induction false} SumsOfUpdate(order: seq<string>, m: map<string, App>, p: string, app: App)
    requires Distinct(order)
    ensures var m' := m[p := app];
            && CloudSum(order, m') == CloudSum(order, m) + (if p in order then CloudOf(m', p) - CloudOf(m, p) else 0)
            && LlmSum(order, m') == LlmSum(order, m) + (if p in order then LlmOf(m', p) - LlmOf(m, p) else 0)
  {
    hide SumCloud;
    if order != [] {
      var n := |order| - 1;
      SumsOfUpdate(order[..n], m, p, app);
      assert order == order[..n] + [order[n]];
      assert order[n] !in order[..n];
    }
  }

  /** `ensureApp`. */
  method EnsureApp(a: Apps, projectId: string, ghost cloud: Money, ghost llm: Money) returns (r: Apps)
    requires Books(a, cloud, llm)
    ensures Books(r, cloud, llm)
    ensures r.byProject == if projectId in a.byProject then a.byProject
                           else a.byProject[projectId := App(projectId, 0, 0, 0, 0, [])]
  {
    hide SumCloud;
    r := a;
    if projectId !in a.byProject {
      var app := App(projectId, 0, 0, 0, 0, []);
      r := Apps(a.byProject[projectId := app], a.order + [projectId]);
      assert r.order[..|a.order|] == a.order;
      SumsOfUpdate(a.order, a.byProject, projectId, app);
      NoEnvironments();
    }
  }

  lemma NoEnvironments()
    ensures SumCloud([]) == 0
  {}

  lemma SetApp(a: Apps, projectId: string, app: App, cloud: Money, llm: Money)
    requires Books(a, cloud, llm) && projectId in a.byProject
    ensures Books(Apps(a.byProject[projectId := app], a.order),
                  cloud + SumCloud(app.environments) - SumCloud(a.byProject[projectId].environments),
                  llm + app.llmUsd - a.byProject[projectId].llmUsd)
  {
    hide SumCloud;
    SumsOfUpdate(a.order, a.byProject, projectId, app);
  }

  /** `x` is `y` up to `n` roundings. */
  predicate Within(x: real, y: real, n: nat) {
    Abs(x - y) <= n as real * HALF_UNIT
  }

  lemma WithinAdds(x: real, y: real, n: nat, value: real)
    requires Within(x, y, n)
    ensures Within(x + ToNumber(ToMoney(value)), y + value, n + 1)
  {}

  /** The environments of one project, in the order of the rows. */
  function EnvsOf(rows: seq<Snapshot>, m: map<string, real>, p: string): seq<EnvCost> {
    if rows == [] then []
    else
      var row := rows[|rows| - 1];
      EnvsOf(rows[..|rows| - 1], m, p) +
      if row.projectId == Some(p)
      then [EnvCost(row.environmentId, ToMoney(row.amountUsd), ToMoney(ShareOf(m, row.environmentId)))] else []
  }

  /** The spend row of a project, if there is one. */
  function SpendOf(spend: seq<Spend>, p: string): Option<Spend> {
    if spend == [] then None
    else if spend[|spend| - 1].projectId == p then Some(spend[|spend| - 1])
    else SpendOf(spend[..|spend| - 1], p)
  }

  /** The app record of a project before its totals are filled in. */
  function AppOf(rows: seq<Snapshot>, m: map<string, real>, spend: seq<Spend>, p: string): App {
    match SpendOf(spend, p)
    case None => App(p, 0, 0, 0, 0, EnvsOf(rows, m, p))
    case Some(row) => App(p, ToMoney(row.usd), row.attempts, 0, 0, EnvsOf(rows, m, p))
  }

  /** The map holds an app for exactly the projects with rows or spend, each with its own data. */
  ghost predicate Grouped(a: Apps, rows: seq<Snapshot>, m: map<string, real>, spend: seq<Spend>) {
    forall p :: (p in a.byProject <==> EnvsOf(rows, m, p) != [] || SpendOf(spend, p).Some?)
                && (p in a.byProject ==> a.byProject[p] == AppOf(rows, m, spend, p))
  }

  lemma GroupRow(a: Apps, rows: seq<Snapshot>, m: map<string, real>, row: Snapshot, r: Apps)
    requires Grouped(a, rows, m, [])
    requires row.projectId.None? ==> r.byProject == a.byProject
    requires row.projectId.Some? ==>
               var p := row.projectId.value;
               var envs := if p in a.byProject then a.byProject[p].environments else [];
               r.byProject == a.byProject[p := App(p, 0, 0, 0, 0, envs +
                 [EnvCost(row.environmentId, ToMoney(row.amountUsd), ToMoney(ShareOf(m, row.environmentId)))])]
    ensures Grouped(r, rows + [row], m, [])
  {}

  lemma GroupSpend(a: Apps, rows: seq<Snapshot>, m: map<string, real>, spend: seq<Spend>, row: Spend, r: Apps)
    requires Grouped(a, rows, m, spend)
    requires var p := row.projectId;
             var envs := if p in a.byProject then a.byProject[p].environments else [];
             r.byProject == a.byProject[p := App(p, ToMoney(row.usd), row.attempts, 0, 0, envs)]
    ensures Grouped(r, rows, m, spend + [row])
  {
    hide ToMoney, ShareOf, EnvsOf;
    assert (spend + [row])[..|spend|] == spend;
  }

  /** `ensureApp` and `app.environments.push` for a row that belongs to a project. */
  method AddEnvironment(a: Apps, rows: seq<Snapshot>, m: map<string, real>, row: Snapshot, ghost cloud: Money)
    returns (r: Apps, ghost cloud': Money)
    requires Books(a, cloud, 0) && Grouped(a, rows, m, []) && row.projectId.Some?
    ensures cloud' == cloud + ToMoney(ShareOf(m, row.environmentId))
    ensures Books(r, cloud', 0) && Grouped(r, rows + [row], m, [])
  {
    hide Books, Grouped, EnvsOf, ToMoney, ShareOf;
    var p := row.projectId.value;
    var env := EnvCost(row.environmentId, ToMoney(row.amountUsd), ToMoney(ShareOf(m, row.environmentId)));
    GroupedHas(a, rows, m, [], p);
    r := EnsureApp(a, p, cloud, 0);
    var app := r.byProject[p];
    var grown := app.(environments := app.environments + [env]);
    assert grown.environments[..|app.environments|] == app.environments;
    SetApp(r, p, grown, cloud, 0);
    cloud' := cloud + env.cloudUsd;
    r := Apps(r.byProject[p := grown], r.order);
    GroupRow(a, rows, m, row, r);
  }

  /** First loop of `getAppCosts`: rows into apps. */
  method GroupEnvironments(rows: seq<Snapshot>, m: map<string, real>)
    returns (apps: Apps, unattributed: real, ghost cloud: Money)
    ensures Books(apps, cloud, 0) && unattributed == Unattributed(rows, m)
    ensures Within(ToNumber(cloud), Attributed(rows, m), CountAttributed(rows))
    ensures Grouped(apps, rows, m, [])
  {
    hide ToMoney, Within, Books, ToNumber, Grouped, ShareOf, Unattributed, Attributed, CountAttributed;
    apps, unattributed, cloud := Apps(map[], []), 0.0, 0;
    NoApps();
    NothingGrouped(m);
    assert rows[..0] == [];
    for k := 0 to |rows|
      invariant Books(apps, cloud, 0) && unattributed == Unattributed(rows[..k], m)
      invariant Within(ToNumber(cloud), Attributed(rows[..k], m), CountAttributed(rows[..k]))
      invariant Grouped(apps, rows[..k], m, [])
    {
      assert rows[..k + 1] == rows[..k] + [rows[k]];
      var row := rows[k];
      OneMoreRow(rows[..k], row, m);
      var cloudUsd := ShareOf(m, row.environmentId);
      if row.projectId.None? {
        unattributed := unattributed + cloudUsd;
        GroupRow(apps, rows[..k], m, row, apps);
      } else {
        WithinAdds(ToNumber(cloud), Attributed(rows[..k], m), CountAttributed(rows[..k]), cloudUsd);
        ToNumberAdds(cloud, ToMoney(cloudUsd));
        apps, cloud := AddEnvironment(apps, rows[..k], m, row, cloud);
      }
    }
    assert rows[..|rows|] == rows;
  }

  lemma NothingGrouped(m: map<string, real>)
    ensures Grouped(Apps(map[], []), [], m, [])
    ensures Unattributed([], m) == Attributed([], m) == 0.0 && CountAttributed([]) == 0
  {}

  lemma OneMoreRow(rows: seq<Snapshot>, row: Snapshot, m: map<string, real>)
    ensures var x := ShareOf(m, row.environmentId); var grown := rows + [row];
      if row.projectId.None? then
        Unattributed(grown, m) == Unattributed(rows, m) + x && Attributed(grown, m) == Attributed(rows, m)
        && CountAttributed(grown) == CountAttributed(rows)
      else
        Unattributed(grown, m) == Unattributed(rows, m) && Attributed(grown, m) == Attributed(rows, m) + x
        && CountAttributed(grown) == CountAttributed(rows) + 1
  {
    assert (rows + [row])[..|rows|] == rows;
  }

  lemma GroupedHas(a: Apps, rows: seq<Snapshot>, m: map<string, real>, spend: seq<Spend>, p: string)
    requires Grouped(a, rows, m, spend)
    ensures p in a.byProject ==> a.byProject[p] == AppOf(rows, m, spend, p)
  {}

  lemma NoApps()
    ensures Books(Apps(map[], []), 0, 0) && Within(ToNumber(0), 0.0, 0)
  {}

  lemma ToNumberAdds(x: Money, y: Money)
    ensures ToNumber(x + y) == ToNumber(x) + ToNumber(y)
  {}

  function LlmTotal(spend: seq<Spend>): real {
    if spend == [] then 0.0 else LlmTotal(spend[..|spend| - 1]) + spend[|spend| - 1].usd
  }

  predicate DistinctProjects(spend: seq<Spend>) {
    forall i, j :: 0 <= i < j < |spend| ==> spend[i].projectId != spend[j].projectId
  }

  lemma {:induction false} NoSpend(spend: seq<Spend>, p: string)
    requires forall i :: 0 <= i < |spend| ==> spend[i].projectId != p
    ensures SpendOf(spend, p) == None
  {
    if spend != [] { NoSpend(spend[..|spend| - 1], p); }
  }

  /** Second loop: spend per project, one row each, as the query groups them. */
  method AddSpend(apps0: Apps, rows: seq<Snapshot>, m: map<string, real>, spend: seq<Spend>, ghost cloud: Money)
    returns (apps: Apps, llmTotal: real, ghost llm: Money)
    requires Books(apps0, cloud, 0) && DistinctProjects(spend) && Grouped(apps0, rows, m, [])
    ensures Books(apps, cloud, llm) && llmTotal == LlmTotal(spend) && Grouped(apps, rows, m, spend)
    ensures Within(ToNumber(llm), LlmTotal(spend), |spend|)
  {
    hide ToMoney, Within, Books, ToNumber, Grouped, EnvsOf;
    apps, llmTotal, llm := apps0, 0.0, 0;
    NoApps();
    assert spend[..0] == [];
    for k := 0 to |spend|
      invariant Books(apps, cloud, llm) && llmTotal == LlmTotal(spend[..k])
      invariant Within(ToNumber(llm), LlmTotal(spend[..k]), k)
      invariant Grouped(apps, rows, m, spend[..k])
    {
      assert spend[..k + 1][..k] == spend[..k] && spend[..k + 1][k] == spend[k];
      assert spend[..k + 1] == spend[..k] + [spend[k]];
      var row := spend[k];
      ghost var before := apps;
      GroupedHas(before, rows, m, spend[..k], row.projectId);
      NoSpend(spend[..k], row.projectId);
      apps := EnsureApp(apps, row.projectId, cloud, llm);
      var app := apps.byProject[row.projectId];
      var grown := app.(llmUsd := ToMoney(row.usd), llmAttempts := row.attempts);
      SetApp(apps, row.projectId, grown, cloud, llm);
      WithinAdds(ToNumber(llm), LlmTotal(spend[..k]), k, row.usd);
      ToNumberAdds(llm, grown.llmUsd);
      apps := Apps(apps.byProject[row.projectId := grown], apps.order);
      GroupSpend(before, rows, m, spend[..k], row, apps);
      llm := llm + grown.llmUsd;
      llmTotal := llmTotal + row.usd;
    }
    assert spend[..|spend|] == spend;
  }

  function SumCloudUsd(apps: seq<App>): Money {
    if apps == [] then 0 else SumCloudUsd(apps[..|apps| - 1]) + apps[|apps| - 1].cloudUsd
  }

  function SumTotalUsd(apps: seq<App>): Money {
    if apps == [] then 0 else SumTotalUsd(apps[..|apps| - 1]) + apps[|apps| - 1].totalUsd
  }

  /** `environments.reduce(...)` over parsed amounts: exact, because four decimals stay four decimals. */
  method CloudOfApp(app: App) returns (cloud: real)
    ensures cloud == ToNumber(SumCloud(app.environments))
  {
    cloud := 0.0;
    var envs := app.environments;
    for k := 0 to |envs|
      invariant cloud == ToNumber(SumCloud(envs[..k]))
    {
      assert envs[..k + 1][..k] == envs[..k];
      ToNumberAdds(SumCloud(envs[..k]), envs[k].cloudUsd);
      cloud := cloud + ToNumber(envs[k].cloudUsd);
    }
    assert envs[..|envs|] == envs;
  }

  /** An app with its totals: exact sums of amounts with four decimals. */
  function WithTotals(a: App): App {
    var cloud := SumCloud(a.environments);
    a.(cloudUsd := cloud, totalUsd := cloud + a.llmUsd)
  }

  method TotalApp(app: App) returns (done: App, cloud: real)
    ensures done == WithTotals(app) && cloud == ToNumber(done.cloudUsd)
  {
    hide ToMoney, SumCloud, ToNumber;
    cloud := CloudOfApp(app);
    ghost var units := SumCloud(app.environments);
    ToNumberAdds(units, app.llmUsd);
    RoundingIsExact(units);
    RoundingIsExact(units + app.llmUsd);
    done := app.(cloudUsd := ToMoney(cloud), totalUsd := ToMoney(cloud + ToNumber(app.llmUsd)));
  }

  lemma TotalsOf(order: seq<string>, m: map<string, App>, k: nat)
    requires k < |order| && order[k] in m
    ensures CloudSum(order[..k + 1], m) == CloudSum(order[..k], m) + WithTotals(m[order[k]]).cloudUsd
    ensures LlmSum(order[..k + 1], m) == LlmSum(order[..k], m) + m[order[k]].llmUsd
    ensures WithTotals(m[order[k]]).totalUsd == WithTotals(m[order[k]]).cloudUsd + m[order[k]].llmUsd
  {
    hide SumCloud;
    assert order[..k + 1][..k] == order[..k];
  }

  /** Third loop: totals per app. No app amount is moved by rounding here. */
  method TotalApps(apps: Apps, ghost cloudSum: Money, ghost llmSum: Money) returns (list: seq<App>, cloudTotal: real)
    requires Books(apps, cloudSum, llmSum)
    ensures |list| == |apps.order|
    ensures SumCloudUsd(list) == cloudSum && SumTotalUsd(list) == cloudSum + llmSum
    ensures forall i :: 0 <= i < |list| ==>
              apps.order[i] in apps.byProject && list[i] == WithTotals(apps.byProject[apps.order[i]])
    ensures cloudTotal == ToNumber(cloudSum)
  {
    hide ToNumber, CloudSum, LlmSum, WithTotals;
    list, cloudTotal := [], 0.0;
    ToNumberOfZero();
    NoSums(apps.order, apps.byProject);
    for k := 0 to |apps.order|
      invariant |list| == k
      invariant SumCloudUsd(list) == CloudSum(apps.order[..k], apps.byProject)
      invariant SumTotalUsd(list) == SumCloudUsd(list) + LlmSum(apps.order[..k], apps.byProject)
      invariant forall i :: 0 <= i < |list| ==>
                  apps.order[i] in apps.byProject && list[i] == WithTotals(apps.byProject[apps.order[i]])
      invariant cloudTotal == ToNumber(SumCloudUsd(list))
    {
      assert apps.order[k] in apps.order;
      TotalsOf(apps.order, apps.byProject, k);
      var done, cloud := TotalApp(apps.byProject[apps.order[k]]);
      ToNumberAdds(SumCloudUsd(list), done.cloudUsd);
      assert (list + [done])[..k] == list;
      list := list + [done];
      cloudTotal := cloudTotal + cloud;
    }
    assert apps.order[..|apps.order|] == apps.order;
  }

  lemma NoSums(order: seq<string>, m: map<string, App>)
    ensures CloudSum(order[..0], m) == 0 && LlmSum(order[..0], m) == 0
  {}

  lemma ToNumberOfZero()
    ensures ToNumber(0) == 0.0
  {}

  function Scoped(rows: seq<Snapshot>, org: Option<string>): seq<Snapshot> {
    if org.None? || org.value == "" then rows
    else if rows == [] then []
    else
      var row := rows[|rows| - 1];
      Scoped(rows[..|rows| - 1], org) + if row.orgId == org.value then [row] else []
  }

  function InReport(rows: seq<Snapshot>, org: Option<string>): nat -> bool {
    (k: nat) => k < |rows| && (org.None? || org.value == "" || rows[k].orgId == org.value)
  }

  function InProject(rows: seq<Snapshot>, p: string): nat -> bool {
    (k: nat) => k < |rows| && rows[k].projectId == Some(p)
  }

  /** A report for one organisation is about its own rows, in order; without one, about all of them. */
  lemma {:induction false} ScopedRowsAre(rows: seq<Snapshot>, org: Option<string>) returns (idx: seq<nat>)
    ensures Picks(idx, |rows|, InReport(rows, org))
    ensures |Scoped(rows, org)| == |idx| && forall j :: 0 <= j < |idx| ==> Scoped(rows, org)[j] == rows[idx[j]]
  {
    hide Picks;
    if org.None? || org.value == "" {
      idx := PicksAll(|rows|, InReport(rows, org));
    } else if rows == [] {
      idx := [];
      PicksNone(InReport(rows, org));
    } else {
      var n := |rows| - 1;
      idx := ScopedRowsAre(rows[..n], org);
      PicksMore(idx, n, InReport(rows[..n], org), InReport(rows, org));
      idx := if rows[n].orgId == org.value then idx + [n] else idx;
    }
  }

  lemma {:induction false} EnvsOfRows(rows: seq<Snapshot>, m: map<string, real>, p: string) returns (idx: seq<nat>)
    ensures Picks(idx, |rows|, InProject(rows, p))
    ensures var envs := EnvsOf(rows, m, p);
            |envs| == |idx| && forall j :: 0 <= j < |idx| ==> IsEnvCost(envs[j], rows[idx[j]], m)
  {
    hide IsEnvCost, ToMoney, ShareOf, Picks;
    if rows == [] {
      idx := [];
      PicksNone(InProject(rows, p));
    } else {
      var n := |rows| - 1;
      idx := EnvsOfRows(rows[..n], m, p);
      PicksMore(idx, n, InProject(rows[..n], p), InProject(rows, p));
      EnvCostIs(rows[n], m);
      idx := if rows[n].projectId == Some(p) then idx + [n] else idx;
    }
  }

  /** The amounts of one environment, each rounded on its own. */
  predicate IsEnvCost(e: EnvCost, row: Snapshot, m: map<string, real>) {
    && e.environmentId == row.environmentId
    && Abs(ToNumber(e.opencostUsd) - row.amountUsd) <= HALF_UNIT
    && Abs(ToNumber(e.cloudUsd) - ShareOf(m, row.environmentId)) <= HALF_UNIT
  }

  lemma EnvCostIs(row: Snapshot, m: map<string, real>)
    ensures var cloudUsd := ToMoney(ShareOf(m, row.environmentId));
            IsEnvCost(EnvCost(row.environmentId, ToMoney(row.amountUsd), cloudUsd), row, m)
  {
    RoundingError(row.amountUsd);
    RoundingError(ShareOf(m, row.environmentId));
  }

  /** The record of a project: its own rows in order with their own estimate and charge, its own spend, and
      the sum of both as total. */
  lemma AppIsItsRows(rows: seq<Snapshot>, m: map<string, real>, spend: seq<Spend>, p: string) returns (idx: seq<nat>)
    requires DistinctProjects(spend)
    ensures Picks(idx, |rows|, InProject(rows, p))
    ensures var app := WithTotals(AppOf(rows, m, spend, p));
            && app.projectId == p && |app.environments| == |idx|
            && (forall j :: 0 <= j < |idx| ==> IsEnvCost(app.environments[j], rows[idx[j]], m))
            && app.totalUsd == app.cloudUsd + app.llmUsd
            && (forall s :: s in spend && s.projectId == p ==>
                  Abs(ToNumber(app.llmUsd) - s.usd) <= HALF_UNIT && app.llmAttempts == s.attempts)
            && ((forall s :: s in spend ==> s.projectId != p) ==> app.llmUsd == 0 && app.llmAttempts == 0)
  {
    hide IsEnvCost, EnvsOf, SumCloud, ToMoney;
    idx := EnvsOfRows(rows, m, p);
    if s :| s in spend && s.projectId == p {
      SpendOfIs(spend, s);
      RoundingError(s.usd);
      forall t | t in spend && t.projectId == p ensures t == s { SpendOfIs(spend, t); }
    } else {
      NoSpend(spend, p);
    }
  }

  lemma {:induction false} SpendOfIs(spend: seq<Spend>, s: Spend)
    requires DistinctProjects(spend) && s in spend
    ensures SpendOf(spend, s.projectId) == Some(s)
  {
    var n := |spend| - 1;
    if spend[n] != s {
      var i :| 0 <= i < |spend| && spend[i] == s;
      assert spend[..n][i] == s;
      SpendOfIs(spend[..n], s);
    }
  }

  predicate Listed(apps: seq<App>, p: string) {
    exists i :: 0 <= i < |apps| && apps[i].projectId == p
  }

  lemma AppsAreComplete(a: Apps, list: seq<App>, cloud: Money, llm: Money, rows: seq<Snapshot>,
      m: map<string, real>, spend: seq<Spend>)
    requires Books(a, cloud, llm) && Grouped(a, rows, m, spend) && |list| == |a.order|
    requires forall i :: 0 <= i < |list| ==> a.order[i] in a.byProject && list[i] == WithTotals(a.byProject[a.order[i]])
    ensures forall i :: 0 <= i < |list| ==> list[i] == WithTotals(AppOf(rows, m, spend, list[i].projectId))
    ensures forall i, j :: 0 <= i < j < |list| ==> list[i].projectId != list[j].projectId
    ensures forall p :: EnvsOf(rows, m, p) != [] || SpendOf(spend, p).Some? <==> Listed(list, p)
  {
    hide EnvsOf, SumCloud, CloudSum, LlmSum;
    assert forall i :: 0 <= i < |list| ==> list[i].projectId == a.order[i];
    forall p ensures EnvsOf(rows, m, p) != [] || SpendOf(spend, p).Some? <==> Listed(list, p) {
      if p in a.byProject {
        var i :| 0 <= i < |a.order| && a.order[i] == p;
        assert list[i].projectId == p;
      }
      if Listed(list, p) {
        var i :| 0 <= i < |list| && list[i].projectId == p;
        assert a.order[i] == p;
      }
    }
  }

  /** `getAppCosts`: allocation runs over the whole cluster, the report over the rows of one
      organisation, or over all of them for the administrator. */
  method GetAppCosts(rows: seq<Snapshot>, sharedUsd: real, bill: Option<real>, spend: seq<Spend>, org: Option<string>)
    returns (r: Report)
    requires DistinctProjects(spend)
    ensures var scoped, a := Scoped(rows, org), Allocate(EnvRows(rows), sharedUsd, bill);
            && SumCloudUsd(r.apps) == r.cloudUsd
            && Within(ToNumber(r.cloudUsd), Attributed(scoped, a.byEnvironment), CountAttributed(scoped))
            && r.llmUsd == ToMoney(LlmTotal(spend))
            && Within(ToNumber(r.totalUsd), ToNumber(r.cloudUsd) + LlmTotal(spend), 1)
            && Within(ToNumber(SumTotalUsd(r.apps)), ToNumber(r.totalUsd), |spend| + 1)
            && r.overheadUsd == (if org.Some? then None
                                 else Some(ToMoney(a.overheadUsd + Unattributed(scoped, a.byEnvironment))))
    ensures var scoped, m := Scoped(rows, org), Allocate(EnvRows(rows), sharedUsd, bill).byEnvironment;
            && (forall i :: 0 <= i < |r.apps| ==> r.apps[i] == WithTotals(AppOf(scoped, m, spend, r.apps[i].projectId)))
            && (forall i, j :: 0 <= i < j < |r.apps| ==> r.apps[i].projectId != r.apps[j].projectId)
            && (forall p :: EnvsOf(scoped, m, p) != [] || SpendOf(spend, p).Some? <==> Listed(r.apps, p))
  {
    hide ToMoney, Books, ToNumber, SumCloud, SumCloudUsd, SumTotalUsd, Allocate, IsAllocation, Within;
    hide Grouped, WithTotals, Listed, EnvsOf, SpendOf, AppOf;
    var allocation := AllocateAppCosts(EnvRows(rows), sharedUsd, bill);
    ghost var cloud, llm: Money;
    var apps, unattributed, llmTotal;
    apps, unattributed, cloud := GroupEnvironments(Scoped(rows, org), allocation.byEnvironment);
    apps, llmTotal, llm := AddSpend(apps, Scoped(rows, org), allocation.byEnvironment, spend, cloud);
    var list, cloudTotal := TotalApps(apps, cloud, llm);
    AppsAreComplete(apps, list, cloud, llm, Scoped(rows, org), allocation.byEnvironment, spend);
    RoundingIsExact(cloud);
    RoundingError(cloudTotal + llmTotal);
    r := Report(ToMoney(cloudTotal), ToMoney(llmTotal), ToMoney(cloudTotal + llmTotal),
                if org.None? then Some(ToMoney(allocation.overheadUsd + unattributed)) else None, list);
    ToNumberAdds(cloud, llm);
    TotalsAgree(ToNumber(cloud), ToNumber(llm), llmTotal, ToNumber(r.totalUsd), |spend|);
  }

  lemma TotalsAgree(cloud: real, llmRounded: real, llm: real, total: real, m: nat)
    requires Within(llmRounded, llm, m) && Abs(total - (cloud + llm)) <= HALF_UNIT
    ensures Within(total, cloud + llm, 1) && Within(cloud + llmRounded, total, m + 1)
  {}

  lemma {:induction false} PartsAddUp(rows: seq<Snapshot>, m: map<string, real>)
    ensures Attributed(rows, m) + Unattributed(rows, m) == Charged(EnvRows(rows), m)
  {
    if rows != [] {
      var n := |rows| - 1;
      PartsAddUp(rows[..n], m);
      var e := EnvRows(rows);
      assert e[..|e| - 1] == EnvRows(rows[..n]);
    }
  }

  /** What is to be paid: the bill, or without one the clamped estimates and shared cost. */
  function Due(rows: seq<EnvRow>, sharedUsd: real, bill: Option<real>): real {
    match bill case Some(b) => b case None => Denominator(rows, sharedUsd)
  }

  /** The guard under which the bill is passed on; without a bill there is nothing to lose. */
  predicate PassedOn(rows: seq<EnvRow>, sharedUsd: real, bill: Option<real>) {
    bill.None? || rows == [] || Denominator(rows, sharedUsd) > 0.0 || bill.value == 0.0
  }

  /** In the administrator's report the attributed part, the unattributed part and the overhead are
      what is due, before rounding, exactly under the condition of `NothingIsLost`. */
  lemma AdminReportIsTheBill(rows: seq<Snapshot>, sharedUsd: real, bill: Option<real>)
    requires DistinctEnvironments(EnvRows(rows))
    ensures var a := Allocate(EnvRows(rows), sharedUsd, bill);
            var total := Attributed(rows, a.byEnvironment) + Unattributed(rows, a.byEnvironment) + a.overheadUsd;
            total == Due(EnvRows(rows), sharedUsd, bill) <==> PassedOn(EnvRows(rows), sharedUsd, bill)
  {
    NothingIsLost(EnvRows(rows), sharedUsd, bill);
    PartsAddUp(rows, Allocate(EnvRows(rows), sharedUsd, bill).byEnvironment);
  }

  /** The figures the administrator sees: reported cloud cost plus reported overhead is what is due, up
      to half a unit for every attributed environment and one for the overhead. */
  method AdminReport(rows: seq<Snapshot>, sharedUsd: real, bill: Option<real>, spend: seq<Spend>)
    returns (r: Report)
    requires DistinctProjects(spend) && DistinctEnvironments(EnvRows(rows))
    ensures r.overheadUsd.Some?
    ensures PassedOn(EnvRows(rows), sharedUsd, bill) ==>
              Within(ToNumber(r.cloudUsd) + ToNumber(r.overheadUsd.value), Due(EnvRows(rows), sharedUsd, bill),
                     CountAttributed(rows) + 1)
  {
    r := GetAppCosts(rows, sharedUsd, bill, spend, None);
    ghost var a := Allocate(EnvRows(rows), sharedUsd, bill);
    AdminReportIsTheBill(rows, sharedUsd, bill);
    WithinAdds(ToNumber(r.cloudUsd), Attributed(rows, a.byEnvironment), CountAttributed(rows),
               a.overheadUsd + Unattributed(rows, a.byEnvironment));
  }
}
