/** Which driver and which variants serve an account, and how a batch of instances is spread over
    the tenant drivers. */
module Routing {
  import opened Options
  import opened SpecMerge
  import opened VariantMerge
  import opened Tenants

  datatype Driver = Driver(name: string)

  /** An instance row, as far as routing looks at it. */
  datatype Row = Row(id: string, tenant: string)

  /** One Destroy call on one driver. */
  datatype Call = Call(tenant: string, driver: Option<Driver>, rows: seq<Row>)

  datatype Answer = Answer(failed: seq<Row>, error: Option<string>)

  type Builder = Json -> Option<Driver>

  function TenantOf(row: Row): string {
    if row.tenant == "" then DEFAULT_TENANT else row.tenant
  }

  /** The rows of one tenant, in batch order. */
  function Of(rows: seq<Row>, tenant: string): seq<Row> {
    if rows == [] then []
    else
      var n := |rows| - 1;
      Of(rows[..n], tenant) + if TenantOf(rows[n]) == tenant then [rows[n]] else []
  }

  /** The rows handed to the first n calls. */
  function AllRows(calls: seq<Call>, n: nat): seq<Row>
    requires n <= |calls|
  {
    if n == 0 then [] else AllRows(calls, n - 1) + calls[n - 1].rows
  }

  function Failures(calls: seq<Call>, answer: Call -> Answer): seq<Row> {
    if calls == [] then []
    else Failures(calls[..|calls| - 1], answer) + answer(calls[|calls| - 1]).failed
  }

  function FirstError(calls: seq<Call>, answer: Call -> Answer): Option<string> {
    if calls == [] then None
    else if answer(calls[0]).error.Some? then answer(calls[0]).error
    else FirstError(calls[1..], answer)
  }

  class Pool {
    var accountToTenant: map<string, string>
    var tenantDrivers: map<string, Option<Driver>>
    var tenants: seq<ResolvedTenant>
    var driver: Option<Driver>
    var spec: Option<Json>
    var poolVariants: seq<PoolVariant>

    constructor (driver: Option<Driver>, spec: Option<Json>, poolVariants: seq<PoolVariant>)
      ensures this.driver == driver && this.spec == spec && this.poolVariants == poolVariants
      ensures accountToTenant == map[] && tenantDrivers == map[] && tenants == []
    {
      this.driver, this.spec, this.poolVariants := driver, spec, poolVariants;
      accountToTenant, tenantDrivers, tenants := map[], map[], [];
    }

    predicate IsMultiTenant()
      reads this
    {
      |tenantDrivers| > 0
    }

    function ResolveTenant(account: string): string
      reads this
    {
      if account in accountToTenant then accountToTenant[account] else DEFAULT_TENANT
    }

    predicate HasDriver(tenant: string)
      reads this
    {
      tenant in tenantDrivers && tenantDrivers[tenant].Some?
    }

    function DriverForTenant(tenant: string): Option<Driver>
      reads this
    {
      if HasDriver(tenant) then tenantDrivers[tenant]
      else if tenant in accountToTenant && HasDriver(accountToTenant[tenant])
        then tenantDrivers[accountToTenant[tenant]]
      else if HasDriver(DEFAULT_TENANT) then tenantDrivers[DEFAULT_TENANT]
      else driver
    }

    /** The variants of the first tenant entry with this id, the default tenant's when there is
        none, the pool's own when the pool has no tenants. */
    method VariantsForTenant(tenant: string) returns (variants: seq<PoolVariant>)
      ensures !IsMultiTenant() ==> variants == poolVariants
      ensures IsMultiTenant() ==>
        variants == VariantsOf(tenants, if tenant == "" then DEFAULT_TENANT else tenant,
                               VariantsOf(tenants, DEFAULT_TENANT, poolVariants))
    {
      if !IsMultiTenant() { return poolVariants; }
      var wanted := if tenant == "" then DEFAULT_TENANT else tenant;
      for i := 0 to |tenants|
        invariant VariantsOf(tenants, wanted, VariantsOf(tenants, DEFAULT_TENANT, poolVariants)) ==
          VariantsOf(tenants[i..], wanted, VariantsOf(tenants, DEFAULT_TENANT, poolVariants))
      {
        if tenants[i].id == wanted { return tenants[i].variants; }
      }
      for i := 0 to |tenants|
        invariant VariantsOf(tenants, DEFAULT_TENANT, poolVariants) ==
          VariantsOf(tenants[i..], DEFAULT_TENANT, poolVariants)
      {
        if tenants[i].id == DEFAULT_TENANT { return tenants[i].variants; }
      }
      return poolVariants;
    }

    /** The pool carries exactly the drivers and routes of this instance's tenants. */
    ghost predicate Serves(inst: Instance, decode: Decoder, build: Builder)
      reads this
    {
      && Accepts(inst, decode) && Routes(inst.tenants, |inst.tenants|, accountToTenant)
      && (forall id :: id in tenantDrivers <==>
            id == DEFAULT_TENANT || Identified(inst, id))
      && build(inst.spec.value).Some? && tenantDrivers[DEFAULT_TENANT] == build(inst.spec.value) == driver
      && (forall i | 0 <= i < |inst.tenants| ::
            && build(Expand(inst, inst.tenants[i], decode).spec).Some?
            && tenantDrivers[Identity(inst.tenants[i])] == build(Expand(inst, inst.tenants[i], decode).spec))
    }

    /** Resolves the tenants and builds one driver for each. */
    method ApplyTenants(inst: Instance, decode: Decoder, build: Builder) returns (ok: bool)
      modifies this
      ensures ok <==>
        && Accepts(inst, decode) && build(inst.spec.value).Some?
        && forall i | 0 <= i < |inst.tenants| :: build(Expand(inst, inst.tenants[i], decode).spec).Some?
      ensures ok ==> Serves(inst, decode, build)
      ensures ok ==> old(tenants) <= tenants && Expanded(inst, decode, tenants[|old(tenants)|..], |inst.tenants|)
      ensures ok && old(tenants) == [] ==> spec == inst.spec
      ensures !Accepts(inst, decode) ==>
        tenantDrivers == old(tenantDrivers) && tenants == old(tenants) && accountToTenant == old(accountToTenant)
      ensures !ok ==> driver == old(driver) && spec == old(spec)
      ensures poolVariants == old(poolVariants)
    {
      var r := ResolveTenants(inst, decode);
      if r.Rejected? { return false; }
      SeparateIds(inst, decode, r.tenants);
      ok := BuildDrivers(r.tenants, r.accounts, build);
      if ok {
        SetDefaultTenantDriver();
        BuiltForAll(inst, decode, r.tenants);
        DefaultFirst(r.tenants, old(spec));
      } else {
        ghost var i :| 0 <= i < |r.tenants| && build(r.tenants[i].spec).None?;
        Unbuilt(inst, decode, build, r.tenants, i);
      }
    }

    /** One driver per resolved tenant, until one cannot be built. */
    method BuildDrivers(resolved: seq<ResolvedTenant>, accounts: map<string, string>, build: Builder) returns (ok: bool)
      requires forall i, j | 0 <= i < j < |resolved| :: resolved[i].id != resolved[j].id
      modifies this`accountToTenant, this`tenantDrivers, this`tenants
      ensures ok <==> forall k | 0 <= k < |resolved| :: build(resolved[k].spec).Some?
      ensures ok ==> tenants == old(tenants) + resolved && accountToTenant == accounts
      ensures ok ==> forall id :: id in tenantDrivers <==> Names(resolved, id)
      ensures ok ==> forall k | 0 <= k < |resolved| ::
        resolved[k].id in tenantDrivers && tenantDrivers[resolved[k].id] == build(resolved[k].spec)
    {
      accountToTenant, tenantDrivers := accounts, map[];
      for i := 0 to |resolved|
        invariant tenants == old(tenants) + resolved[..i] && accountToTenant == accounts
        invariant forall id :: id in tenantDrivers <==> Names(resolved[..i], id)
        invariant forall k | 0 <= k < i :: build(resolved[k].spec).Some?
        invariant forall k | 0 <= k < i ::
          resolved[k].id in tenantDrivers && tenantDrivers[resolved[k].id] == build(resolved[k].spec)
      {
        var built := build(resolved[i].spec);
        if built.None? { return false; }
        NamesOneMore(resolved, i);
        tenantDrivers := tenantDrivers[resolved[i].id := built];
        tenants := tenants + [resolved[i]];
      }
      assert resolved[..|resolved|] == resolved;
      return true;
    }

    method SetDefaultTenantDriver()
      modifies this`driver, this`spec
      ensures driver == if DEFAULT_TENANT in tenantDrivers then tenantDrivers[DEFAULT_TENANT] else old(driver)
      ensures spec == SpecOf(tenants, DEFAULT_TENANT, old(spec))
    {
      if DEFAULT_TENANT in tenantDrivers { driver := tenantDrivers[DEFAULT_TENANT]; }
      for i := 0 to |tenants|
        invariant spec == old(spec) &&
          SpecOf(tenants, DEFAULT_TENANT, old(spec)) == SpecOf(tenants[i..], DEFAULT_TENANT, old(spec))
      {
        if tenants[i].id == DEFAULT_TENANT {
          spec := Some(tenants[i].spec);
          return;
        }
      }
    }

    /** Spreads a batch over the drivers: one call per tenant, on that tenant's driver, with that
        tenant's rows in batch order; a single-tenant pool makes one call with the whole batch. */
    method DestroyByTenant(rows: seq<Row>, answer: Call -> Answer)
      returns (failed: seq<Row>, error: Option<string>, calls: seq<Call>)
      ensures !IsMultiTenant() ==> calls == [Call(DEFAULT_TENANT, driver, rows)]
      ensures IsMultiTenant() ==> Spread(rows, calls) && SentByName(calls)
      ensures failed == Failures(calls, answer) && error == FirstError(calls, answer)
    {
      if !IsMultiTenant() {
        calls := [Call(DEFAULT_TENANT, driver, rows)];
        failed, error := answer(calls[0]).failed, answer(calls[0]).error;
        return;
      }
      failed, error, calls := CallEachTenant(rows, answer);
      SpreadByName(rows, calls);
    }

    /** One call for every tenant in the batch. */
    method CallEachTenant(rows: seq<Row>, answer: Call -> Answer)
      returns (failed: seq<Row>, error: Option<string>, calls: seq<Call>)
      ensures Spread(rows, calls)
      ensures failed == Failures(calls, answer) && error == FirstError(calls, answer)
    {
      var byTenant := Group(rows);
      failed, error, calls := [], None, [];
      var left := byTenant.Keys;
      ghost var done: set<string> := {};
      while left != {}
        invariant done !! left && done + left == byTenant.Keys && Answered(rows, done, calls)
        invariant failed == Failures(calls, answer) && error == FirstError(calls, answer)
        decreases left
      {
        var tenant :| tenant in left;
        var call := Call(tenant, DriverForTenant(tenant), byTenant[tenant]);
        AnsweredOneMore(rows, done, calls, call);
        failed, error := Collect(failed, error, calls, call, answer);
        left, done, calls := left - {tenant}, done + {tenant}, calls + [call];
      }
    }

    /** The answer of one call added to those so far; the first error is kept. */
    method Collect(failed: seq<Row>, error: Option<string>, calls: seq<Call>, call: Call, answer: Call -> Answer)
      returns (more: seq<Row>, first: Option<string>)
      requires failed == Failures(calls, answer) && error == FirstError(calls, answer)
      ensures more == Failures(calls + [call], answer) && first == FirstError(calls + [call], answer)
    {
      var a := answer(call);
      FirstErrorAppend(calls, call, answer);
      FailuresAppend(calls, call, answer);
      return failed + a.failed, if error.None? then a.error else error;
    }

    /** Every call serves one tenant on its driver, no tenant twice, these tenants and no others. */
    ghost predicate Answered(rows: seq<Row>, tenants: set<string>, calls: seq<Call>)
      reads this
    {
      && (forall k | 0 <= k < |calls| :: calls[k].driver == DriverForTenant(calls[k].tenant))
      && (forall k | 0 <= k < |calls| :: calls[k].rows == Of(rows, calls[k].tenant))
      && (forall j, k | 0 <= j < k < |calls| :: calls[j].tenant != calls[k].tenant)
      && (forall k | 0 <= k < |calls| :: calls[k].tenant in tenants)
      && (forall t | t in tenants :: exists k | 0 <= k < |calls| :: calls[k].tenant == t)
    }

    lemma {:induction false} AnsweredOneMore(rows: seq<Row>, tenants: set<string>, calls: seq<Call>, call: Call)
      requires Answered(rows, tenants, calls) && call.tenant !in tenants
      requires call.driver == DriverForTenant(call.tenant) && call.rows == Of(rows, call.tenant)
      ensures Answered(rows, tenants + {call.tenant}, calls + [call])
    {
      var more := calls + [call];
      forall t | t in tenants + {call.tenant} ensures exists k | 0 <= k < |more| :: more[k].tenant == t {
        if t in tenants {
          var k :| 0 <= k < |calls| && calls[k].tenant == t;
          assert more[k].tenant == t;
        } else {
          assert more[|calls|].tenant == t;
        }
      }
    }

    ghost predicate Spread(rows: seq<Row>, calls: seq<Call>)
      reads this
    {
      Answered(rows, set row | row in rows :: TenantOf(row), calls)
    }

    /** An instance goes with the call for the tenant its row names, one that names none with the default
        tenant's. */
    static ghost predicate SentByName(calls: seq<Call>) {
      forall k, row | 0 <= k < |calls| && row in calls[k].rows ::
        calls[k].tenant == if row.tenant != "" then row.tenant else "default"
    }

    lemma {:induction false} SpreadByName(rows: seq<Row>, calls: seq<Call>)
      requires Spread(rows, calls)
      ensures SentByName(calls)
    {
      forall k, row: Row | 0 <= k < |calls| && row in calls[k].rows
        ensures calls[k].tenant == if row.tenant != "" then row.tenant else "default"
      {
        OnlyOf(rows, calls[k].tenant);
      }
    }

    /** So in a pool that serves its tenants, an instance is destroyed by the driver built from the
        merged spec of the tenant its row names, and one that names none by the pool's own. */
    lemma {:induction false} DestroyedAtHome(inst: Instance, decode: Decoder, build: Builder, rows: seq<Row>,
                                             calls: seq<Call>, k: nat, row: Row)
      requires Serves(inst, decode, build) && Spread(rows, calls) && k < |calls| && row in calls[k].rows
      ensures forall i | 0 <= i < |inst.tenants| && row.tenant == Identity(inst.tenants[i]) ::
        calls[k].driver == build(Expand(inst, inst.tenants[i], decode).spec)
      ensures row.tenant == "" || row.tenant == "default" ==> calls[k].driver == build(inst.spec.value)
    {
      SpreadByName(rows, calls);
      assert calls[k].driver == DriverForTenant(calls[k].tenant);
    }

    /** A pool without tenants has one driver for everybody. */
    lemma {:induction false} SingleTenantUsesOneDriver(name: string)
      requires tenantDrivers == map[] && accountToTenant == map[]
      ensures DriverForTenant(name) == driver && ResolveTenant(name) == "default" && !IsMultiTenant()
    {
    }

    /** For every routed account, the account itself and its tenant lead to the same driver, the
        one built from the tenant's merged spec. The one account this can fail for is one that is
        literally called "default": it holds for that one exactly when both specs build the same. */
    lemma {:induction false} RoutesAgree(inst: Instance, decode: Decoder, build: Builder, account: string, i: nat)
      requires Serves(inst, decode, build)
      requires i < |inst.tenants| && Lists(inst.tenants[i], account)
      ensures DriverForTenant(ResolveTenant(account)) == build(Expand(inst, inst.tenants[i], decode).spec)
      ensures DriverForTenant(account) == DriverForTenant(ResolveTenant(account)) <==>
        account != DEFAULT_TENANT || build(inst.spec.value) == build(Expand(inst, inst.tenants[i], decode).spec)
    {
      var t := inst.tenants[i];
      assert account in accountToTenant && accountToTenant[account] == Identity(t);
      if account in tenantDrivers && account != DEFAULT_TENANT {
        var j :| 0 <= j < |inst.tenants| && Identity(inst.tenants[j]) == account;
        NotAnothersIdentity(inst, decode, account, i, j);
      }
    }

    /** Everybody else is served by the default tenant. */
    lemma {:induction false} OthersUseDefault(inst: Instance, decode: Decoder, build: Builder, account: string)
      requires Serves(inst, decode, build) && forall i | 0 <= i < |inst.tenants| :: !Lists(inst.tenants[i], account)
      ensures ResolveTenant(account) == DEFAULT_TENANT
      ensures DriverForTenant(ResolveTenant(account)) == build(inst.spec.value) == driver
      ensures !Identified(inst, account) ==> DriverForTenant(account) == driver
    {
      assert DEFAULT_TENANT in tenantDrivers;
    }

    lemma {:induction false} ResolvesTo(entries: seq<Override>, account: string, i: nat)
      requires Routes(entries, |entries|, accountToTenant) && i < |entries| && Lists(entries[i], account)
      ensures ResolveTenant(account) == Identity(entries[i])
    {
    }

    /** The variants served to a routed account are its tenant's: the pool's own with the tenant's
        overrides merged in. */
    lemma {:induction false} VariantsAgree(inst: Instance, decode: Decoder, account: string, i: nat,
                                           otherwise: seq<PoolVariant>)
      requires Accepts(inst, decode) && Routes(inst.tenants, |inst.tenants|, accountToTenant)
      requires Expanded(inst, decode, tenants, |inst.tenants|)
      requires i < |inst.tenants| && Lists(inst.tenants[i], account)
      ensures VariantsOf(tenants, ResolveTenant(account), otherwise) == Merged(inst.variants, inst.tenants[i].variants)
    {
      ResolvesTo(inst.tenants, account, i);
      VariantsAt(inst, decode, tenants, i, otherwise);
    }

    /** Which are the pool's own, in their order, wherever the tenant has no word of its own. */
    lemma {:induction false} PoolVariantsServed(inst: Instance, decode: Decoder, account: string, i: nat,
                                                otherwise: seq<PoolVariant>)
      requires Accepts(inst, decode) && Routes(inst.tenants, |inst.tenants|, accountToTenant)
      requires Expanded(inst, decode, tenants, |inst.tenants|)
      requires i < |inst.tenants| && Lists(inst.tenants[i], account)
      ensures KeepsBase(inst.variants, inst.tenants[i].variants, VariantsOf(tenants, ResolveTenant(account), otherwise))
      ensures inst.tenants[i].variants == [] ==>
        VariantsOf(tenants, ResolveTenant(account), otherwise) == inst.variants
    {
      VariantsAgree(inst, decode, account, i, otherwise);
      PoolVariantsStay(inst.variants, inst.tenants[i].variants);
    }

    lemma {:induction false} ServedAll(rows: seq<Row>, calls: seq<Call>, row: Row)
      requires Spread(rows, calls) && row in rows
      ensures Serving(calls, |calls|, TenantOf(row))
    {
      var tenants := set r | r in rows :: TenantOf(r);
      assert TenantOf(row) in tenants;
    }

    /** No instance is destroyed twice or left out, and each only by its own tenant's driver. */
    lemma {:induction false} SpreadIsPartition(rows: seq<Row>, calls: seq<Call>)
      requires Spread(rows, calls)
      ensures multiset(AllRows(calls, |calls|)) == multiset(rows)
      ensures forall k, row | 0 <= k < |calls| && row in calls[k].rows ::
        calls[k].driver == DriverForTenant(TenantOf(row))
    {
      forall k, row: Row | 0 <= k < |calls| && row in calls[k].rows
        ensures calls[k].driver == DriverForTenant(TenantOf(row))
      {
        OnlyOf(rows, calls[k].tenant);
      }
      forall row: Row ensures multiset(AllRows(calls, |calls|))[row] == multiset(rows)[row] {
        forall k | 0 <= k < |calls|
          ensures multiset(calls[k].rows)[row] == if calls[k].tenant == TenantOf(row) then multiset(rows)[row] else 0
        {
          ShareCount(rows, calls[k].tenant, row);
        }
        CountedOnce(calls, |calls|, row, TenantOf(row), multiset(rows)[row]);
        if row in rows { ServedAll(rows, calls, row); }
      }
    }
  }

  predicate Names(tenants: seq<ResolvedTenant>, id: string) {
    exists k | 0 <= k < |tenants| :: tenants[k].id == id
  }

  predicate Identified(inst: Instance, id: string) {
    exists i | 0 <= i < |inst.tenants| :: Identity(inst.tenants[i]) == id
  }

  lemma {:induction false} NamesOneMore(tenants: seq<ResolvedTenant>, i: nat)
    requires i < |tenants|
    ensures forall id :: Names(tenants[..i + 1], id) <==> Names(tenants[..i], id) || id == tenants[i].id
  {
    forall id | Names(tenants[..i], id) ensures Names(tenants[..i + 1], id) {
      var k :| 0 <= k < i && tenants[..i][k].id == id;
      assert tenants[..i + 1][k].id == id;
    }
    assert tenants[..i + 1][i] == tenants[i];
  }

  function VariantsOf(tenants: seq<ResolvedTenant>, id: string, otherwise: seq<PoolVariant>): seq<PoolVariant> {
    if tenants == [] then otherwise
    else if tenants[0].id == id then tenants[0].variants
    else VariantsOf(tenants[1..], id, otherwise)
  }

  lemma {:induction false} VariantsAt(inst: Instance, decode: Decoder, tenants: seq<ResolvedTenant>, i: nat,
                                      otherwise: seq<PoolVariant>)
    requires Accepts(inst, decode) && Expanded(inst, decode, tenants, |inst.tenants|) && i < |inst.tenants|
    ensures VariantsOf(tenants, Identity(inst.tenants[i]), otherwise) == Merged(inst.variants, inst.tenants[i].variants)
  {
    SeparateIds(inst, decode, tenants);
    EntryAt(inst, decode, tenants, i);
    FoundAt(tenants, i + 1, otherwise);
  }

  lemma {:induction false} EntryAt(inst: Instance, decode: Decoder, tenants: seq<ResolvedTenant>, i: nat)
    requires Expanded(inst, decode, tenants, |inst.tenants|) && i < |inst.tenants|
    ensures i + 1 < |tenants| && tenants[i + 1].id == Identity(inst.tenants[i])
    ensures tenants[i + 1].variants == Merged(inst.variants, inst.tenants[i].variants)
  {
  }

  lemma {:induction false} FoundAt(tenants: seq<ResolvedTenant>, k: nat, otherwise: seq<PoolVariant>)
    requires k < |tenants| && forall i, j | 0 <= i < j < |tenants| :: tenants[i].id != tenants[j].id
    ensures VariantsOf(tenants, tenants[k].id, otherwise) == tenants[k].variants
  {
    if k > 0 { FoundAt(tenants[1..], k - 1, otherwise); }
  }

  function SpecOf(tenants: seq<ResolvedTenant>, id: string, otherwise: Option<Json>): Option<Json> {
    if tenants == [] then otherwise
    else if tenants[0].id == id then Some(tenants[0].spec)
    else SpecOf(tenants[1..], id, otherwise)
  }

  method Group(rows: seq<Row>) returns (byTenant: map<string, seq<Row>>)
    ensures byTenant.Keys == set row | row in rows :: TenantOf(row)
    ensures forall t | t in byTenant :: byTenant[t] == Of(rows, t)
  {
    byTenant := map[];
    for i := 0 to |rows|
      invariant byTenant.Keys == set row | row in rows[..i] :: TenantOf(row)
      invariant forall t | t in byTenant :: byTenant[t] == Of(rows[..i], t)
    {
      var t := TenantOf(rows[i]);
      assert rows[..i + 1][..i] == rows[..i] && rows[..i + 1] == rows[..i] + [rows[i]];
      if t !in byTenant { NoneOf(rows[..i], t); }
      byTenant := byTenant[t := (if t in byTenant then byTenant[t] else []) + [rows[i]]];
    }
    assert rows[..|rows|] == rows;
  }

  lemma {:induction false} NoneOf(rows: seq<Row>, tenant: string)
    requires forall row | row in rows :: TenantOf(row) != tenant
    ensures Of(rows, tenant) == []
  {
    if rows != [] { NoneOf(rows[..|rows| - 1], tenant); }
  }

  lemma {:induction false} OnlyOf(rows: seq<Row>, tenant: string)
    ensures forall row | row in Of(rows, tenant) :: TenantOf(row) == tenant
  {
    if rows != [] { OnlyOf(rows[..|rows| - 1], tenant); }
  }

  /** A tenant's share is in batch order: that of two batches in a row is their shares in a row. */
  lemma {:induction false} ShareInOrder(x: seq<Row>, y: seq<Row>, tenant: string)
    ensures Of(x + y, tenant) == Of(x, tenant) + Of(y, tenant)
    decreases |y|
  {
    if y == [] {
      assert x + y == x;
    } else {
      var n := |y| - 1;
      ShareInOrder(x, y[..n], tenant);
      assert (x + y)[..|x + y| - 1] == x + y[..n];
    }
  }

  /** A tenant's share holds each of its rows as often as the batch does, and no others. */
  lemma {:induction false} ShareCount(rows: seq<Row>, tenant: string, row: Row)
    ensures multiset(Of(rows, tenant))[row] == if TenantOf(row) == tenant then multiset(rows)[row] else 0
  {
    if rows != [] {
      ShareCount(rows[..|rows| - 1], tenant, row);
      assert rows == rows[..|rows| - 1] + [rows[|rows| - 1]];
    }
  }

  predicate Serving(calls: seq<Call>, n: nat, tenant: string)
    requires n <= |calls|
  {
    exists k | 0 <= k < n :: calls[k].tenant == tenant
  }

  /** When each tenant has one call, and only the call of this tenant has the row, c times. */
  lemma {:induction false} CountedOnce(calls: seq<Call>, n: nat, row: Row, tenant: string, c: nat)
    requires n <= |calls|
    requires forall k | 0 <= k < |calls| :: multiset(calls[k].rows)[row] == if calls[k].tenant == tenant then c else 0
    requires forall j, k | 0 <= j < k < |calls| :: calls[j].tenant != calls[k].tenant
    ensures multiset(AllRows(calls, n))[row] == if Serving(calls, n, tenant) then c else 0
    decreases n
  {
    if n > 0 {
      CountedOnce(calls, n - 1, row, tenant, c);
      ConcatCount(AllRows(calls, n - 1), calls[n - 1].rows, row);
      if calls[n - 1].tenant == tenant {
        assert !Serving(calls, n - 1, tenant) && Serving(calls, n, tenant);
      } else {
        assert Serving(calls, n, tenant) ==> Serving(calls, n - 1, tenant);
        assert Serving(calls, n - 1, tenant) ==> Serving(calls, n, tenant);
      }
    }
  }

  lemma {:induction false} ConcatCount(x: seq<Row>, y: seq<Row>, row: Row)
    ensures multiset(x + y)[row] == multiset(x)[row] + multiset(y)[row]
  {
  }

  lemma {:induction false} FailuresAppend(calls: seq<Call>, call: Call, answer: Call -> Answer)
    ensures Failures(calls + [call], answer) == Failures(calls, answer) + answer(call).failed
  {
    assert (calls + [call])[..|calls|] == calls;
  }

  lemma {:induction false} FirstErrorAppend(calls: seq<Call>, call: Call, answer: Call -> Answer)
    ensures FirstError(calls + [call], answer) ==
      if FirstError(calls, answer).Some? then FirstError(calls, answer) else answer(call).error
  {
    if calls != [] {
      FirstErrorAppend(calls[1..], call, answer);
      assert (calls + [call])[1..] == calls[1..] + [call];
    }
  }

  /** A listed account that is some entry's identity is the identity of the entry listing it. */
  lemma {:induction false} NotAnothersIdentity(inst: Instance, decode: Decoder, account: string, i: nat, j: nat)
    requires Accepts(inst, decode) && i < |inst.tenants| && j < |inst.tenants|
    requires Lists(inst.tenants[i], account) && Identity(inst.tenants[j]) == account
    ensures i == j
  {
    Clash(inst.tenants[i], inst.tenants[j], account);
  }

  lemma {:induction false} Clash(t: Override, u: Override, account: string)
    requires Lists(t, account) && Identity(u) == account && u.ids != []
    ensures Conflict(t, u) && Conflict(u, t)
  {
    ConflictIsSymmetric(t, u);
    if u.groupId == "" { assert Lists(u, account) && account in t.ids; }
  }

  lemma {:induction false} BuiltForAll(inst: Instance, decode: Decoder, tenants: seq<ResolvedTenant>)
    requires Accepts(inst, decode) && Expanded(inst, decode, tenants, |inst.tenants|)
    ensures forall i | 0 <= i < |inst.tenants| ::
      i + 1 < |tenants| && tenants[i + 1] == Expand(inst, inst.tenants[i], decode)
    ensures forall id :: Names(tenants, id) <==>
      id == DEFAULT_TENANT || Identified(inst, id)
  {
    forall id ensures Names(tenants, id) <==>
      id == DEFAULT_TENANT || Identified(inst, id)
    {
      if k :| 0 <= k < |tenants| && tenants[k].id == id {
        if k > 0 { assert Identity(inst.tenants[k - 1]) == tenants[(k - 1) + 1].id; }
      }
      if i :| 0 <= i < |inst.tenants| && Identity(inst.tenants[i]) == id {
        assert tenants[i + 1].id == id;
      }
      if id == DEFAULT_TENANT { assert tenants[0].id == id; }
    }
  }

  lemma {:induction false} DefaultFirst(tenants: seq<ResolvedTenant>, otherwise: Option<Json>)
    requires tenants != [] && tenants[0].id == DEFAULT_TENANT
    ensures SpecOf(tenants, DEFAULT_TENANT, otherwise) == Some(tenants[0].spec)
  {
  }

  lemma {:induction false} SeparateIds(inst: Instance, decode: Decoder, tenants: seq<ResolvedTenant>)
    requires Accepts(inst, decode) && Expanded(inst, decode, tenants, |inst.tenants|)
    ensures forall i, j | 0 <= i < j < |tenants| :: tenants[i].id != tenants[j].id
  {
    forall i, j | 0 <= i < j < |tenants| ensures tenants[i].id != tenants[j].id {
      assert tenants[(j - 1) + 1].id == Identity(inst.tenants[j - 1]);
      if i > 0 {
        assert tenants[(i - 1) + 1].id == Identity(inst.tenants[i - 1]);
        assert !Conflict(inst.tenants[i - 1], inst.tenants[j - 1]);
      }
    }
  }

  lemma {:induction false} Unbuilt(inst: Instance, decode: Decoder, build: Builder, tenants: seq<ResolvedTenant>,
                                   i: nat)
    requires Accepts(inst, decode) && Expanded(inst, decode, tenants, |inst.tenants|)
    requires i < |tenants| && build(tenants[i].spec).None?
    ensures build(inst.spec.value).None? ||
      exists k | 0 <= k < |inst.tenants| :: build(Expand(inst, inst.tenants[k], decode).spec).None?
  {
    if i > 0 { assert tenants[(i - 1) + 1] == Expand(inst, inst.tenants[i - 1], decode); }
  }

  /** Builds a driver named after whether the spec is empty. */
  function ByEmptiness(spec: Json): Option<Driver> {
    Some(Driver(if spec == Obj(map[]) then "base" else "tenant"))
  }

  /** The exceptional account: listed under a group id with a spec of its own, "default" is accepted,
      and it gets the base driver when it is looked up directly but its tenant's driver when it is
      resolved first. */
  method LiteralDefaultIsTorn(groupId: string) returns (pool: Pool, inst: Instance)
    requires groupId != "" && groupId != DEFAULT_TENANT
    ensures Accepts(inst, tree => Some(tree)) && pool.Serves(inst, tree => Some(tree), ByEmptiness)
    ensures |inst.tenants| == 1 && inst.tenants[0].groupId == groupId && Lists(inst.tenants[0], DEFAULT_TENANT)
    ensures pool.ResolveTenant(DEFAULT_TENANT) == groupId
    ensures pool.DriverForTenant(DEFAULT_TENANT) == Some(Driver("base"))
    ensures pool.DriverForTenant(pool.ResolveTenant(DEFAULT_TENANT)) == Some(Driver("tenant"))
  {
    var own := Obj(map["region" := Leaf("r")]);
    var entry := Override(groupId, [DEFAULT_TENANT], Some(own), None, None, []);
    inst := Instance(Some(Obj(map[])), 0, 0, [], [entry]);
    assert "region" in Overlay(Obj(map[]), own).fields;
    assert entry.ids[0] == DEFAULT_TENANT;
    pool := new Pool(None, None, []);
    var ok := pool.ApplyTenants(inst, tree => Some(tree), ByEmptiness);
    pool.RoutesAgree(inst, tree => Some(tree), ByEmptiness, DEFAULT_TENANT, 0);
  }
}
