/** Sizing warm pools: how many instances each tenant of a pool gains and loses in one build. */
module PoolBuilding {

  const DEFAULT_TENANT := "default"
  const DEFAULT_VARIANT := "default"

  datatype Strategy = Greedy | MinMax

  datatype Row = Row(id: string, tenant: string, variant: string)

  datatype Variant = Variant(id: string, pool: int)

  datatype TenantPool = TenantPool(id: string, minSize: int, maxSize: int, variants: seq<Variant>)

  /** What a build does, in order: one destroy call per shrinking tenant, one creation per instance. */
  datatype Action = Destroy(tenant: string, rows: seq<Row>) | Create(tenant: string, variant: string)

  function NormalMax(maxSize: int): int {
    if maxSize <= 0 then 1 else maxSize
  }

  function NormalMin(minSize: int, maxSize: int): int {
    if minSize < 0 || minSize > NormalMax(maxSize) then 0 else minSize
  }

  function CountCreateRemove(strategy: Strategy, minSize: int, maxSize: int, busy: int, free: int): (int, int) {
    match strategy
    case Greedy => (if minSize > free then minSize - free else 0, 0)
    case MinMax =>
      var count := busy + free;
      if count > NormalMax(maxSize)
        then (0, if free < count - NormalMax(maxSize) then free else count - NormalMax(maxSize))
      else if count < NormalMin(minSize, maxSize) then (NormalMin(minSize, maxSize) - count, 0)
      else (0, 0)
  }

  // ---------- Strategies ----------

  /** Removals come out of the free instances, the total ends between the bounds (busy instances
      may hold it above), and asking again asks for nothing. */
  lemma {:induction false} MinMaxSettles(minSize: int, maxSize: int, busy: nat, free: nat)
    ensures var (create, remove) := CountCreateRemove(MinMax, minSize, maxSize, busy, free);
      && 0 <= create && 0 <= remove <= free
      && NormalMin(minSize, maxSize) <= busy + free + create - remove
      && (busy + free + create - remove <= NormalMax(maxSize) || busy + free + create - remove == busy)
      && CountCreateRemove(MinMax, minSize, maxSize, busy, free + create - remove) == (0, 0)
  {
  }

  /** No other change that ends between the bounds touches fewer instances. */
  lemma {:induction false} MinMaxIsLeast(minSize: int, maxSize: int, busy: nat, free: nat, create: nat, remove: nat)
    requires remove <= free
    requires NormalMin(minSize, maxSize) <= busy + free + create - remove
    requires busy + free + create - remove <= NormalMax(maxSize) || busy + free + create - remove <= busy
    ensures var (c, r) := CountCreateRemove(MinMax, minSize, maxSize, busy, free); c + r <= create + remove
  {
  }

  lemma {:induction false} GreedySettles(minSize: int, maxSize: int, busy: nat, free: nat)
    ensures var (create, remove) := CountCreateRemove(Greedy, minSize, maxSize, busy, free);
      && create >= 0 && remove == 0 && free + create >= minSize && (create > 0 ==> free + create == minSize)
      && CountCreateRemove(Greedy, minSize, maxSize, busy, free + create) == (0, 0)
  {
  }

  // ---------- One tenant ----------

  function TenantOrDefault(tenant: string): string {
    if tenant == "" then DEFAULT_TENANT else tenant
  }

  predicate IsBase(row: Row) {
    row.variant == "" || row.variant == DEFAULT_VARIANT
  }

  /** The default-variant rows of one tenant, in listing order. */
  function Own(rows: seq<Row>, tenant: string): (own: seq<Row>) {
    if rows == [] then []
    else
      var n := |rows| - 1;
      Own(rows[..n], tenant) + if IsBase(rows[n]) && TenantOrDefault(rows[n].tenant) == tenant then [rows[n]] else []
  }

  function Creations(tenant: string, variant: string, n: int): (actions: seq<Action>)
    ensures |actions| == if n < 0 then 0 else n
    ensures forall a | a in actions :: a == Create(tenant, variant)
    decreases n
  {
    if n <= 0 then [] else Creations(tenant, variant, n - 1) + [Create(tenant, variant)]
  }

  function VariantCreations(tenant: string, variants: seq<Variant>): seq<Action> {
    if variants == [] then []
    else
      var n := |variants| - 1;
      VariantCreations(tenant, variants[..n]) + Creations(tenant, variants[n].id, variants[n].pool)
  }

  function Least(x: int, y: int): int {
    if x < y then x else y
  }

  /** What a build does for a tenant with `busy` busy rows and these free rows of its own. */
  function TenantActions(strategy: Strategy, t: TenantPool, busy: nat, free: seq<Row>): seq<Action> {
    var (create, remove) := CountCreateRemove(strategy, t.minSize, t.maxSize, busy, |free|);
    (if remove > 0 then [Destroy(t.id, free[..Least(remove, |free|)])] else [])
    + Creations(t.id, DEFAULT_VARIANT, create) + VariantCreations(t.id, t.variants)
  }

  /** A tenant's part of a build. */
  datatype Part = Part(tenant: string, actions: seq<Action>)

  function Share(strategy: Strategy, t: TenantPool, busy: seq<Row>, free: seq<Row>): Part {
    Part(t.id, TenantActions(strategy, t, |Own(busy, t.id)|, Own(free, t.id)))
  }

  function Shares(strategy: Strategy, tenants: seq<TenantPool>, busy: seq<Row>, free: seq<Row>): (parts: seq<Part>)
    ensures |parts| == |tenants| && forall k | 0 <= k < |tenants| :: parts[k] == Share(strategy, tenants[k], busy, free)
  {
    seq(|tenants|, k requires 0 <= k < |tenants| => Share(strategy, tenants[k], busy, free))
  }

  function Concat(parts: seq<Part>, n: nat): seq<Action>
    requires n <= |parts|
  {
    if n == 0 then [] else Concat(parts, n - 1) + parts[n - 1].actions
  }

  /** A whole build: every tenant's part, in the order of the tenants. */
  function AllActions(strategy: Strategy, tenants: seq<TenantPool>, busy: seq<Row>, free: seq<Row>): seq<Action> {
    Concat(Shares(strategy, tenants, busy, free), |tenants|)
  }

  // ---------- The build ----------

  function CountOf(byTenant: map<string, nat>, tenant: string): nat {
    if tenant in byTenant then byTenant[tenant] else 0
  }

  function RowsOf(byTenant: map<string, seq<Row>>, tenant: string): seq<Row> {
    if tenant in byTenant then byTenant[tenant] else []
  }

  ghost predicate Counts(byTenant: map<string, nat>, rows: seq<Row>) {
    forall tenant :: CountOf(byTenant, tenant) == |Own(rows, tenant)|
  }

  ghost predicate Groups(byTenant: map<string, seq<Row>>, rows: seq<Row>) {
    forall tenant :: RowsOf(byTenant, tenant) == Own(rows, tenant)
  }

  method CountBusy(busy: seq<Row>) returns (byTenant: map<string, nat>)
    ensures Counts(byTenant, busy)
  {
    byTenant := map[];
    for i := 0 to |busy|
      invariant Counts(byTenant, busy[..i])
    {
      assert busy[..i + 1][..i] == busy[..i];
      if IsBase(busy[i]) {
        var t := TenantOrDefault(busy[i].tenant);
        byTenant := byTenant[t := CountOf(byTenant, t) + 1];
      }
    }
    assert busy[..|busy|] == busy;
  }

  method GroupFree(free: seq<Row>) returns (byTenant: map<string, seq<Row>>)
    ensures Groups(byTenant, free)
  {
    byTenant := map[];
    for i := 0 to |free|
      invariant Groups(byTenant, free[..i])
    {
      assert free[..i + 1][..i] == free[..i];
      if IsBase(free[i]) {
        var t := TenantOrDefault(free[i].tenant);
        byTenant := byTenant[t := RowsOf(byTenant, t) + [free[i]]];
      }
    }
    assert free[..|free|] == free;
  }

  /** Counts once, then handles the tenants one after the other. Hibernating rows count as free. */
  method BuildPoolMultiTenant(strategy: Strategy, tenants: seq<TenantPool>, busy: seq<Row>, free: seq<Row>,
                              hibernating: seq<Row>) returns (log: seq<Action>)
    ensures log == AllActions(strategy, tenants, busy, free + hibernating)
  {
    var busyByTenant := CountBusy(busy);
    var freeByTenant := GroupFree(free + hibernating);
    log := BuildTenants(strategy, tenants, busyByTenant, freeByTenant, busy, free + hibernating);
  }

  method BuildTenants(strategy: Strategy, tenants: seq<TenantPool>, busyByTenant: map<string, nat>,
                      freeByTenant: map<string, seq<Row>>, ghost busy: seq<Row>, ghost free: seq<Row>)
    returns (log: seq<Action>)
    requires Counts(busyByTenant, busy) && Groups(freeByTenant, free)
    ensures log == AllActions(strategy, tenants, busy, free)
  {
    ghost var parts := Shares(strategy, tenants, busy, free);
    log := [];
    for i := 0 to |tenants|
      invariant log == Concat(parts, i)
    {
      var actions := BuildShare(strategy, tenants[i], busyByTenant, freeByTenant, busy, free);
      assert parts[i].actions == actions;
      log := log + actions;
    }
  }

  method BuildShare(strategy: Strategy, t: TenantPool, busyByTenant: map<string, nat>,
                    freeByTenant: map<string, seq<Row>>, ghost busy: seq<Row>, ghost free: seq<Row>)
    returns (log: seq<Action>)
    requires Counts(busyByTenant, busy) && Groups(freeByTenant, free)
    ensures Part(t.id, log) == Share(strategy, t, busy, free)
  {
    log := BuildTenant(strategy, t, CountOf(busyByTenant, t.id), RowsOf(freeByTenant, t.id));
  }

  method BuildTenant(strategy: Strategy, t: TenantPool, busy: nat, free: seq<Row>) returns (log: seq<Action>)
    ensures log == TenantActions(strategy, t, busy, free)
  {
    var (create, remove) := CountCreateRemove(strategy, t.minSize, t.maxSize, busy, |free|);
    log := [];
    if remove > 0 {
      var removeCount := remove;
      if removeCount > |free| { removeCount := |free|; }
      log := log + [Destroy(t.id, free[..removeCount])];
    }
    ghost var before := log;
    var shouldCreate := create;
    while shouldCreate > 0
      invariant shouldCreate <= create && (create >= 0 ==> shouldCreate >= 0)
      invariant log == before + Creations(t.id, DEFAULT_VARIANT, create - shouldCreate)
    {
      log := log + [Create(t.id, DEFAULT_VARIANT)];
      shouldCreate := shouldCreate - 1;
    }
    var variantLog := CreateVariants(t);
    log := log + variantLog;
  }

  /** Every variant's warm instances, whatever exists already. */
  method CreateVariants(t: TenantPool) returns (log: seq<Action>)
    ensures log == VariantCreations(t.id, t.variants)
  {
    log := [];
    for i := 0 to |t.variants|
      invariant log == VariantCreations(t.id, t.variants[..i])
    {
      assert t.variants[..i + 1][..i] == t.variants[..i];
      ghost var before := log;
      if t.variants[i].pool > 0 {
        for j := 0 to t.variants[i].pool
          invariant log == before + Creations(t.id, t.variants[i].id, j)
        {
          log := log + [Create(t.id, t.variants[i].id)];
        }
      }
    }
    assert t.variants[..|t.variants|] == t.variants;
  }

  // ---------- Tenants do not disturb each other ----------

  /** Those of the first n actions that concern one tenant. */
  function Concerning(log: seq<Action>, n: nat, tenant: string): seq<Action>
    requires n <= |log|
  {
    if n == 0 then []
    else Concerning(log, n - 1, tenant) + if log[n - 1].tenant == tenant then [log[n - 1]] else []
  }

  function For(log: seq<Action>, tenant: string): seq<Action> {
    Concerning(log, |log|, tenant)
  }

  predicate DistinctTenants(tenants: seq<TenantPool>) {
    forall i, j | 0 <= i < j < |tenants| :: tenants[i].id != tenants[j].id
  }

  lemma {:induction false} ConcerningPrefix(x: seq<Action>, y: seq<Action>, n: nat, tenant: string)
    requires n <= |x|
    ensures Concerning(x + y, n, tenant) == Concerning(x, n, tenant)
    decreases n
  {
    if n > 0 { ConcerningPrefix(x, y, n - 1, tenant); }
  }

  lemma {:induction false} ConcerningConcat(x: seq<Action>, y: seq<Action>, n: nat, tenant: string)
    requires n <= |y|
    ensures Concerning(x + y, |x| + n, tenant) == Concerning(x, |x|, tenant) + Concerning(y, n, tenant)
    decreases n
  {
    if n == 0 {
      ConcerningPrefix(x, y, |x|, tenant);
    } else {
      ConcerningConcat(x, y, n - 1, tenant);
      assert (x + y)[|x| + n - 1] == y[n - 1];
    }
  }

  lemma {:induction false} ForConcat(x: seq<Action>, y: seq<Action>, tenant: string)
    ensures For(x + y, tenant) == For(x, tenant) + For(y, tenant)
  {
    ConcerningConcat(x, y, |y|, tenant);
  }

  predicate OwnedBy(part: Part) {
    forall k | 0 <= k < |part.actions| :: part.actions[k].tenant == part.tenant
  }

  lemma {:induction false} AllOrNothing(part: Part, n: nat, tenant: string)
    requires n <= |part.actions| && OwnedBy(part)
    ensures part.tenant != tenant ==> Concerning(part.actions, n, tenant) == []
    ensures part.tenant == tenant ==> |Concerning(part.actions, n, tenant)| == n
    ensures part.tenant == tenant ==> forall k | 0 <= k < n :: Concerning(part.actions, n, tenant)[k] == part.actions[k]
    decreases n
  {
    if n > 0 { AllOrNothing(part, n - 1, tenant); }
  }

  lemma {:induction false} ForPart(part: Part, tenant: string)
    requires OwnedBy(part)
    ensures For(part.actions, tenant) == if part.tenant == tenant then part.actions else []
  {
    AllOrNothing(part, |part.actions|, tenant);
  }

  lemma {:induction false} VariantsAreOwn(tenant: string, variants: seq<Variant>)
    ensures forall a | a in VariantCreations(tenant, variants) :: a.tenant == tenant
  {
    if variants != [] { VariantsAreOwn(tenant, variants[..|variants| - 1]); }
  }

  lemma {:induction false} ActionsAreOwn(strategy: Strategy, t: TenantPool, busy: nat, free: seq<Row>)
    ensures forall a | a in TenantActions(strategy, t, busy, free) :: a.tenant == t.id
  {
    VariantsAreOwn(t.id, t.variants);
  }

  /** When every part concerns its own tenant, a tenant's actions are exactly its part. */
  lemma {:induction false} PartOf(parts: seq<Part>, n: nat, i: nat)
    requires n <= |parts| && i < |parts|
    requires forall j, k | 0 <= j < k < |parts| :: parts[j].tenant != parts[k].tenant
    requires forall k | 0 <= k < |parts| :: OwnedBy(parts[k])
    ensures For(Concat(parts, n), parts[i].tenant) == if i < n then parts[i].actions else []
    decreases n
  {
    if n > 0 {
      var last := parts[n - 1];
      PartOf(parts, n - 1, i);
      ForConcat(Concat(parts, n - 1), last.actions, parts[i].tenant);
      assert OwnedBy(last);
      ForPart(last, parts[i].tenant);
    }
  }

  /** What a build does for a tenant is decided by that tenant's sizes, variants and own rows. */
  lemma {:induction false} OwnActionsOnly(strategy: Strategy, tenants: seq<TenantPool>, busy: seq<Row>,
                                          free: seq<Row>, i: nat)
    requires DistinctTenants(tenants) && i < |tenants|
    ensures For(AllActions(strategy, tenants, busy, free), tenants[i].id) ==
      TenantActions(strategy, tenants[i], |Own(busy, tenants[i].id)|, Own(free, tenants[i].id))
  {
    var parts := Shares(strategy, tenants, busy, free);
    forall k | 0 <= k < |tenants| ensures OwnedBy(parts[k]) && parts[k].tenant == tenants[k].id {
      ShareIsOwn(strategy, tenants[k], busy, free);
    }
    PartOf(parts, |tenants|, i);
  }

  lemma {:induction false} ShareIsOwn(strategy: Strategy, t: TenantPool, busy: seq<Row>, free: seq<Row>)
    ensures OwnedBy(Share(strategy, t, busy, free))
  {
    ActionsAreOwn(strategy, t, |Own(busy, t.id)|, Own(free, t.id));
    var actions := Share(strategy, t, busy, free).actions;
    assert forall k | 0 <= k < |actions| :: actions[k] in actions;
  }

  /** Two pools that agree on one tenant's settings and own rows treat it alike, whatever the other
      tenants are and however busy they are. */
  lemma {:induction false} TenantsDoNotInterfere(strategy: Strategy, tenants: seq<TenantPool>, others: seq<TenantPool>,
                                                 i: nat, j: nat, busy: seq<Row>, free: seq<Row>, busy2: seq<Row>,
                                                 free2: seq<Row>)
    requires DistinctTenants(tenants) && DistinctTenants(others)
    requires i < |tenants| && j < |others| && tenants[i] == others[j]
    requires |Own(busy, tenants[i].id)| == |Own(busy2, tenants[i].id)| &&
      Own(free, tenants[i].id) == Own(free2, tenants[i].id)
    ensures For(AllActions(strategy, tenants, busy, free), tenants[i].id) ==
      For(AllActions(strategy, others, busy2, free2), tenants[i].id)
  {
    OwnActionsOnly(strategy, tenants, busy, free, i);
    OwnActionsOnly(strategy, others, busy2, free2, j);
  }

  /** Once a tenant's base pool has the size a build gave it, the next build leaves the base pool
      alone; it creates all the variant instances again. */
  lemma {:induction false} SecondBuild(t: TenantPool, busy: nat, free: seq<Row>, later: seq<Row>)
    requires var (create, remove) := CountCreateRemove(MinMax, t.minSize, t.maxSize, busy, |free|);
      |later| == |free| + create - remove
    ensures TenantActions(MinMax, t, busy, later) == VariantCreations(t.id, t.variants)
  {
    MinMaxSettles(t.minSize, t.maxSize, busy, |free|);
  }
}
