/** What one build leaves of a tenant's base pool: whose rows it destroys, and the size it ends with. */
module PoolSizes {
  import opened PoolBuilding

  // ---------- Whose rows ----------

  lemma {:induction false} Regrouped<T>(x: seq<T>, y: seq<T>, z: seq<T>)
    ensures x + (y + z) == x + y + z
  {
  }

  lemma {:induction false} Unfolded<T>(s: seq<T>)
    requires s != []
    ensures s == s[..|s| - 1] + [s[|s| - 1]]
  {
  }

  lemma {:induction false} OwnOfConcat(x: seq<Row>, y: seq<Row>, tenant: string)
    ensures Own(x + y, tenant) == Own(x, tenant) + Own(y, tenant)
    decreases |y|
  {
    if y == [] {
      assert x + y == x;
    } else {
      var front, last := y[..|y| - 1], y[|y| - 1];
      Unfolded(y);
      OwnOfLast(front, last, tenant);
      OwnOfConcat(x, front, tenant);
      OwnOfLast(x + front, last, tenant);
      Regrouped(x, front, [last]);
      Regrouped(Own(x, tenant), Own(front, tenant), Own([last], tenant));
    }
  }

  lemma {:induction false} OwnOfLast(x: seq<Row>, row: Row, tenant: string)
    ensures Own(x + [row], tenant) == Own(x, tenant) + Own([row], tenant)
  {
    assert (x + [row])[..|x|] == x && [row][..0] == [];
  }

  lemma {:induction false} OwnOfOne(row: Row, tenant: string)
    ensures
      var base := row.variant == "" || row.variant == "default";
      var named := row.tenant != "" && row.tenant == tenant;
      var unnamed := row.tenant == "" && tenant == "default";
      Own([row], tenant) == if base && (named || unnamed) then [row] else []
  {
    assert [row][..0] == [];
  }

  /** A tenant's own rows are those of the default variant that name the tenant, or no tenant at all
      when it is the default tenant; they keep the listing's order. */
  lemma {:induction false} OwnIsFilter(x: seq<Row>, row: Row, y: seq<Row>, tenant: string)
    ensures Own([], tenant) == []
    ensures
      var base := row.variant == "" || row.variant == "default";
      var named := row.tenant != "" && row.tenant == tenant;
      var unnamed := row.tenant == "" && tenant == "default";
      Own(x + [row] + y, tenant) == Own(x, tenant) + (if base && (named || unnamed) then [row] else []) + Own(y, tenant)
  {
    OwnOfConcat(x + [row], y, tenant);
    OwnOfLast(x, row, tenant);
    OwnOfOne(row, tenant);
  }

  // ---------- What a log changes ----------

  /** The rows a log destroys. */
  function Removed(log: seq<Action>): seq<Row> {
    if log == [] then []
    else
      var n := |log| - 1;
      Removed(log[..n]) + if log[n].Destroy? then log[n].rows else []
  }

  /** How many instances of a variant a log creates. */
  function Added(log: seq<Action>, variant: string): nat {
    if log == [] then 0
    else
      var n := |log| - 1;
      Added(log[..n], variant) + if log[n].Create? && log[n].variant == variant then 1 else 0
  }

  /** How many warm instances of a variant the settings ask for. */
  function Warm(variants: seq<Variant>, variant: string): nat {
    if variants == [] then 0
    else
      var n := |variants| - 1;
      Warm(variants[..n], variant)
      + if variants[n].id == variant && variants[n].pool > 0 then variants[n].pool else 0
  }

  lemma {:induction false} RemovedOfLast(x: seq<Action>, a: Action)
    ensures Removed(x + [a]) == Removed(x) + if a.Destroy? then a.rows else []
  {
    assert (x + [a])[..|x|] == x;
  }

  lemma {:induction false} RemovedOfConcat(x: seq<Action>, y: seq<Action>)
    ensures Removed(x + y) == Removed(x) + Removed(y)
    decreases |y|
  {
    if y == [] {
      assert x + y == x;
    } else {
      var front, last := y[..|y| - 1], y[|y| - 1];
      Unfolded(y);
      RemovedOfLast(front, last);
      RemovedOfConcat(x, front);
      RemovedOfLast(x + front, last);
      Regrouped(x, front, [last]);
      Regrouped(Removed(x), Removed(front), if last.Destroy? then last.rows else []);
    }
  }

  lemma {:induction false} AddedOfLast(x: seq<Action>, a: Action, variant: string)
    ensures Added(x + [a], variant) == Added(x, variant) + if a.Create? && a.variant == variant then 1 else 0
  {
    assert (x + [a])[..|x|] == x;
  }

  lemma {:induction false} AddedOfConcat(x: seq<Action>, y: seq<Action>, variant: string)
    ensures Added(x + y, variant) == Added(x, variant) + Added(y, variant)
    decreases |y|
  {
    if y == [] {
      assert x + y == x;
    } else {
      var front, last := y[..|y| - 1], y[|y| - 1];
      Unfolded(y);
      AddedOfLast(front, last, variant);
      AddedOfConcat(x, front, variant);
      AddedOfLast(x + front, last, variant);
      Regrouped(x, front, [last]);
    }
  }

  lemma {:induction false} CreationsAdd(tenant: string, id: string, n: int, variant: string)
    ensures Removed(Creations(tenant, id, n)) == []
    ensures Added(Creations(tenant, id, n), variant) == if id == variant && n > 0 then n else 0
    decreases n
  {
    if n > 0 {
      CreationsAdd(tenant, id, n - 1, variant);
      assert Creations(tenant, id, n)[..n - 1] == Creations(tenant, id, n - 1);
    }
  }

  lemma {:induction false} VariantsAdd(tenant: string, variants: seq<Variant>, variant: string)
    ensures Removed(VariantCreations(tenant, variants)) == []
    ensures Added(VariantCreations(tenant, variants), variant) == Warm(variants, variant)
    decreases |variants|
  {
    if variants != [] {
      var n := |variants| - 1;
      var before, last := VariantCreations(tenant, variants[..n]), Creations(tenant, variants[n].id, variants[n].pool);
      VariantsAdd(tenant, variants[..n], variant);
      CreationsAdd(tenant, variants[n].id, variants[n].pool, variant);
      RemovedOfConcat(before, last);
      AddedOfConcat(before, last, variant);
    }
  }

  /** The destroy call of a shrinking tenant, if any. */
  function Destroys(tenant: string, free: seq<Row>, remove: int): seq<Action>
    requires remove <= |free|
  {
    if remove > 0 then [Destroy(tenant, free[..remove])] else []
  }

  lemma {:induction false} DestroysRemove(tenant: string, free: seq<Row>, remove: int, variant: string)
    requires 0 <= remove <= |free|
    ensures Removed(Destroys(tenant, free, remove)) == free[..remove]
    ensures Added(Destroys(tenant, free, remove), variant) == 0
  {
    if remove > 0 { assert Destroys(tenant, free, remove)[..0] == []; }
  }

  /** Three parts of which only the first destroys and only the others create. */
  lemma {:induction false} PartsChange(x: seq<Action>, y: seq<Action>, z: seq<Action>, variant: string)
    requires Added(x, variant) == 0 && Removed(y) == [] && Removed(z) == []
    ensures Removed(x + y + z) == Removed(x)
    ensures Added(x + y + z, variant) == Added(y, variant) + Added(z, variant)
  {
    RemovedOfConcat(x, y);
    RemovedOfConcat(x + y, z);
    AddedOfConcat(x, y, variant);
    AddedOfConcat(x + y, z, variant);
  }

  lemma {:induction false} RemovesFree(strategy: Strategy, minSize: int, maxSize: int, busy: nat, free: nat)
    ensures
      var (create, remove) := CountCreateRemove(strategy, minSize, maxSize, busy, free);
      0 <= create && 0 <= remove <= free
  {
  }

  lemma {:induction false} ActionsChange(strategy: Strategy, t: TenantPool, busy: nat, free: seq<Row>, variant: string)
    ensures
      var (create, remove) := CountCreateRemove(strategy, t.minSize, t.maxSize, busy, |free|);
      var log := TenantActions(strategy, t, busy, free);
      && 0 <= create && 0 <= remove <= |free| && Removed(log) == free[..remove]
      && Added(log, variant) == Warm(t.variants, variant) + if variant == "default" then create else 0
  {
    var (create, remove) := CountCreateRemove(strategy, t.minSize, t.maxSize, busy, |free|);
    RemovesFree(strategy, t.minSize, t.maxSize, busy, |free|);
    ActionsByCounts(t, free, create, remove, variant);
  }

  lemma {:induction false} ActionsByCounts(t: TenantPool, free: seq<Row>, create: nat, remove: nat, variant: string)
    requires remove <= |free|
    ensures
      var log := Destroys(t.id, free, remove) + Creations(t.id, DEFAULT_VARIANT, create) +
        VariantCreations(t.id, t.variants);
      && Removed(log) == free[..remove]
      && Added(log, variant) == Warm(t.variants, variant) + if variant == "default" then create else 0
  {
    DestroysRemove(t.id, free, remove, variant);
    CreationsAdd(t.id, DEFAULT_VARIANT, create, variant);
    VariantsAdd(t.id, t.variants, variant);
    PartsChange(Destroys(t.id, free, remove), Creations(t.id, DEFAULT_VARIANT, create),
                VariantCreations(t.id, t.variants), variant);
  }

  // ---------- Sizes ----------

  /** The base pool of a tenant with these settings after `created` creations and `removed` removals. */
  predicate Sized(minSize: int, maxSize: int, busy: nat, free: nat, created: int, removed: nat) {
    var size := busy + free + created - removed;
    && created >= 0 && (created == 0 || removed == 0)
    && (size <= (if maxSize >= 1 then maxSize else 1) || size == busy)
    && (0 <= minSize <= maxSize ==> size >= minSize)
    && (maxSize <= 0 && minSize == 1 ==> size >= 1)
    && (created > 0 ==> size == minSize && 0 <= minSize && (minSize <= maxSize || minSize == 1))
    && (removed > 0 ==> size == busy || size == (if maxSize >= 1 then maxSize else 1))
  }

  lemma {:induction false} MinMaxSizes(minSize: int, maxSize: int, busy: nat, free: nat)
    ensures
      var (create, remove) := CountCreateRemove(MinMax, minSize, maxSize, busy, free);
      remove >= 0 && Sized(minSize, maxSize, busy, free, create, remove)
  {
  }

  /** One build of a whole pool, as one tenant sees it: the rows destroyed are the first free ones of its
      own, the base pool ends between the bounds of its settings unless busy rows alone exceed them, and
      every variant gets its warm instances. */
  lemma {:induction false} SizeAfterBuild(tenants: seq<TenantPool>, busy: seq<Row>, free: seq<Row>, i: nat,
                                          variant: string)
    requires DistinctTenants(tenants) && i < |tenants|
    ensures
      var t := tenants[i];
      var mine := For(AllActions(MinMax, tenants, busy, free), t.id);
      && Removed(mine) <= Own(free, t.id)
      && Sized(t.minSize, t.maxSize, |Own(busy, t.id)|, |Own(free, t.id)|,
               Added(mine, "default") - Warm(t.variants, "default"), |Removed(mine)|)
      && (variant != "default" ==> Added(mine, variant) == Warm(t.variants, variant))
  {
    var t := tenants[i];
    OwnActionsOnly(MinMax, tenants, busy, free, i);
    ActionsChange(MinMax, t, |Own(busy, t.id)|, Own(free, t.id), "default");
    ActionsChange(MinMax, t, |Own(busy, t.id)|, Own(free, t.id), variant);
    MinMaxSizes(t.minSize, t.maxSize, |Own(busy, t.id)|, |Own(free, t.id)|);
  }

  /** The greedy strategy removes nothing and leaves at least the minimum free, whatever is busy. */
  lemma {:induction false} FreeAfterGreedyBuild(tenants: seq<TenantPool>, busy: seq<Row>, free: seq<Row>, i: nat)
    requires DistinctTenants(tenants) && i < |tenants|
    ensures
      var t := tenants[i];
      var mine := For(AllActions(Greedy, tenants, busy, free), t.id);
      var created := Added(mine, "default") - Warm(t.variants, "default");
      && Removed(mine) == [] && created >= 0 && |Own(free, t.id)| + created >= t.minSize
      && (created > 0 ==> |Own(free, t.id)| + created == t.minSize)
  {
    OwnActionsOnly(Greedy, tenants, busy, free, i);
    ActionsChange(Greedy, tenants[i], |Own(busy, tenants[i].id)|, Own(free, tenants[i].id), "default");
  }
}
