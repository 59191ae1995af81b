/** Expanding a pool instance into its tenants and the map from account to tenant. */
module Tenants {
  import opened Options
  import opened SpecMerge
  import opened VariantMerge

  const DEFAULT_TENANT := "default"

  /** One entry of the tenants block. */
  datatype Override = Override(groupId: string, ids: seq<string>, spec: Option<Json>, pool: Option<int>,
                               limit: Option<int>, variants: seq<PoolVariant>)

  datatype Instance = Instance(spec: Option<Json>, pool: int, limit: int, variants: seq<PoolVariant>,
                               tenants: seq<Override>)

  datatype ResolvedTenant = ResolvedTenant(id: string, spec: Json, pool: int, limit: int, variants: seq<PoolVariant>)

  datatype Error =
    | MissingBaseSpec
    | EmptyIds(entry: nat)
    | EmptyAccount(entry: nat)
    | DuplicateTenant(entry: nat)
    | MergeFailed(entry: nat)
    | SharedAccount(entry: nat, account: string)
    | ShadowingGroup(entry: nat)

  datatype Resolution = Resolved(tenants: seq<ResolvedTenant>, accounts: map<string, string>) | Rejected(error: Error)

  /** Reads a merged tree back into the spec type of the pool; None when it does not fit. */
  type Decoder = Json -> Option<Json>

  function Identity(t: Override): string {
    if t.groupId != "" then t.groupId else if t.ids == [] then "" else t.ids[0]
  }

  function MergedSpec(base: Json, over: Json, decode: Decoder): Option<Json> {
    if base.Leaf? || over.Leaf? then None else decode(Overlay(base, over))
  }

  /** What one entry must be like whatever the others are. */
  predicate Sound(base: Json, t: Override, decode: Decoder) {
    && t.ids != [] && Identity(t) != "" && Identity(t) != DEFAULT_TENANT
    && (t.spec.Some? ==> MergedSpec(base, t.spec.value, decode).Some?)
  }

  predicate Lists(t: Override, account: string) {
    account != "" && account in t.ids
  }

  predicate ShareAccount(t: Override, u: Override) {
    exists account | account in t.ids :: Lists(t, account) && Lists(u, account)
  }

  /** Two entries that cannot live in one pool. */
  predicate Conflict(t: Override, u: Override) {
    Identity(t) == Identity(u) || ShareAccount(t, u) || Lists(u, t.groupId) || Lists(t, u.groupId)
  }

  predicate Accepts(inst: Instance, decode: Decoder) {
    && inst.spec.Some?
    && (forall i | 0 <= i < |inst.tenants| :: Sound(inst.spec.value, inst.tenants[i], decode))
    && (forall i, j | 0 <= i < j < |inst.tenants| :: !Conflict(inst.tenants[i], inst.tenants[j]))
  }

  /** The account map of the first n entries: every listed account leads to the identity of the
      entries listing it, and no other account is in it. */
  ghost predicate Routes(tenants: seq<Override>, n: nat, accounts: map<string, string>)
    requires n <= |tenants|
  {
    && (forall i, a | 0 <= i < n && Lists(tenants[i], a) :: a in accounts && accounts[a] == Identity(tenants[i]))
    && (forall a | a in accounts :: exists i | 0 <= i < n :: Lists(tenants[i], a))
  }

  function OrDefault(value: Option<int>, default_: int): int {
    if value.Some? then value.value else default_
  }

  function Base(inst: Instance): ResolvedTenant
    requires inst.spec.Some?
  {
    ResolvedTenant(DEFAULT_TENANT, inst.spec.value, inst.pool, inst.limit, inst.variants)
  }

  function Expand(inst: Instance, t: Override, decode: Decoder): ResolvedTenant
    requires inst.spec.Some? && Sound(inst.spec.value, t, decode)
  {
    var spec := if t.spec.Some? then MergedSpec(inst.spec.value, t.spec.value, decode).value else inst.spec.value;
    ResolvedTenant(Identity(t), spec, OrDefault(t.pool, inst.pool), OrDefault(t.limit, inst.limit),
                   Merged(inst.variants, t.variants))
  }

  /** The base tenant first, then every entry in order. */
  predicate Expanded(inst: Instance, decode: Decoder, tenants: seq<ResolvedTenant>, n: nat)
    requires n <= |inst.tenants|
  {
    && inst.spec.Some? && (forall i | 0 <= i < n :: Sound(inst.spec.value, inst.tenants[i], decode))
    && |tenants| == n + 1 && tenants[0] == Base(inst)
    && forall i | 0 <= i < n :: tenants[i + 1] == Expand(inst, inst.tenants[i], decode)
  }

  /** What a tenant ends up with, setting by setting: its own where it has one, the pool's otherwise.
      `tree` is its spec before it is read back: along every path the tenant's word counts, and the
      pool's where the tenant says nothing. */
  lemma {:induction false} OwnSettingsWin(inst: Instance, decode: Decoder, tenants: seq<ResolvedTenant>, i: nat)
    returns (tree: Json)
    requires Expanded(inst, decode, tenants, |inst.tenants|) && i < |inst.tenants|
    ensures tenants[0] == ResolvedTenant("default", inst.spec.value, inst.pool, inst.limit, inst.variants)
    ensures
      var t, r := inst.tenants[i], tenants[i + 1];
      && (t.groupId != "" ==> r.id == t.groupId) && (t.groupId == "" && t.ids != [] ==> r.id == t.ids[0])
      && (t.pool.Some? ==> r.pool == t.pool.value) && (t.pool.None? ==> r.pool == inst.pool)
      && (t.limit.Some? ==> r.limit == t.limit.value) && (t.limit.None? ==> r.limit == inst.limit)
      && KeepsBase(inst.variants, t.variants, r.variants) && (t.variants == [] ==> r.variants == inst.variants)
    ensures
      var t, r := inst.tenants[i], tenants[i + 1];
      && (t.spec.None? ==> r.spec == inst.spec.value)
      && (t.spec.Some? ==>
            && decode(tree) == Some(r.spec)
            && forall path | !Shadowed(t.spec.value, path) ::
                 See(tree, path) == if See(t.spec.value, path) != Nothing then See(t.spec.value, path)
                                    else See(inst.spec.value, path))
  {
    var t, r := inst.tenants[i], tenants[i + 1];
    assert r == Expand(inst, t, decode);
    PoolVariantsStay(inst.variants, t.variants);
    tree := inst.spec.value;
    if t.spec.Some? {
      tree := Overlay(inst.spec.value, t.spec.value);
      forall path | !Shadowed(t.spec.value, path)
        ensures See(tree, path) == if See(t.spec.value, path) != Nothing then See(t.spec.value, path)
                                   else See(inst.spec.value, path)
      {
        PathByPath(inst.spec.value, t.spec.value, path);
      }
    }
  }

  /** The reason given for a rejection is a real one. */
  predicate Justified(inst: Instance, decode: Decoder, e: Error) {
    match e
    case MissingBaseSpec => inst.spec.None?
    case EmptyIds(i) => i < |inst.tenants| && inst.tenants[i].ids == []
    case EmptyAccount(i) => i < |inst.tenants| && Identity(inst.tenants[i]) == ""
    case DuplicateTenant(i) =>
      && i < |inst.tenants|
      && (Identity(inst.tenants[i]) == DEFAULT_TENANT ||
          exists j | 0 <= j < i :: Identity(inst.tenants[j]) == Identity(inst.tenants[i]))
    case MergeFailed(i) =>
      && inst.spec.Some? && i < |inst.tenants| && inst.tenants[i].spec.Some?
      && MergedSpec(inst.spec.value, inst.tenants[i].spec.value, decode).None?
    case SharedAccount(i, a) =>
      i < |inst.tenants| && Lists(inst.tenants[i], a) && exists j | 0 <= j < i :: Lists(inst.tenants[j], a)
    case ShadowingGroup(i) =>
      i < |inst.tenants| && exists j | 0 <= j < |inst.tenants| && j != i ::
        Lists(inst.tenants[j], inst.tenants[i].groupId)
  }

  method MergeSpec(base: Json, over: Json, decode: Decoder) returns (merged: Option<Json>)
    ensures merged == MergedSpec(base, over, decode)
  {
    if base.Leaf? || over.Leaf? { return None; }
    var tree := DeepMerge(base.fields, over.fields);
    return decode(Obj(tree));
  }

  /** Among the first n entries no identity is used twice and no account is listed twice. */
  predicate Separate(tenants: seq<Override>, n: nat)
    requires n <= |tenants|
  {
    forall j, k | 0 <= j < k < n ::
      Identity(tenants[j]) != Identity(tenants[k]) && !ShareAccount(tenants[j], tenants[k])
  }

  predicate NewIdentity(tenants: seq<Override>, i: nat)
    requires i < |tenants|
  {
    Identity(tenants[i]) != DEFAULT_TENANT && forall k | 0 <= k < i :: Identity(tenants[k]) != Identity(tenants[i])
  }

  /** The first i entries are resolved, routed and do not clash. */
  ghost predicate Progress(inst: Instance, decode: Decoder, i: nat, tenants: seq<ResolvedTenant>,
                           accounts: map<string, string>)
    requires i <= |inst.tenants|
  {
    Expanded(inst, decode, tenants, i) && Routes(inst.tenants, i, accounts) && Separate(inst.tenants, i)
  }

  ghost predicate Seen(tenants: seq<Override>, i: nat, seen: set<string>)
    requires i <= |tenants|
  {
    forall x :: x in seen <==> x == DEFAULT_TENANT || exists k | 0 <= k < i :: Identity(tenants[k]) == x
  }

  /** No explicit group id is an account of another entry. */
  predicate NoneShadowed(tenants: seq<Override>) {
    forall j, k | 0 <= j < |tenants| && 0 <= k < |tenants| && j != k :: !Lists(tenants[k], tenants[j].groupId)
  }

  method ResolveTenants(inst: Instance, decode: Decoder) returns (r: Resolution)
    ensures r.Resolved? <==> Accepts(inst, decode)
    ensures r.Resolved? ==>
      Expanded(inst, decode, r.tenants, |inst.tenants|) && Routes(inst.tenants, |inst.tenants|, r.accounts)
    ensures r.Rejected? ==> Justified(inst, decode, r.error)
  {
    if inst.spec.None? { return Rejected(MissingBaseSpec); }
    var tenants, accounts := [Base(inst)], map[];
    var seen := {DEFAULT_TENANT};
    NothingDoneYet(inst, decode);
    for i := 0 to |inst.tenants|
      invariant Progress(inst, decode, i, tenants, accounts) && Seen(inst.tenants, i, seen)
    {
      var error;
      tenants, accounts, error := AddEntry(inst, decode, i, tenants, accounts, seen);
      if error.Some? { return Rejected(error.value); }
      SeenOneMore(inst.tenants, i, seen);
      seen := seen + {Identity(inst.tenants[i])};
    }
    var shadow := FindShadowingGroup(inst.tenants, accounts);
    if shadow.Some? {
      ShadowConflicts(inst, decode, shadow.value);
      return Rejected(ShadowingGroup(shadow.value));
    }
    AllAccepted(inst, decode, tenants);
    return Resolved(tenants, accounts);
  }

  /** Checks one entry, resolves it and routes its accounts. */
  method AddEntry(inst: Instance, decode: Decoder, i: nat, tenants: seq<ResolvedTenant>, accounts: map<string, string>,
                  seen: set<string>)
    returns (moreTenants: seq<ResolvedTenant>, moreAccounts: map<string, string>, error: Option<Error>)
    requires inst.spec.Some? && i < |inst.tenants|
    requires Progress(inst, decode, i, tenants, accounts) && Seen(inst.tenants, i, seen)
    ensures error.None? ==> Progress(inst, decode, i + 1, moreTenants, moreAccounts)
    ensures error.Some? ==> !Accepts(inst, decode) && Justified(inst, decode, error.value)
  {
    var t := inst.tenants[i];
    if t.ids == [] {
      Unsound(inst, i, decode);
      return tenants, accounts, Some(EmptyIds(i));
    }
    var tenantID := Identity(t);
    if tenantID == "" {
      Unsound(inst, i, decode);
      return tenants, accounts, Some(EmptyAccount(i));
    }
    if tenantID in seen {
      assert !NewIdentity(inst.tenants, i);
      OldIdentity(inst, i, decode);
      return tenants, accounts, Some(DuplicateTenant(i));
    }
    assert NewIdentity(inst.tenants, i);
    var tenant := ResolveOne(inst, i, decode);
    if tenant.None? {
      Unsound(inst, i, decode);
      return tenants, accounts, Some(MergeFailed(i));
    }
    ExpandedOneMore(inst, decode, tenants, i);
    var clash;
    moreAccounts, clash := AddAccounts(t.ids, tenantID, accounts);
    if clash.Some? {
      OldAccount(inst, i, decode, clash.value);
      return tenants, accounts, Some(SharedAccount(i, clash.value));
    }
    AccountsAdded(inst.tenants, i, accounts, moreAccounts);
    return tenants + [tenant.value], moreAccounts, None;
  }

  /** One entry resolved against the base tenant. */
  method ResolveOne(inst: Instance, i: nat, decode: Decoder) returns (tenant: Option<ResolvedTenant>)
    requires inst.spec.Some? && i < |inst.tenants|
    requires inst.tenants[i].ids != [] && Identity(inst.tenants[i]) !in {"", DEFAULT_TENANT}
    ensures tenant.Some? <==> Sound(inst.spec.value, inst.tenants[i], decode)
    ensures tenant.Some? ==> tenant.value == Expand(inst, inst.tenants[i], decode)
    ensures tenant.None? ==> Justified(inst, decode, MergeFailed(i))
  {
    var t := inst.tenants[i];
    var spec := inst.spec.value;
    if t.spec.Some? {
      var merged := MergeSpec(inst.spec.value, t.spec.value, decode);
      if merged.None? { return None; }
      spec := merged.value;
    }
    var variants := MergeVariants(inst.variants, t.variants);
    return Some(ResolvedTenant(Identity(t), spec, OrDefault(t.pool, inst.pool), OrDefault(t.limit, inst.limit),
        variants));
  }

  /** Routes the accounts of one entry, unless one of them is routed elsewhere already. */
  method AddAccounts(ids: seq<string>, tenantID: string, before: map<string, string>)
    returns (accounts: map<string, string>, clash: Option<string>)
    ensures clash.None? ==>
      && (forall a :: a in accounts <==> a in before || (a != "" && a in ids))
      && (forall a | a in accounts :: accounts[a] == if a != "" && a in ids then tenantID else before[a])
      && (forall a | a in before && a != "" && a in ids :: before[a] == tenantID)
    ensures clash.Some? ==>
      clash.value != "" && clash.value in ids && clash.value in before && before[clash.value] != tenantID
  {
    accounts := before;
    for j := 0 to |ids|
      invariant forall a :: a in accounts <==> a in before || (a != "" && a in ids[..j])
      invariant forall a | a in accounts :: accounts[a] == if a != "" && a in ids[..j] then tenantID else before[a]
      invariant forall a | a in before && a != "" && a in ids[..j] :: before[a] == tenantID
    {
      var account := ids[j];
      if account != "" {
        if account in accounts && accounts[account] != tenantID { return accounts, Some(account); }
        accounts := accounts[account := tenantID];
      }
    }
    assert ids[..|ids|] == ids;
    return accounts, None;
  }

  /** The last pass: no explicit group id may be another entry's account. */
  method FindShadowingGroup(tenants: seq<Override>, accounts: map<string, string>) returns (found: Option<nat>)
    requires Routes(tenants, |tenants|, accounts) && Separate(tenants, |tenants|)
    ensures found.None? <==> NoneShadowed(tenants)
    ensures found.Some? ==>
      && found.value < |tenants|
      && exists k | 0 <= k < |tenants| && k != found.value :: Lists(tenants[k], tenants[found.value].groupId)
  {
    for i := 0 to |tenants|
      invariant forall j, k | 0 <= j < i && 0 <= k < |tenants| && j != k :: !Lists(tenants[k], tenants[j].groupId)
    {
      var group := tenants[i].groupId;
      if group != "" && group in accounts && accounts[group] != group {
        var k :| 0 <= k < |tenants| && Lists(tenants[k], group);
        assert k != i;
        return Some(i);
      }
      forall k | 0 <= k < |tenants| && k != i ensures !Lists(tenants[k], group) {
        assert Identity(tenants[k]) != Identity(tenants[i]);
      }
    }
    return None;
  }

  lemma {:induction false} SeenOneMore(tenants: seq<Override>, i: nat, seen: set<string>)
    requires i < |tenants| && Seen(tenants, i, seen)
    ensures Seen(tenants, i + 1, seen + {Identity(tenants[i])})
  {
  }

  lemma {:induction false} NothingDoneYet(inst: Instance, decode: Decoder)
    requires inst.spec.Some?
    ensures Progress(inst, decode, 0, [Base(inst)], map[]) && Seen(inst.tenants, 0, {DEFAULT_TENANT})
  {
  }

  lemma {:induction false} Unsound(inst: Instance, i: nat, decode: Decoder)
    requires inst.spec.Some? && i < |inst.tenants| && !Sound(inst.spec.value, inst.tenants[i], decode)
    ensures !Accepts(inst, decode)
  {
  }

  lemma {:induction false} ExpandedOneMore(inst: Instance, decode: Decoder, tenants: seq<ResolvedTenant>, i: nat)
    requires i < |inst.tenants| && Expanded(inst, decode, tenants, i) && Sound(inst.spec.value, inst.tenants[i], decode)
    ensures Expanded(inst, decode, tenants + [Expand(inst, inst.tenants[i], decode)], i + 1)
  {
  }

  lemma {:induction false} ShadowConflicts(inst: Instance, decode: Decoder, i: nat)
    requires i < |inst.tenants|
    requires exists k | 0 <= k < |inst.tenants| && k != i :: Lists(inst.tenants[k], inst.tenants[i].groupId)
    ensures !Accepts(inst, decode)
  {
    var k :| 0 <= k < |inst.tenants| && k != i && Lists(inst.tenants[k], inst.tenants[i].groupId);
    if k < i {
      assert Conflict(inst.tenants[k], inst.tenants[i]);
    } else {
      assert Conflict(inst.tenants[i], inst.tenants[k]);
    }
  }

  lemma {:induction false} AllAccepted(inst: Instance, decode: Decoder, tenants: seq<ResolvedTenant>)
    requires Expanded(inst, decode, tenants, |inst.tenants|) && Separate(inst.tenants, |inst.tenants|)
    requires NoneShadowed(inst.tenants)
    ensures Accepts(inst, decode)
  {
  }

  lemma {:induction false} OldIdentity(inst: Instance, i: nat, decode: Decoder)
    requires i < |inst.tenants| && !NewIdentity(inst.tenants, i)
    ensures !Accepts(inst, decode) && Justified(inst, decode, DuplicateTenant(i))
  {
    if Identity(inst.tenants[i]) != DEFAULT_TENANT {
      var k :| 0 <= k < i && Identity(inst.tenants[k]) == Identity(inst.tenants[i]);
      assert Conflict(inst.tenants[k], inst.tenants[i]);
    }
  }

  lemma {:induction false} OldAccount(inst: Instance, i: nat, decode: Decoder, account: string)
    requires i < |inst.tenants| && Lists(inst.tenants[i], account)
    requires exists k | 0 <= k < i :: Lists(inst.tenants[k], account)
    ensures !Accepts(inst, decode) && Justified(inst, decode, SharedAccount(i, account))
  {
    var k :| 0 <= k < i && Lists(inst.tenants[k], account);
    assert Conflict(inst.tenants[k], inst.tenants[i]);
  }

  /** `accounts` is `before` with the accounts of entry i routed to its identity. */
  ghost predicate Adds(tenants: seq<Override>, i: nat, before: map<string, string>, accounts: map<string, string>)
    requires i < |tenants|
  {
    && (forall a :: a in accounts <==> a in before || Lists(tenants[i], a))
    && (forall a | a in accounts :: accounts[a] == if Lists(tenants[i], a) then Identity(tenants[i]) else before[a])
    && (forall a | a in before && Lists(tenants[i], a) :: before[a] == Identity(tenants[i]))
  }

  lemma {:induction false} AccountsAdded(tenants: seq<Override>, i: nat, before: map<string, string>,
                                         accounts: map<string, string>)
    requires i < |tenants| && Routes(tenants, i, before) && Separate(tenants, i) && NewIdentity(tenants, i)
    requires Adds(tenants, i, before, accounts)
    ensures Routes(tenants, i + 1, accounts) && Separate(tenants, i + 1)
  {
    RoutesAdded(tenants, i, before, accounts);
    forall k | 0 <= k < i ensures !ShareAccount(tenants[k], tenants[i]) {
      NothingShared(tenants, i, before, k);
    }
  }

  lemma {:induction false} RoutesAdded(tenants: seq<Override>, i: nat, before: map<string, string>,
                                       accounts: map<string, string>)
    requires i < |tenants| && Routes(tenants, i, before) && Adds(tenants, i, before, accounts)
    ensures Routes(tenants, i + 1, accounts)
  {
    forall k, a | 0 <= k < i + 1 && Lists(tenants[k], a) ensures a in accounts && accounts[a] == Identity(tenants[k]) {
      if k < i { assert a in before && before[a] == Identity(tenants[k]); }
    }
    forall a | a in accounts ensures exists k | 0 <= k < i + 1 :: Lists(tenants[k], a) {
      if !Lists(tenants[i], a) {
        var k :| 0 <= k < i && Lists(tenants[k], a);
      }
    }
  }

  lemma {:induction false} NothingShared(tenants: seq<Override>, i: nat, before: map<string, string>, k: nat)
    requires k < i < |tenants| && Routes(tenants, i, before) && NewIdentity(tenants, i)
    requires forall a | a in before && Lists(tenants[i], a) :: before[a] == Identity(tenants[i])
    ensures !ShareAccount(tenants[k], tenants[i])
  {
    forall a | Lists(tenants[k], a) ensures !Lists(tenants[i], a) {
      assert a in before && before[a] == Identity(tenants[k]);
    }
  }

  // ---------- The order of the entries does not matter ----------

  lemma {:induction false} ConflictIsSymmetric(t: Override, u: Override)
    ensures Conflict(t, u) == Conflict(u, t)
  {
    forall x: Override, y: Override | ShareAccount(x, y) ensures ShareAccount(y, x) {
      var a :| a in x.ids && Lists(x, a) && Lists(y, a);
      assert a in y.ids;
    }
  }

  /** Some two entries, at different places, conflict. */
  ghost predicate AnyConflict(entries: multiset<Override>) {
    exists t, u | t in entries && u in entries :: Conflict(t, u) && (t == u ==> entries[t] >= 2)
  }

  lemma {:induction false} TwoPlaces(entries: seq<Override>, t: Override)
    requires multiset(entries)[t] >= 2
    ensures exists i, j | 0 <= i < j < |entries| :: entries[i] == t && entries[j] == t
  {
    var n := |entries| - 1;
    assert entries == entries[..n] + [entries[n]];
    if entries[n] != t {
      TwoPlaces(entries[..n], t);
      var i, j :| 0 <= i < j < n && entries[..n][i] == t && entries[..n][j] == t;
      assert entries[i] == t && entries[j] == t;
    } else {
      assert t in multiset(entries[..n]);
      var i :| 0 <= i < n && entries[..n][i] == t;
      assert entries[i] == t && entries[n] == t;
    }
  }

  lemma {:induction false} TwoOfThem(entries: seq<Override>, i: nat, j: nat)
    requires i < j < |entries|
    ensures entries[i] == entries[j] ==> multiset(entries)[entries[i]] >= 2
  {
    assert entries == entries[..j] + entries[j..];
    assert entries[..j][i] in multiset(entries[..j]) && entries[j..][0] in multiset(entries[j..]);
  }

  lemma {:induction false} ConflictsByContent(entries: seq<Override>)
    ensures AnyConflict(multiset(entries)) <==>
      exists i, j | 0 <= i < j < |entries| :: Conflict(entries[i], entries[j])
  {
    if AnyConflict(multiset(entries)) {
      var t, u :| t in multiset(entries) && u in multiset(entries) && Conflict(t, u) &&
          (t == u ==> multiset(entries)[t] >= 2);
      if t == u {
        TwoPlaces(entries, t);
        var i, j :| 0 <= i < j < |entries| && entries[i] == t && entries[j] == t;
        assert Conflict(entries[i], entries[j]);
      } else {
        var i :| 0 <= i < |entries| && entries[i] == t;
        var j :| 0 <= j < |entries| && entries[j] == u;
        ConflictIsSymmetric(t, u);
        if i < j { assert Conflict(entries[i], entries[j]); } else { assert Conflict(entries[j], entries[i]); }
      }
    }
    if i, j :| 0 <= i < j < |entries| && Conflict(entries[i], entries[j]) {
      TwoOfThem(entries, i, j);
      assert entries[i] in multiset(entries) && entries[j] in multiset(entries);
    }
  }

  /** Listing the entries in another order changes neither acceptance nor where accounts go. */
  lemma {:induction false} OrderIsIrrelevant(inst: Instance, other: Instance, decode: Decoder)
    requires other == inst.(tenants := other.tenants) && multiset(other.tenants) == multiset(inst.tenants)
    ensures Accepts(inst, decode) <==> Accepts(other, decode)
    ensures forall x, y | Routes(inst.tenants, |inst.tenants|, x) && Routes(other.tenants, |other.tenants|, y) ::
      Accepts(inst, decode) ==> x == y
  {
    if Accepts(inst, decode) { SameAcceptance(inst, other, decode); }
    if Accepts(other, decode) { SameAcceptance(other, inst, decode); }
    forall x, y | Routes(inst.tenants, |inst.tenants|, x) && Routes(other.tenants, |other.tenants|, y)
      ensures Accepts(inst, decode) ==> x == y
    {
      SameRoutes(inst.tenants, other.tenants, x, y);
      SameRoutes(other.tenants, inst.tenants, y, x);
    }
  }

  lemma {:induction false} SameAcceptance(inst: Instance, other: Instance, decode: Decoder)
    requires other == inst.(tenants := other.tenants) && multiset(other.tenants) == multiset(inst.tenants)
    requires Accepts(inst, decode)
    ensures Accepts(other, decode)
  {
    ConflictsByContent(inst.tenants);
    ConflictsByContent(other.tenants);
    forall i | 0 <= i < |other.tenants| ensures Sound(inst.spec.value, other.tenants[i], decode) {
      assert other.tenants[i] in multiset(inst.tenants);
    }
  }

  lemma {:induction false} SameRoutes(tenants: seq<Override>, others: seq<Override>, x: map<string, string>,
                                      y: map<string, string>)
    requires multiset(others) == multiset(tenants)
    requires Routes(tenants, |tenants|, x) && Routes(others, |others|, y)
    ensures forall a | a in x :: a in y && y[a] == x[a]
  {
    forall a | a in x ensures a in y && y[a] == x[a] {
      var i :| 0 <= i < |tenants| && Lists(tenants[i], a);
      assert tenants[i] in multiset(others);
      var j :| 0 <= j < |others| && others[j] == tenants[i];
      assert x[a] == Identity(tenants[i]) && y[a] == Identity(others[j]);
    }
  }
}
