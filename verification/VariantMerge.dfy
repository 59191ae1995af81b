/** Merging a tenant's variant overrides over the pool's own variants, by variant id. */
module VariantMerge {

  datatype PoolVariant = PoolVariant(id: string, pool: int, settings: string)

  predicate HasId(variants: seq<PoolVariant>, id: string) {
    exists i | 0 <= i < |variants| :: variants[i].id == id
  }

  predicate DistinctIds(variants: seq<PoolVariant>) {
    forall i, j | 0 <= i < j < |variants| :: variants[i].id != variants[j].id
  }

  /** The entry that wins among those with this id: the last one. */
  function LastOf(variants: seq<PoolVariant>, id: string): (v: PoolVariant)
    requires HasId(variants, id)
    ensures v in variants && v.id == id
  {
    if variants[|variants| - 1].id == id then variants[|variants| - 1]
    else LastOf(variants[..|variants| - 1], id)
  }

  /** No later entry has this id. */
  lemma {:induction false} LastIsLast(variants: seq<PoolVariant>, id: string) returns (k: nat)
    requires HasId(variants, id)
    ensures k < |variants| && variants[k] == LastOf(variants, id)
    ensures forall j | k < j < |variants| :: variants[j].id != id
  {
    var n := |variants| - 1;
    if variants[n].id == id { return n; }
    k := LastIsLast(variants[..n], id);
    forall j | k < j < |variants| ensures variants[j].id != id {
      if j < n { assert variants[..n][j] == variants[j]; }
    }
  }

  function FirstIndex(variants: seq<PoolVariant>, id: string): (k: nat)
    requires HasId(variants, id)
    ensures k < |variants| && variants[k].id == id && forall j | 0 <= j < k :: variants[j].id != id
  {
    if variants[0].id == id then 0
    else
      assert HasId(variants[1..], id) by {
        var i :| 0 <= i < |variants| && variants[i].id == id;
        assert variants[1..][i - 1].id == id;
      }
      1 + FirstIndex(variants[1..], id)
  }

  /** An entry of the result: the override's last word on its id, the base's own entry otherwise. */
  predicate Chosen(over: seq<PoolVariant>, v: PoolVariant) {
    HasId(over, v.id) ==> v == LastOf(over, v.id)
  }

  /** What the merge promises: base order kept and replaced in place, then every new id once, in
      the order the override first names them. */
  predicate IsMerge(base: seq<PoolVariant>, over: seq<PoolVariant>, merged: seq<PoolVariant>) {
    && KeepsBase(base, over, merged)
    && (forall i | 0 <= i < |merged| :: Chosen(over, merged[i]))
    && AddsNew(base, over, merged)
    && (forall k | 0 <= k < |over| :: HasId(merged, over[k].id))
  }

  predicate KeepsBase(base: seq<PoolVariant>, over: seq<PoolVariant>, merged: seq<PoolVariant>) {
    && |merged| >= |base|
    && forall i | 0 <= i < |base| :: merged[i].id == base[i].id && (!HasId(over, base[i].id) ==> merged[i] == base[i])
  }

  predicate AddsNew(base: seq<PoolVariant>, over: seq<PoolVariant>, merged: seq<PoolVariant>) {
    && (forall i | |base| <= i < |merged| :: HasId(over, merged[i].id) && !HasId(base, merged[i].id))
    && (forall i, j | |base| <= i < j < |merged| :: Earlier(over, merged[i].id, merged[j].id))
  }

  predicate Earlier(over: seq<PoolVariant>, x: string, y: string) {
    HasId(over, x) && HasId(over, y) && FirstIndex(over, x) < FirstIndex(over, y)
  }

  function Winner(over: seq<PoolVariant>, v: PoolVariant): PoolVariant {
    if HasId(over, v.id) then LastOf(over, v.id) else v
  }

  function Replaced(base: seq<PoolVariant>, over: seq<PoolVariant>): (out: seq<PoolVariant>)
    ensures |out| == |base| && forall i | 0 <= i < |base| :: out[i] == Winner(over, base[i])
  {
    seq(|base|, i requires 0 <= i < |base| => Winner(over, base[i]))
  }

  /** The entries for ids that the first n overrides name and the base does not have. */
  function NewOnes(base: seq<PoolVariant>, over: seq<PoolVariant>, n: nat): seq<PoolVariant>
    requires n <= |over|
  {
    if n == 0 then []
    else if HasId(base, over[n - 1].id) || HasId(over[..n - 1], over[n - 1].id) then NewOnes(base, over, n - 1)
    else NewOnes(base, over, n - 1) + [Winner(over, over[n - 1])]
  }

  function Merged(base: seq<PoolVariant>, over: seq<PoolVariant>): seq<PoolVariant> {
    if over == [] then base
    else if base == [] then over
    else Replaced(base, over) + NewOnes(base, over, |over|)
  }

  method MergeVariants(base: seq<PoolVariant>, over: seq<PoolVariant>) returns (out: seq<PoolVariant>)
    ensures out == Merged(base, over)
    ensures KeepsBase(base, over, out)
    ensures base == [] ==> out == over
  {
    PoolVariantsStay(base, over);
    if |over| == 0 { return base; }
    if |base| == 0 { return over; }
    out := MergeLists(base, over);
  }

  method MergeLists(base: seq<PoolVariant>, over: seq<PoolVariant>) returns (out: seq<PoolVariant>)
    requires base != [] && over != []
    ensures out == Merged(base, over)
  {
    var overrideByID, overrideOrder := IndexByID(over);
    var seen: set<string> := {};
    out := [];
    for i := 0 to |base|
      invariant out == Replaced(base, over)[..i]
      invariant forall id :: id in seen <==> HasId(over, id) && HasId(base[..i], id)
    {
      var id := base[i].id;
      HasIdGrows(base, i);
      if id in overrideByID {
        out := out + [overrideByID[id]];
        seen := seen + {id};
      } else {
        out := out + [base[i]];
      }
    }
    assert base[..|base|] == base;
    for i := 0 to |overrideOrder|
      invariant out == Replaced(base, over) + NewOnes(base, over, i)
      invariant forall id :: id in seen <==> HasId(over, id) && (HasId(base, id) || HasId(over[..i], id))
    {
      var id := overrideOrder[i];
      HasIdGrows(over, i);
      assert HasId(over, over[i].id);
      if id !in seen {
        out := out + [overrideByID[id]];
        seen := seen + {id};
      }
    }
  }

  /** The last entry of each id, and the ids as listed. */
  method IndexByID(over: seq<PoolVariant>) returns (byID: map<string, PoolVariant>, order: seq<string>)
    ensures |order| == |over| && forall k | 0 <= k < |over| :: order[k] == over[k].id
    ensures forall id :: id in byID <==> HasId(over, id)
    ensures forall id | id in byID :: byID[id] == LastOf(over, id)
  {
    byID, order := map[], [];
    for i := 0 to |over|
      invariant |order| == i && forall k | 0 <= k < i :: order[k] == over[k].id
      invariant forall id :: id in byID <==> HasId(over[..i], id)
      invariant forall id | id in byID :: byID[id] == LastOf(over[..i], id)
    {
      HasIdGrows(over, i);
      assert over[..i + 1][..i] == over[..i];
      byID, order := byID[over[i].id := over[i]], order + [over[i].id];
    }
    assert over[..|over|] == over;
  }

  lemma {:induction false} HasIdGrows(variants: seq<PoolVariant>, i: nat)
    requires i < |variants|
    ensures forall x :: HasId(variants[..i + 1], x) <==> HasId(variants[..i], x) || x == variants[i].id
  {
    forall x | HasId(variants[..i], x) ensures HasId(variants[..i + 1], x) {
      var k :| 0 <= k < i && variants[..i][k].id == x;
      assert variants[..i + 1][k].id == x;
    }
    assert variants[..i + 1][i] == variants[i];
  }

  /** An id not among the first i entries is first named by entry i. */
  lemma {:induction false} NamedFirst(over: seq<PoolVariant>, i: nat)
    requires i < |over| && !HasId(over[..i], over[i].id)
    ensures HasId(over, over[i].id) && FirstIndex(over, over[i].id) == i
    ensures forall x | HasId(over[..i], x) :: Earlier(over, x, over[i].id)
  {
    assert over[i].id == over[i].id;
    forall x | HasId(over[..i], x) ensures HasId(over, x) && FirstIndex(over, x) < i {
      var k :| 0 <= k < i && over[..i][k].id == x;
      assert over[k].id == x;
    }
    assert forall k | 0 <= k < i :: over[..i][k].id == over[k].id != over[i].id;
  }

  lemma {:induction false} HasIdIn(variants: seq<PoolVariant>, v: PoolVariant)
    requires v in variants
    ensures HasId(variants, v.id)
  {
    var k :| 0 <= k < |variants| && variants[k] == v;
    assert variants[k].id == v.id;
  }

  /** The new entries of the first n overrides, in the order the override names them. */
  lemma {:induction false} NewOnesAreNew(base: seq<PoolVariant>, over: seq<PoolVariant>, n: nat)
    requires n <= |over|
    ensures forall v | v in NewOnes(base, over, n) ::
      HasId(over[..n], v.id) && !HasId(base, v.id) && HasId(over, v.id) && v == LastOf(over, v.id)
    ensures forall i, j | 0 <= i < j < |NewOnes(base, over, n)| ::
      Earlier(over, NewOnes(base, over, n)[i].id, NewOnes(base, over, n)[j].id)
  {
    if n > 0 {
      NewOnesAreNew(base, over, n - 1);
      HasIdGrows(over, n - 1);
      HasIdIn(over, over[n - 1]);
      if NewOnes(base, over, n) != NewOnes(base, over, n - 1) { NamedFirst(over, n - 1); }
    }
  }

  lemma {:induction false} NewOnesAreAll(base: seq<PoolVariant>, over: seq<PoolVariant>, n: nat)
    requires n <= |over|
    ensures forall x | HasId(over[..n], x) :: HasId(base, x) || HasId(NewOnes(base, over, n), x)
  {
    if n > 0 {
      var shorter, all, last := NewOnes(base, over, n - 1), NewOnes(base, over, n), over[n - 1];
      NewOnesAreAll(base, over, n - 1);
      HasIdGrows(over, n - 1);
      HasIdIn(over, last);
      forall x | HasId(shorter, x) ensures HasId(all, x) {
        var j :| 0 <= j < |shorter| && shorter[j].id == x;
        assert all[j].id == x;
      }
      if all != shorter { assert all[|shorter|].id == last.id; }
    }
  }

  lemma {:induction false} MergedNames(base: seq<PoolVariant>, over: seq<PoolVariant>, k: nat)
    requires base != [] && k < |over|
    ensures HasId(Merged(base, over), over[k].id)
  {
    var added, all := NewOnes(base, over, |over|), Merged(base, over);
    NewOnesAreAll(base, over, |over|);
    HasIdIn(over, over[k]);
    assert over[..|over|] == over;
    if HasId(base, over[k].id) {
      var i :| 0 <= i < |base| && base[i].id == over[k].id;
      assert all[i].id == over[k].id;
    } else {
      var j :| 0 <= j < |added| && added[j].id == over[k].id;
      assert all[|base| + j] == added[j];
    }
  }

  lemma {:induction false} MergedTail(base: seq<PoolVariant>, over: seq<PoolVariant>, added: seq<PoolVariant>)
    requires base != [] && over != [] && added == NewOnes(base, over, |over|)
    ensures AddsNew(base, over, Replaced(base, over) + added)
    ensures forall i | 0 <= i < |added| :: Chosen(over, added[i])
  {
    NewOnesAreNew(base, over, |over|);
    var all := Replaced(base, over) + added;
    forall i | |base| <= i < |all| ensures all[i] == added[i - |base|] && all[i] in added {}
  }

  lemma {:induction false} MergedHead(base: seq<PoolVariant>, over: seq<PoolVariant>, added: seq<PoolVariant>)
    ensures KeepsBase(base, over, Replaced(base, over) + added)
    ensures forall i | 0 <= i < |base| :: Chosen(over, Replaced(base, over)[i])
  {
  }

  lemma {:induction false} ChosenParts(over: seq<PoolVariant>, x: seq<PoolVariant>, y: seq<PoolVariant>)
    requires (forall i | 0 <= i < |x| :: Chosen(over, x[i])) && (forall i | 0 <= i < |y| :: Chosen(over, y[i]))
    ensures forall i | 0 <= i < |x + y| :: Chosen(over, (x + y)[i])
  {
  }

  /** Nothing a pool offers is lost to a tenant: its variants stay, in their order, unless the tenant
      has its own word on them, and a tenant without variants of its own has exactly the pool's. */
  lemma {:induction false} PoolVariantsStay(base: seq<PoolVariant>, over: seq<PoolVariant>)
    ensures KeepsBase(base, over, Merged(base, over))
    ensures over == [] ==> Merged(base, over) == base
    ensures base == [] ==> Merged(base, over) == over
  {
    MergedHead(base, over, NewOnes(base, over, |over|));
  }

  lemma {:induction false} MergedOverBase(base: seq<PoolVariant>, over: seq<PoolVariant>)
    requires base != [] && over != []
    ensures IsMerge(base, over, Merged(base, over))
  {
    var added := NewOnes(base, over, |over|);
    MergedTail(base, over, added);
    MergedHead(base, over, added);
    ChosenParts(over, Replaced(base, over), added);
    forall k | 0 <= k < |over| ensures HasId(Merged(base, over), over[k].id) { MergedNames(base, over, k); }
  }

  /** An override taken over as it is meets the promise when it names no id twice, and only then. */
  lemma {:induction false} OverrideAlone(over: seq<PoolVariant>)
    ensures IsMerge([], over, over) <==> DistinctIds(over)
  {
    if IsMerge([], over, over) {
      forall i, j | 0 <= i < j < |over| ensures over[i].id != over[j].id {
        assert Earlier(over, over[i].id, over[j].id);
      }
    }
    if DistinctIds(over) {
      forall i | 0 <= i < |over|
        ensures HasId(over, over[i].id) && Chosen(over, over[i]) && FirstIndex(over, over[i].id) == i
      {
        assert over[i].id == over[i].id;
      }
    }
  }

  /** Merging meets its promise, for all lists, unless there is no base to merge into and the override
      names an id twice. */
  lemma {:induction false} MergedIsMergeIff(base: seq<PoolVariant>, over: seq<PoolVariant>)
    ensures IsMerge(base, over, Merged(base, over)) <==> base != [] || DistinctIds(over)
  {
    if base == [] {
      OverrideAlone(over);
    } else if over != [] {
      MergedOverBase(base, over);
    }
  }

  /** The promise leaves no choice: there is only one list that keeps it. */
  lemma {:induction false} PromiseIsUnique(base: seq<PoolVariant>, over: seq<PoolVariant>, x: seq<PoolVariant>,
                                           y: seq<PoolVariant>)
    requires IsMerge(base, over, x) && IsMerge(base, over, y)
    ensures x == y
  {
    SameTails(base, over, x, y, |base|);
  }

  /** Beyond position n both lists name the remaining new ids in the same order. */
  lemma {:induction false} SameTails(base: seq<PoolVariant>, over: seq<PoolVariant>, x: seq<PoolVariant>,
                                     y: seq<PoolVariant>, n: nat)
    requires IsMerge(base, over, x) && IsMerge(base, over, y)
    requires |base| <= n <= |x| && n <= |y| && x[..n] == y[..n]
    ensures x == y
    decreases |x| - n
  {
    if n < |x| {
      NoneBefore(base, over, x, y, n);
      SameNext(base, over, x, y, n);
      assert x[..n + 1] == x[..n] + [x[n]] && y[..n + 1] == y[..n] + [y[n]];
      SameTails(base, over, x, y, n + 1);
    } else {
      if n < |y| { NoneBefore(base, over, y, x, n); }
      assert x[..n] == x && y[..n] == y;
    }
  }

  lemma {:induction false} SameNext(base: seq<PoolVariant>, over: seq<PoolVariant>, x: seq<PoolVariant>,
                                    y: seq<PoolVariant>, n: nat)
    requires IsMerge(base, over, x) && IsMerge(base, over, y)
    requires |base| <= n < |x| && n < |y| && x[..n] == y[..n]
    ensures x[n] == y[n]
  {
    NoneBefore(base, over, x, y, n);
    NoneBefore(base, over, y, x, n);
    var k := FirstIndex(over, x[n].id);
    assert x[n].id == over[k].id == y[n].id;
    assert Chosen(over, x[n]) && Chosen(over, y[n]);
  }

  /** The next id of x does not come up in y before position n ... */
  lemma {:induction false} NotEarlier(base: seq<PoolVariant>, over: seq<PoolVariant>, x: seq<PoolVariant>,
                                      y: seq<PoolVariant>, n: nat)
    requires IsMerge(base, over, x) && IsMerge(base, over, y)
    requires |base| <= n < |x| && n <= |y| && x[..n] == y[..n]
    ensures forall i | 0 <= i < n :: y[i].id != x[n].id
  {
    forall i | 0 <= i < n ensures y[i].id != x[n].id {
      assert x[..n][i] == y[..n][i];
      if i < |base| {
        assert HasId(base, x[i].id) by { assert base[i].id == x[i].id; }
      } else {
        assert Earlier(over, x[i].id, x[n].id);
      }
    }
  }

  /** ... so it comes up at or after position n. */
  lemma {:induction false} NoneBefore(base: seq<PoolVariant>, over: seq<PoolVariant>, x: seq<PoolVariant>,
                                      y: seq<PoolVariant>, n: nat)
    requires IsMerge(base, over, x) && IsMerge(base, over, y)
    requires |base| <= n < |x| && n <= |y| && x[..n] == y[..n]
    ensures n < |y| && HasId(over, y[n].id) && HasId(over, x[n].id)
    ensures FirstIndex(over, y[n].id) <= FirstIndex(over, x[n].id)
  {
    NotEarlier(base, over, x, y, n);
    var j := Somewhere(over, x[n].id, y);
    if j > n { assert Earlier(over, y[n].id, y[j].id); }
  }

  lemma {:induction false} Somewhere(over: seq<PoolVariant>, id: string, y: seq<PoolVariant>) returns (j: nat)
    requires HasId(over, id) && forall k | 0 <= k < |over| :: HasId(y, over[k].id)
    ensures j < |y| && y[j].id == id
  {
    var k := FirstIndex(over, id);
    assert HasId(y, over[k].id);
    j :| 0 <= j < |y| && y[j].id == id;
  }

  /** Distinct ids in the base stay distinct in the result, whatever the override repeats. */
  lemma {:induction false} DistinctIdsKept(base: seq<PoolVariant>, over: seq<PoolVariant>)
    requires DistinctIds(base) && (base == [] ==> DistinctIds(over))
    ensures DistinctIds(Merged(base, over))
  {
    MergedIsMergeIff(base, over);
    var all := Merged(base, over);
    forall i, j | 0 <= i < j < |all| ensures all[i].id != all[j].id {
      if j < |base| {
        assert all[i].id == base[i].id && all[j].id == base[j].id;
      } else if i < |base| {
        assert base[i].id == all[i].id;
      } else {
        assert Earlier(over, all[i].id, all[j].id);
      }
    }
  }

  /** Every entry of the override already is the last word on its id. */
  predicate NoOverruled(over: seq<PoolVariant>) {
    forall v | v in over :: Chosen(over, v)
  }

  /** Merging the same override once more changes something only when there was no base to merge
      into and the override contradicts itself. */
  lemma {:induction false} MergedAgainIff(base: seq<PoolVariant>, over: seq<PoolVariant>)
    ensures Merged(Merged(base, over), over) == Merged(base, over) <==> base != [] || NoOverruled(over)
  {
    if over != [] {
      var once := Merged(base, over);
      if base != [] { MergedOverBase(base, over); }
      forall k | 0 <= k < |over| ensures HasId(once, over[k].id) {
        if base == [] { HasIdIn(over, over[k]); }
      }
      NothingNew(once, over, |over|);
      var twice := Merged(once, over);
      assert twice == Replaced(once, over);
      if base != [] {
        assert forall i | 0 <= i < |once| :: twice[i] == once[i];
      } else if twice == once {
        forall v | v in over ensures Chosen(over, v) {
          var i :| 0 <= i < |over| && over[i] == v;
          assert twice[i] == Winner(over, over[i]);
        }
      }
      forall i | 0 <= i < |once| ensures base == [] && NoOverruled(over) ==> twice[i] == once[i] {
        assert base == [] ==> once[i] in over;
      }
    }
  }

  lemma {:induction false} NothingNew(base: seq<PoolVariant>, over: seq<PoolVariant>, n: nat)
    requires n <= |over| && forall k | 0 <= k < |over| :: HasId(base, over[k].id)
    ensures NewOnes(base, over, n) == []
  {
    if n > 0 { NothingNew(base, over, n - 1); }
  }
}
