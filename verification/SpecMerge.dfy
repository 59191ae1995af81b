/** Deep-merging a tenant's partial spec over the pool's base spec, on JSON trees. */
module SpecMerge {

  /** A scalar, list or null is a leaf: the merge never looks inside it. */
  datatype Json = Leaf(value: string) | Obj(fields: map<string, Json>)

  type Path = seq<string>

  /** What is found by following a path from the root. */
  datatype Sight = Nothing | Value(value: string) | Object

  function See(tree: Json, path: Path): Sight
    decreases |path|
  {
    if path == [] then if tree.Leaf? then Value(tree.value) else Object
    else if tree.Obj? && path[0] in tree.fields then See(tree.fields[path[0]], path[1..])
    else Nothing
  }

  /** A leaf of the tree sits strictly above this path. */
  predicate Shadowed(tree: Json, path: Path) {
    exists k | 0 <= k < |path| :: See(tree, path[..k]).Value?
  }

  function Overlay(base: Json, over: Json): Json
    decreases over
  {
    if base.Leaf? || over.Leaf? then over
    else Obj(map k | k in base.fields.Keys + over.fields.Keys ::
               if k !in over.fields then base.fields[k]
               else if k !in base.fields then over.fields[k]
               else Overlay(base.fields[k], over.fields[k]))
  }

  /** Copies the base, then lets every key of the override win, recursing where both sides are
      objects. */
  method DeepMerge(base: map<string, Json>, over: map<string, Json>) returns (out: map<string, Json>)
    ensures Obj(out) == Overlay(Obj(base), Obj(over))
    decreases Obj(over)
  {
    out := map[];
    var keys := base.Keys;
    while keys != {}
      invariant keys <= base.Keys
      invariant out.Keys == base.Keys - keys && forall k | k in out :: out[k] == base[k]
      decreases keys
    {
      var k :| k in keys;
      out := out[k := base[k]];
      keys := keys - {k};
    }
    keys := over.Keys;
    while keys != {}
      invariant keys <= over.Keys && out.Keys == base.Keys + (over.Keys - keys)
      invariant forall k | k in out ::
        out[k] == if k in over && k !in keys then Overlay(Obj(base), Obj(over)).fields[k] else base[k]
      decreases keys
    {
      var k :| k in keys;
      if k in out && out[k].Obj? && over[k].Obj? {
        var merged := DeepMerge(out[k].fields, over[k].fields);
        out := out[k := Obj(merged)];
      } else {
        out := out[k := over[k]];
      }
      keys := keys - {k};
    }
  }

  // ---------- What the merge means, path by path ----------

  lemma {:induction false} Deeper(tree: Json, key: string, path: Path)
    ensures See(tree, [key] + path) ==
      if tree.Obj? && key in tree.fields then See(tree.fields[key], path) else Nothing
    ensures Shadowed(tree, [key] + path) ==
      (tree.Leaf? || (key in tree.fields && Shadowed(tree.fields[key], path)))
  {
    assert ([key] + path)[1..] == path;
    assert ([key] + path)[..0] == [];
    forall k | 0 <= k < |path|
      ensures See(tree, ([key] + path)[..k + 1]) ==
        if tree.Obj? && key in tree.fields then See(tree.fields[key], path[..k]) else Nothing
    {
      assert ([key] + path)[..k + 1][1..] == path[..k];
    }
    if tree.Obj? && key in tree.fields && Shadowed(tree.fields[key], path) {
      var k :| 0 <= k < |path| && See(tree.fields[key], path[..k]).Value?;
      assert See(tree, ([key] + path)[..k + 1]).Value?;
    }
    if tree.Obj? && Shadowed(tree, [key] + path) {
      var k :| 0 <= k < |[key] + path| && See(tree, ([key] + path)[..k]).Value?;
      assert k > 0 && See(tree, ([key] + path)[..(k - 1) + 1]).Value?;
      assert key in tree.fields && See(tree.fields[key], path[..k - 1]).Value?;
    }
  }

  /** The override decides wherever it says something, hides the base below its leaves, and leaves
      the base alone everywhere else. */
  lemma {:induction false} PathByPath(base: Json, over: Json, path: Path)
    ensures See(Overlay(base, over), path) ==
      if See(over, path) != Nothing then See(over, path)
      else if Shadowed(over, path) then Nothing else See(base, path)
    decreases |path|
  {
    if path != [] {
      var key, rest := path[0], path[1..];
      assert path == [key] + rest;
      Deeper(over, key, rest);
      Deeper(base, key, rest);
      Deeper(Overlay(base, over), key, rest);
      if base.Obj? && over.Obj? && key in base.fields && key in over.fields {
        PathByPath(base.fields[key], over.fields[key], rest);
      }
    }
  }

  /** Trees that look the same along every path are the same tree. */
  lemma {:induction false} SameSights(x: Json, y: Json)
    requires forall path :: See(x, path) == See(y, path)
    ensures x == y
    decreases x
  {
    assert See(x, []) == See(y, []);
    if x.Obj? {
      forall k ensures k in x.fields <==> k in y.fields {
        assert See(x, [k]) == See(y, [k]);
        Deeper(x, k, []);
        Deeper(y, k, []);
      }
      forall k | k in x.fields ensures x.fields[k] == y.fields[k] {
        forall path ensures See(x.fields[k], path) == See(y.fields[k], path) {
          Deeper(x, k, path);
          Deeper(y, k, path);
        }
        SameSights(x.fields[k], y.fields[k]);
      }
      assert x.fields == y.fields;
    }
  }

  /** Above a place where something is, there are only objects; below a leaf there is nothing. */
  lemma {:induction false} OnlyObjectsAbove(tree: Json, path: Path, k: nat)
    requires k < |path| && See(tree, path) != Nothing
    ensures See(tree, path[..k]) == Object
    decreases |path|
  {
    if k > 0 {
      OnlyObjectsAbove(tree.fields[path[0]], path[1..], k - 1);
      assert path[..k][1..] == path[1..][..k - 1];
    }
  }

  // ---------- Algebra ----------

  lemma {:induction false} EmptyIsIdentity(tree: Json)
    requires tree.Obj?
    ensures Overlay(Obj(map[]), tree) == tree && Overlay(tree, Obj(map[])) == tree
  {
    assert Overlay(Obj(map[]), tree).fields == tree.fields;
    assert Overlay(tree, Obj(map[])).fields == tree.fields;
  }

  /** Merging the same override again changes nothing. */
  lemma {:induction false} MergedAgain(base: Json, over: Json)
    ensures Overlay(Overlay(base, over), over) == Overlay(base, over)
    ensures Overlay(over, over) == over
  {
    forall path ensures See(Overlay(Overlay(base, over), over), path) == See(Overlay(base, over), path) {
      PathByPath(base, over, path);
      PathByPath(Overlay(base, over), over, path);
    }
    SameSights(Overlay(Overlay(base, over), over), Overlay(base, over));
    forall path ensures See(Overlay(over, over), path) == See(over, path) {
      PathByPath(over, over, path);
    }
    SameSights(Overlay(over, over), over);
  }

  /** Something of `a` is hidden by a leaf of `b` that an object of `c` replaces, and `c` itself
      says nothing there. */
  predicate Resurfaces(a: Json, b: Json, c: Json, path: Path) {
    && See(a, path) != Nothing && See(c, path) == Nothing && !Shadowed(c, path)
    && exists k | 0 <= k < |path| :: See(b, path[..k]).Value? && See(c, path[..k]) == Object
  }

  lemma {:induction false} Regrouped(a: Json, b: Json, c: Json, path: Path)
    ensures See(Overlay(Overlay(a, b), c), path) != See(Overlay(a, Overlay(b, c)), path) <==>
      Resurfaces(a, b, c, path)
  {
    PathByPath(Overlay(a, b), c, path);
    PathByPath(a, b, path);
    PathByPath(a, Overlay(b, c), path);
    PathByPath(b, c, path);
    forall k | 0 <= k < |path|
      ensures See(Overlay(b, c), path[..k]) == if See(c, path[..k]) != Nothing then See(c, path[..k])
              else if Shadowed(c, path[..k]) then Nothing else See(b, path[..k])
      ensures Shadowed(c, path[..k]) ==> Shadowed(c, path)
      ensures See(c, path[..k]).Value? ==> See(Overlay(b, c), path[..k]).Value?
    {
      PathByPath(b, c, path[..k]);
      if Shadowed(c, path[..k]) {
        var j :| 0 <= j < |path[..k]| && See(c, path[..k][..j]).Value?;
        assert path[..k][..j] == path[..j];
      }
    }
    if Resurfaces(a, b, c, path) {
      var k :| 0 <= k < |path| && See(b, path[..k]).Value? && See(c, path[..k]) == Object;
      OnlyOneLeafAbove(b, path, k);
    }
  }

  lemma {:induction false} OnlyOneLeafAbove(tree: Json, path: Path, k: nat)
    requires k < |path| && See(tree, path[..k]).Value?
    ensures See(tree, path) == Nothing
    ensures forall j | 0 <= j < |path| && j != k :: !See(tree, path[..j]).Value?
  {
    forall j | 0 <= j < |path| && j != k ensures !See(tree, path[..j]).Value? {
      if j < k {
        OnlyObjectsAbove(tree, path[..k], j);
        assert path[..k][..j] == path[..j];
      } else if See(tree, path[..j]) != Nothing {
        assert path[..j][..k] == path[..k];
        OnlyObjectsAbove(tree, path[..j], k);
      }
    }
    if See(tree, path) != Nothing { OnlyObjectsAbove(tree, path, k); }
  }

  /** The grouping of two merges is irrelevant exactly when nothing resurfaces. */
  lemma {:induction false} AssociativeIff(a: Json, b: Json, c: Json)
    ensures Overlay(Overlay(a, b), c) == Overlay(a, Overlay(b, c)) <==> forall path :: !Resurfaces(a, b, c, path)
  {
    forall path
      ensures See(Overlay(Overlay(a, b), c), path) != See(Overlay(a, Overlay(b, c)), path) <==>
        Resurfaces(a, b, c, path)
    {
      Regrouped(a, b, c, path);
    }
    if forall path :: !Resurfaces(a, b, c, path) {
      SameSights(Overlay(Overlay(a, b), c), Overlay(a, Overlay(b, c)));
    }
  }

  /** No place is an object in one tree and a leaf in the other. */
  ghost predicate SameKinds(x: Json, y: Json) {
    forall path :: !(See(x, path).Value? && See(y, path) == Object)
  }

  lemma {:induction false} AssociativeOnSameKinds(a: Json, b: Json, c: Json)
    requires SameKinds(b, c)
    ensures Overlay(Overlay(a, b), c) == Overlay(a, Overlay(b, c))
  {
    AssociativeIff(a, b, c);
  }

  lemma {:induction false} GroupingMatters(key: string, leaf: string, under: string)
    ensures
      var a, b, c := Obj(map[key := Obj(map[under := Leaf(leaf)])]), Obj(map[key := Leaf(leaf)]),
                     Obj(map[key := Obj(map[])]);
      Overlay(Overlay(a, b), c) != Overlay(a, Overlay(b, c))
  {
    var a, b, c := Obj(map[key := Obj(map[under := Leaf(leaf)])]), Obj(map[key := Leaf(leaf)]),
                   Obj(map[key := Obj(map[])]);
    var path := [key, under];
    assert path == [key] + [under] && path[..1] == [key] == [key] + [];
    Deeper(a, key, [under]);
    Deeper(c, key, [under]);
    Deeper(a.fields[key], under, []);
    assert [under] == [under] + [];
    Deeper(c.fields[key], under, []);
    Deeper(b, key, []);
    Deeper(c, key, []);
    assert See(b, path[..1]).Value? && See(c, path[..1]) == Object;
    assert Resurfaces(a, b, c, path);
    AssociativeIff(a, b, c);
  }
}
