/** What the linter's ordering rule makes of the compiled execution graph. */
module PipelineGraph {
  import opened Pipeline

  /** Step x waits for y. */
  predicate Edge(g: seq<Node>, x: string, y: string) {
    exists k | 0 <= k < |g| :: g[k].name == x && y in g[k].deps
  }

  predicate IsPath(g: seq<Node>, path: seq<string>) {
    path != [] && forall k | 0 <= k < |path| - 1 :: Edge(g, path[k], path[k + 1])
  }

  /** x is y or waits for it, directly or through other steps. */
  ghost predicate Reaches(g: seq<Node>, x: string, y: string) {
    exists path :: IsPath(g, path) && path[0] == x && path[|path| - 1] == y
  }

  predicate Before(g: seq<Node>, i: nat, name: string)
    requires i <= |g|
  {
    exists j | 0 <= j < i :: g[j].name == name
  }

  predicate DistinctNames(g: seq<Node>) {
    forall i, j | 0 <= i < j < |g| :: g[i].name != g[j].name
  }

  /** Names are unique and every dependency names a strictly earlier step. */
  predicate Ordered(g: seq<Node>) {
    DistinctNames(g) && forall i, d | 0 <= i < |g| && d in g[i].deps :: Before(g, i, d)
  }

  function PlaceOf(g: seq<Node>, n: nat, x: string): (k: nat)
    requires n <= |g| && Before(g, n, x)
    ensures k < n && g[k].name == x
  {
    if g[n - 1].name == x then n - 1 else PlaceOf(g, n - 1, x)
  }

  lemma {:induction false} EdgeGoesBack(g: seq<Node>, x: string, y: string)
    requires Ordered(g) && Edge(g, x, y)
    ensures Before(g, |g|, x) && Before(g, |g|, y) && PlaceOf(g, |g|, y) < PlaceOf(g, |g|, x)
  {
    var k :| 0 <= k < |g| && g[k].name == x && y in g[k].deps;
    assert Before(g, k, y);
    var j :| 0 <= j < k && g[j].name == y;
  }

  lemma {:induction false} PathGoesBack(g: seq<Node>, path: seq<string>)
    requires Ordered(g) && IsPath(g, path) && |path| >= 2
    ensures Before(g, |g|, path[0]) && Before(g, |g|, path[|path| - 1])
    ensures PlaceOf(g, |g|, path[|path| - 1]) < PlaceOf(g, |g|, path[0])
    decreases |path|
  {
    EdgeGoesBack(g, path[0], path[1]);
    if |path| > 2 {
      forall k | 0 <= k < |path[1..]| - 1 ensures Edge(g, path[1..][k], path[1..][k + 1]) {
        assert Edge(g, path[k + 1], path[k + 1 + 1]);
      }
      PathGoesBack(g, path[1..]);
    }
  }

  /** No step waits for itself, through any chain. */
  lemma {:induction false} Acyclic(g: seq<Node>, path: seq<string>)
    requires Ordered(g) && IsPath(g, path) && |path| >= 2
    ensures path[0] != path[|path| - 1]
  {
    PathGoesBack(g, path);
  }

  // ---------- Linting is the ordering rule ----------

  predicate NoneMissing(steps: seq<SourceStep>) {
    forall k | 0 <= k < |steps| :: steps[k].SourceStep?
  }

  /** Where a user step stands once the clone step, if any, is in front. */
  function Offset(cloning: bool): nat {
    if cloning then 1 else 0
  }

  lemma {:induction false} StartedAt(written: seq<Node>, cloning: bool)
    ensures |Started(written, cloning)| == Offset(cloning) + |written|
    ensures forall j | Offset(cloning) <= j < |Started(written, cloning)| ::
      Started(written, cloning)[j] == written[j - Offset(cloning)]
    ensures cloning ==> Started(written, cloning)[0] == Node(CLONE, [])
  {
  }

  lemma {:induction false} KnownIsBefore(steps: seq<SourceStep>, cloning: bool, i: nat, name: string)
    requires NoneMissing(steps) && i <= |steps|
    ensures Offset(cloning) + i <= |Started(Written(steps), cloning)|
    ensures name in Known(steps, i, cloning) <==> Before(Started(Written(steps), cloning), Offset(cloning) + i, name)
  {
    StartedAt(Written(steps), cloning);
    if name in Known(steps, i, cloning) { KnownAppears(steps, cloning, i, name); }
    if Before(Started(Written(steps), cloning), Offset(cloning) + i, name) {
      AppearingIsKnown(steps, cloning, i, name);
    }
  }

  lemma {:induction false} KnownAppears(steps: seq<SourceStep>, cloning: bool, i: nat, name: string)
    requires NoneMissing(steps) && i <= |steps| && name in Known(steps, i, cloning)
    ensures Offset(cloning) + i <= |Started(Written(steps), cloning)|
    ensures Before(Started(Written(steps), cloning), Offset(cloning) + i, name)
  {
    var g, n := Started(Written(steps), cloning), Offset(cloning);
    StartedAt(Written(steps), cloning);
    if name == CLONE && cloning {
      assert g[0].name == name;
    } else {
      var k :| 0 <= k < i && steps[k].SourceStep? && steps[k].name == name;
      var j := n + k;
      assert g[j].name == name;
    }
  }

  lemma {:induction false} AppearingIsKnown(steps: seq<SourceStep>, cloning: bool, i: nat, name: string)
    requires NoneMissing(steps) && i <= |steps| && Offset(cloning) + i <= |Started(Written(steps), cloning)|
    requires Before(Started(Written(steps), cloning), Offset(cloning) + i, name)
    ensures name in Known(steps, i, cloning)
  {
    var g, n := Started(Written(steps), cloning), Offset(cloning);
    StartedAt(Written(steps), cloning);
    var j :| 0 <= j < n + i && g[j].name == name;
    if j >= n {
      var k := j - n;
      assert steps[k].SourceStep? && steps[k].name == name;
    }
  }

  /** Linting is exactly the ordering rule on the graph as written, with the clone step in front. */
  lemma {:induction false} LintedIff(steps: seq<SourceStep>, cloning: bool)
    ensures Linted(steps, cloning) <==>
      && NoneMissing(steps) && Ordered(Started(Written(steps), cloning))
      && forall k | 0 <= k < |steps| :: steps[k].mountsAllowed
  {
    if Linted(steps, cloning) { LintedIsOrdered(steps, cloning); }
    if NoneMissing(steps) && Ordered(Started(Written(steps), cloning)) { OrderedIsKnown(steps, cloning); }
  }

  lemma {:induction false} LintedIsOrdered(steps: seq<SourceStep>, cloning: bool)
    requires Linted(steps, cloning)
    ensures NoneMissing(steps) && Ordered(Started(Written(steps), cloning))
    ensures forall k | 0 <= k < |steps| :: steps[k].mountsAllowed
  {
    forall k | 0 <= k < |steps| ensures steps[k].SourceStep? && steps[k].mountsAllowed {
      assert GoodStep(steps, k, cloning);
    }
    var g, n := Started(Written(steps), cloning), Offset(cloning);
    StartedAt(Written(steps), cloning);
    forall i | n <= i < |g| ensures !Before(g, i, g[i].name) && forall d | d in g[i].deps :: Before(g, i, d) {
      assert GoodStep(steps, i - n, cloning) && g[i] == Node(steps[i - n].name, steps[i - n].dependsOn);
      KnownIsBefore(steps, cloning, i - n, g[i].name);
      forall d | d in g[i].deps ensures Before(g, i, d) { KnownIsBefore(steps, cloning, i - n, d); }
    }
  }

  lemma {:induction false} OrderedIsKnown(steps: seq<SourceStep>, cloning: bool)
    requires NoneMissing(steps) && Ordered(Started(Written(steps), cloning))
    ensures forall i | 0 <= i < |steps| :: steps[i].name !in Known(steps, i, cloning)
    ensures forall i, d | 0 <= i < |steps| && d in steps[i].dependsOn :: d in Known(steps, i, cloning)
  {
    var g, n := Started(Written(steps), cloning), Offset(cloning);
    StartedAt(Written(steps), cloning);
    forall i | 0 <= i < |steps|
      ensures steps[i].name !in Known(steps, i, cloning)
      ensures forall d | d in steps[i].dependsOn :: d in Known(steps, i, cloning)
    {
      assert g[n + i] == Node(steps[i].name, steps[i].dependsOn);
      KnownIsBefore(steps, cloning, i, steps[i].name);
      forall d | d in steps[i].dependsOn ensures d in Known(steps, i, cloning) { KnownIsBefore(steps, cloning, i, d); }
    }
  }

  // ---------- The compiled graph ----------

  /** `written` is an ordered graph of user steps; the compiler puts the clone step in front. */
  predicate Ready(written: seq<Node>, cloning: bool) {
    Ordered(Started(written, cloning))
  }

  function Compiled(written: seq<Node>, cloning: bool): (h: seq<Node>)
    ensures |h| == |Started(written, cloning)| && forall k | 0 <= k < |h| ::
      h[k].name == Started(written, cloning)[k].name
  {
    Wired(Started(written, cloning), cloning)
  }

  lemma {:induction false} SameNamesBefore(g: seq<Node>, h: seq<Node>, i: nat, name: string)
    requires |h| == |g| && i <= |g| && forall k | 0 <= k < |g| :: h[k].name == g[k].name
    requires Before(g, i, name)
    ensures Before(h, i, name)
  {
    var j :| 0 <= j < i && g[j].name == name;
    assert h[j].name == name;
  }

  /** Whatever the compiler rewires, the graph of a linted pipeline stays ordered, so acyclic. */
  lemma {:induction false} CompiledIsOrdered(written: seq<Node>, cloning: bool)
    requires Ready(written, cloning)
    ensures Ordered(Compiled(written, cloning))
  {
    var g, h := Started(written, cloning), Compiled(written, cloning);
    forall i, d | 0 <= i < |h| && d in h[i].deps ensures Before(h, i, d) {
      if d in g[i].deps {
        SameNamesBefore(g, h, i, d);
      } else if !Declares(g) {
        assert h[i - 1].name == d;
      } else {
        assert h[0].name == CLONE == d;
      }
    }
  }

  lemma {:induction false} Extend(g: seq<Node>, x: string, y: string, z: string)
    requires Edge(g, x, y) && Reaches(g, y, z)
    ensures Reaches(g, x, z)
  {
    var path :| IsPath(g, path) && path[0] == y && path[|path| - 1] == z;
    assert IsPath(g, [x] + path);
  }

  /** With the clone step enabled, every step waits for it. */
  lemma {:induction false} EverythingReachesClone(written: seq<Node>, i: nat)
    requires Ready(written, true) && i <= |written|
    ensures Reaches(Compiled(written, true), Compiled(written, true)[i].name, CLONE)
    decreases i
  {
    var g, h := Started(written, true), Compiled(written, true);
    CompiledIsOrdered(written, true);
    assert g[0] == Node(CLONE, []) && h[0].name == CLONE;
    if i == 0 {
      assert IsPath(h, [CLONE]);
    } else {
      var d := h[i].deps[0];
      assert d in h[i].deps && Before(h, i, d);
      var j :| 0 <= j < i && h[j].name == d;
      EverythingReachesClone(written, j);
      assert Edge(h, h[i].name, d);
      Extend(h, h[i].name, d, CLONE);
    }
  }

  /** Without a clone step a linted pipeline has no clone dependency to remove. */
  lemma {:induction false} NothingToRemove(written: seq<Node>)
    requires Ready(written, false)
    ensures Uncloned(written) == written
    ensures forall k | 0 <= k < |written| && written[k].deps != [] :: Compiled(written, false) == written
  {
    assert Started(written, false) == written && DistinctNames(written);
    forall k | 0 <= k < |written| && written[k].deps == [CLONE] ensures HasClone(written) {
      assert CLONE in written[k].deps && Before(written, k, CLONE);
    }
  }

  /** The wired graph: the clone step, then each user step with its dependencies or just the clone. */
  lemma {:induction false} CloneWired(written: seq<Node>)
    requires Ready(written, true) && Declares(written)
    ensures Compiled(written, true)[0] == Node(CLONE, [])
    ensures forall k | 0 < k <= |written| ::
      Compiled(written, true)[k] == CloneFirst(written[k - 1]) && written[k - 1].name != CLONE
  {
    var g, h := Started(written, true), Compiled(written, true);
    StartedAt(written, true);
    var w :| 0 <= w < |written| && written[w].deps != [];
    var v := w + 1;
    assert g[v].deps != [];
    assert Declares(g) && h == CloneDeps(g);
    forall k | 0 < k <= |written| ensures h[k] == CloneFirst(written[k - 1]) && written[k - 1].name != CLONE {
      assert g[k] == written[k - 1] && g[0].name != g[k].name;
    }
  }

  /** Between user steps the compiled graph waits exactly as declared, and the clone step for
      nothing. */
  lemma {:induction false} SameEdges(written: seq<Node>, x: string, y: string)
    requires Ready(written, true) && Declares(written)
    ensures y != CLONE ==> (Edge(Compiled(written, true), x, y) <==> Edge(written, x, y))
    ensures !Edge(Compiled(written, true), CLONE, y) && !Edge(written, CLONE, y)
  {
    CloneWired(written);
    EdgesAfterClone(Compiled(written, true), written, x, y);
  }

  lemma {:induction false} EdgesAfterClone(h: seq<Node>, written: seq<Node>, x: string, y: string)
    requires |h| == |written| + 1 && h[0] == Node(CLONE, [])
    requires forall k | 0 < k <= |written| :: h[k] == CloneFirst(written[k - 1]) && written[k - 1].name != CLONE
    ensures y != CLONE ==> (Edge(h, x, y) <==> Edge(written, x, y))
    ensures !Edge(h, CLONE, y) && !Edge(written, CLONE, y)
  {
    assert forall k | 0 <= k < |written| :: h[k + 1] == CloneFirst(written[k]) && written[k].name != CLONE;
    if k :| 0 <= k < |h| && h[k].name == x && y in h[k].deps {
      if y != CLONE { assert written[k - 1].name == x && y in written[k - 1].deps; }
    }
    if k :| 0 <= k < |written| && written[k].name == x && y in written[k].deps {
      assert h[k + 1].name == x && y in h[k + 1].deps;
    }
  }

  lemma {:induction false} SameClonedChains(written: seq<Node>, path: seq<string>)
    requires Ready(written, true) && Declares(written) && path != [] && path[|path| - 1] != CLONE
    ensures IsPath(Compiled(written, true), path) <==> IsPath(written, path)
    decreases |path|
  {
    if |path| > 1 {
      SameClonedChains(written, path[1..]);
      SameEdges(written, path[0], path[1]);
      if |path| > 2 { SameEdges(written, path[1], path[2]); }
      PathStep(written, path);
      PathStep(Compiled(written, true), path);
      if |path| > 2 && path[1] == CLONE { assert !Edge(written, path[1], path[1 + 1]); }
    }
  }

  lemma {:induction false} PathStep(g: seq<Node>, path: seq<string>)
    requires |path| > 1
    ensures IsPath(g, path) <==> Edge(g, path[0], path[1]) && IsPath(g, path[1..])
  {
    if IsPath(g, path) {
      forall k | 0 <= k < |path[1..]| - 1 ensures Edge(g, path[1..][k], path[1..][k + 1]) {
        assert Edge(g, path[k + 1], path[k + 1 + 1]);
      }
    }
    if Edge(g, path[0], path[1]) && IsPath(g, path[1..]) {
      forall k | 0 <= k < |path| - 1 ensures Edge(g, path[k], path[k + 1]) {
        if k > 0 { assert Edge(g, path[1..][k - 1], path[1..][k - 1 + 1]); }
      }
    }
  }

  /** A declared graph keeps its meaning: the chains that end in a user step are exactly the chains
      as written, so reachability among user steps is what was declared. */
  lemma {:induction false} SameChains(written: seq<Node>, cloning: bool, path: seq<string>)
    requires Ready(written, cloning) && exists k | 0 <= k < |written| :: written[k].deps != []
    requires path != [] && (cloning ==> path[|path| - 1] != CLONE)
    ensures IsPath(Compiled(written, cloning), path) <==> IsPath(written, path)
  {
    if cloning { SameClonedChains(written, path); } else { NothingToRemove(written); }
  }

  lemma {:induction false} SameReachability(written: seq<Node>, cloning: bool, x: string, y: string)
    requires Ready(written, cloning) && (exists k | 0 <= k < |written| :: written[k].deps != []) &&
      (cloning ==> y != CLONE)
    ensures Reaches(Compiled(written, cloning), x, y) <==> Reaches(written, x, y)
  {
    forall path | path != [] && path[|path| - 1] == y
      ensures IsPath(Compiled(written, cloning), path) <==> IsPath(written, path)
    {
      SameChains(written, cloning, path);
    }
  }

  /** When nothing is declared the steps form one chain, in order: a step waits for exactly the
      steps before it. */
  lemma {:induction false} UndeclaredIsOneChain(written: seq<Node>, cloning: bool, i: nat, j: nat)
    requires Ready(written, cloning) && forall k | 0 <= k < |written| :: written[k].deps == []
    requires i < |Compiled(written, cloning)| && j < |Compiled(written, cloning)|
    ensures var h := Compiled(written, cloning); Reaches(h, h[i].name, h[j].name) <==> j <= i
  {
    NothingDeclared(written, cloning);
    CompiledIsOrdered(written, cloning);
    OneChain(Serial(Started(written, cloning)), i, j);
  }

  lemma {:induction false} NothingDeclared(written: seq<Node>, cloning: bool)
    requires !Declares(written)
    ensures !Declares(Started(written, cloning))
  {
    StartedAt(written, cloning);
    var g, n := Started(written, cloning), Offset(cloning);
    forall k | 0 <= k < |g| ensures g[k].deps == [] {
      if k >= n { assert g[k] == written[k - n]; }
    }
  }

  lemma {:induction false} OneChain(h: seq<Node>, i: nat, j: nat)
    requires Ordered(h) && i < |h| && j < |h| && forall k | 0 < k < |h| :: h[k].deps == [h[k - 1].name]
    ensures Reaches(h, h[i].name, h[j].name) <==> j <= i
  {
    if j <= i {
      ChainDown(h, i, j);
    } else if path :| IsPath(h, path) && path[0] == h[i].name && path[|path| - 1] == h[j].name {
      assert h[i].name != h[j].name;
      PathGoesBack(h, path);
    }
  }

  lemma {:induction false} ChainDown(h: seq<Node>, i: nat, j: nat)
    requires j <= i < |h| && forall k | 0 < k < |h| :: h[k].deps == [h[k - 1].name]
    ensures Reaches(h, h[i].name, h[j].name)
    decreases i
  {
    if i == j {
      assert IsPath(h, [h[i].name]);
    } else {
      ChainDown(h, i - 1, j);
      assert h[i - 1].name in h[i].deps;
      assert Edge(h, h[i].name, h[i - 1].name);
      Extend(h, h[i].name, h[i - 1].name, h[j].name);
    }
  }

  /** Lint, then compile: the graph the runner executes has every step after what it waits for, and
      no chain of steps comes back to where it started. */
  lemma {:induction false} LintThenCompile(services: seq<SourceStep>, steps: seq<SourceStep>, cloning: bool)
    requires Linted(services + steps, cloning)
    ensures NoneMissing(services + steps) && Ready(Written(services + steps), cloning)
    ensures var h := Compiled(Written(services + steps), cloning);
      Ordered(h) && forall path | IsPath(h, path) && |path| >= 2 :: path[0] != path[|path| - 1]
  {
    LintedIff(services + steps, cloning);
    var h := Compiled(Written(services + steps), cloning);
    CompiledIsOrdered(Written(services + steps), cloning);
    forall path | IsPath(h, path) && |path| >= 2 ensures path[0] != path[|path| - 1] {
      Acyclic(h, path);
    }
  }
}
