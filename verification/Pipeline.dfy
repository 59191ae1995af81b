/** Linting a pipeline and compiling its steps into an execution graph. */
module Pipeline {
  import opened Options

  const CLONE := "clone"

  /** A step as written: possibly missing, and possibly with a volume mount that is not allowed. */
  datatype SourceStep = Nil | SourceStep(name: string, dependsOn: seq<string>, mountsAllowed: bool)

  datatype LintError =
    | NilStep
    | DuplicateStepName
    | BadMount
    | UnknownDependency(step: string, dep: string)
    | CyclicDependency(dep: string)

  /** A step of the execution graph. */
  datatype Node = Node(name: string, deps: seq<string>)

  class EngineStep {
    const name: string
    var dependsOn: seq<string>

    constructor (name: string, dependsOn: seq<string>)
      ensures this.name == name && this.dependsOn == dependsOn
    {
      this.name, this.dependsOn := name, dependsOn;
    }

    function View(): Node
      reads this
    {
      Node(name, dependsOn)
    }
  }

  // ---------- Linting ----------

  /** The names a step at position i may refer to: the clone step and the steps before it. */
  function Known(steps: seq<SourceStep>, i: nat, cloning: bool): set<string>
    requires i <= |steps|
  {
    (if cloning then {CLONE} else {}) + set k | 0 <= k < i && steps[k].SourceStep? :: steps[k].name
  }

  predicate GoodStep(steps: seq<SourceStep>, i: nat, cloning: bool)
    requires i < |steps|
  {
    && steps[i].SourceStep? && steps[i].mountsAllowed
    && steps[i].name !in Known(steps, i, cloning)
    && forall d | d in steps[i].dependsOn :: d in Known(steps, i, cloning)
  }

  predicate Linted(steps: seq<SourceStep>, cloning: bool) {
    forall i | 0 <= i < |steps| :: GoodStep(steps, i, cloning)
  }

  method CheckSteps(services: seq<SourceStep>, steps: seq<SourceStep>, cloning: bool) returns (e: Option<LintError>)
    ensures e.None? <==> Linted(services + steps, cloning)
  {
    var all := services + steps;
    var names: set<string> := if cloning then {CLONE} else {};
    for i := 0 to |all|
      invariant names == Known(all, i, cloning) && forall k | 0 <= k < i :: GoodStep(all, k, cloning)
    {
      var step := all[i];
      if step.Nil? {
        assert !GoodStep(all, i, cloning);
        return Some(NilStep);
      }
      if step.name in names {
        assert !GoodStep(all, i, cloning);
        return Some(DuplicateStepName);
      }
      names := names + {step.name};
      assert names == Known(all, i + 1, cloning);
      if !step.mountsAllowed {
        assert !GoodStep(all, i, cloning);
        return Some(BadMount);
      }
      e := CheckDeps(step, names);
      if e.Some? {
        assert !GoodStep(all, i, cloning);
        return;
      }
    }
    return None;
  }

  /** The first dependency that is unknown or the step itself. */
  method CheckDeps(step: SourceStep, names: set<string>) returns (e: Option<LintError>)
    requires step.SourceStep?
    ensures e.None? <==> forall d | d in step.dependsOn :: d in names && d != step.name
  {
    for i := 0 to |step.dependsOn|
      invariant forall k | 0 <= k < i :: step.dependsOn[k] in names && step.dependsOn[k] != step.name
    {
      var dep := step.dependsOn[i];
      if dep !in names { return Some(UnknownDependency(step.name, dep)); }
      if step.name == dep { return Some(CyclicDependency(dep)); }
    }
    return None;
  }

  // ---------- Compiling ----------

  function Written(steps: seq<SourceStep>): (g: seq<Node>)
    requires forall k | 0 <= k < |steps| :: steps[k].SourceStep?
    ensures |g| == |steps| && forall k | 0 <= k < |steps| :: g[k] == Node(steps[k].name, steps[k].dependsOn)
  {
    seq(|steps|, k requires 0 <= k < |steps| => Node(steps[k].name, steps[k].dependsOn))
  }

  predicate Declares(g: seq<Node>) {
    exists k | 0 <= k < |g| :: g[k].deps != []
  }

  function Serial(g: seq<Node>): (h: seq<Node>)
    ensures |h| == |g| && (g != [] ==> h[0] == g[0])
    ensures forall j, k | 0 <= j && k == j + 1 && k < |g| :: h[k] == Node(g[k].name, [g[j].name])
  {
    seq(|g|, k requires 0 <= k < |g| => if k == 0 then g[0] else Node(g[k].name, [g[k - 1].name]))
  }

  function CloneFirst(node: Node): Node {
    if node.name != CLONE && node.deps == [] then Node(node.name, [CLONE]) else node
  }

  function Unclone(node: Node): Node {
    if node.deps == [CLONE] then Node(node.name, []) else node
  }

  predicate HasClone(g: seq<Node>) {
    exists k | 0 <= k < |g| :: g[k].name == CLONE
  }

  function CloneDeps(g: seq<Node>): (h: seq<Node>)
    ensures |h| == |g| && forall k | 0 <= k < |g| :: h[k] == CloneFirst(g[k])
  {
    seq(|g|, k requires 0 <= k < |g| => CloneFirst(g[k]))
  }

  function Uncloned(g: seq<Node>): (h: seq<Node>)
    ensures |h| == |g| && forall k | 0 <= k < |g| :: h[k] == if HasClone(g) then g[k] else Unclone(g[k])
  {
    if HasClone(g) then g else seq(|g|, k requires 0 <= k < |g| => Unclone(g[k]))
  }

  function Started(written: seq<Node>, cloning: bool): seq<Node> {
    (if cloning then [Node(CLONE, [])] else []) + written
  }

  function Wired(g: seq<Node>, cloning: bool): seq<Node> {
    if !Declares(g) then Serial(g)
    else if cloning then CloneDeps(g) else Uncloned(g)
  }

  function Views(steps: seq<EngineStep>): (g: seq<Node>)
    reads steps
    ensures |g| == |steps| && forall k | 0 <= k < |steps| :: g[k] == steps[k].View()
  {
    seq(|steps|, k requires 0 <= k < |steps| reads steps => steps[k].View())
  }

  predicate DistinctObjects(steps: seq<EngineStep>) {
    forall i, j | 0 <= i < j < |steps| :: steps[i] != steps[j]
  }

  method IsGraph(steps: seq<EngineStep>) returns (declared: bool)
    ensures declared == Declares(Views(steps))
    ensures declared <==> exists k | 0 <= k < |steps| :: steps[k].dependsOn != []
  {
    for i := 0 to |steps|
      invariant forall k | 0 <= k < i :: steps[k].dependsOn == []
    {
      if |steps[i].dependsOn| > 0 {
        assert Views(steps)[i].deps != [];
        return true;
      }
    }
    return false;
  }

  method ConfigureSerial(steps: seq<EngineStep>)
    requires DistinctObjects(steps)
    modifies steps
    ensures Views(steps) == Serial(old(Views(steps)))
    ensures steps != [] ==> steps[0].dependsOn == old(steps[0].dependsOn)
    ensures forall j, k | 0 <= j && k == j + 1 && k < |steps| :: steps[k].dependsOn == [steps[j].name]
  {
    var prev: Option<string> := None;
    for i := 0 to |steps|
      invariant i == 0 ==> prev == None
      invariant forall j | 0 <= j && j + 1 == i :: prev == Some(steps[j].name)
      invariant forall j, k | 0 <= j && k == j + 1 && k < i :: steps[k].dependsOn == [steps[j].name]
      invariant forall k | 0 <= k < |steps| && (k == 0 || i <= k) :: steps[k].dependsOn == old(steps[k].dependsOn)
    {
      if prev.Some? { steps[i].dependsOn := [prev.value]; }
      prev := Some(steps[i].name);
    }
  }

  method ConfigureCloneDeps(steps: seq<EngineStep>)
    requires DistinctObjects(steps)
    modifies steps
    ensures Views(steps) == CloneDeps(old(Views(steps)))
    ensures
      forall k | 0 <= k < |steps| ::
        if steps[k].name != "clone" && old(steps[k].dependsOn) == [] then steps[k].dependsOn == ["clone"]
        else steps[k].dependsOn == old(steps[k].dependsOn)
  {
    for i := 0 to |steps|
      invariant forall k | 0 <= k < i :: steps[k].View() == CloneFirst(old(steps[k].View()))
      invariant forall k | i <= k < |steps| :: steps[k].View() == old(steps[k].View())
    {
      if steps[i].name != CLONE && |steps[i].dependsOn| == 0 { steps[i].dependsOn := [CLONE]; }
    }
  }

  method RemoveCloneDeps(steps: seq<EngineStep>)
    requires DistinctObjects(steps)
    modifies steps
    ensures Views(steps) == Uncloned(old(Views(steps)))
    ensures
      (exists k | 0 <= k < |steps| :: steps[k].name == "clone") ==>
        (forall k | 0 <= k < |steps| :: steps[k].dependsOn == old(steps[k].dependsOn))
    ensures
      (forall k | 0 <= k < |steps| :: steps[k].name != "clone") ==>
        (forall k | 0 <= k < |steps| ::
           steps[k].dependsOn == if old(steps[k].dependsOn) == ["clone"] then [] else old(steps[k].dependsOn))
  {
    for i := 0 to |steps|
      invariant forall k | 0 <= k < i :: steps[k].name != CLONE
      invariant Views(steps) == old(Views(steps))
    {
      if steps[i].name == CLONE {
        assert Views(steps)[i].name == CLONE;
        return;
      }
    }
    for i := 0 to |steps|
      invariant forall k | 0 <= k < i :: steps[k].View() == Unclone(old(steps[k].View()))
      invariant forall k | i <= k < |steps| :: steps[k].View() == old(steps[k].View())
    {
      if |steps[i].dependsOn| == 1 && steps[i].dependsOn[0] == CLONE { steps[i].dependsOn := []; }
    }
  }

  /** Builds the steps, clone step first, then wires their dependencies. */
  method Compile(services: seq<SourceStep>, steps: seq<SourceStep>, cloning: bool) returns (compiled: seq<EngineStep>)
    requires forall k | 0 <= k < |services + steps| :: (services + steps)[k].SourceStep?
    ensures forall k | 0 <= k < |compiled| :: fresh(compiled[k])
    ensures Views(compiled) == Wired(Started(Written(services + steps), cloning), cloning)
  {
    compiled := BuildSteps(services + steps, cloning);
    var graph := IsGraph(compiled);
    if !graph {
      ConfigureSerial(compiled);
    } else if cloning {
      ConfigureCloneDeps(compiled);
    } else {
      RemoveCloneDeps(compiled);
    }
  }

  method BuildSteps(all: seq<SourceStep>, cloning: bool) returns (compiled: seq<EngineStep>)
    requires forall k | 0 <= k < |all| :: all[k].SourceStep?
    ensures DistinctObjects(compiled) && forall k | 0 <= k < |compiled| :: fresh(compiled[k])
    ensures Views(compiled) == Started(Written(all), cloning)
  {
    compiled := [];
    if cloning {
      var clone := new EngineStep(CLONE, []);
      compiled := [clone];
    }
    ghost var n := |compiled|;
    for i := 0 to |all|
      invariant |compiled| == n + i && DistinctObjects(compiled) && forall k | 0 <= k < |compiled| :: fresh(compiled[k])
      invariant forall k | 0 <= k < n + i :: compiled[k].View() == Started(Written(all), cloning)[k]
    {
      var step := new EngineStep(all[i].name, all[i].dependsOn);
      compiled := compiled + [step];
    }
  }
}
