/** The dependency declarations of the startup coordinator and their validation
    (pkg/startup/coordinator.go, New / buildDependencies / ensureAcyclic / visitForCycle). */
module Dependencies {

  type Component = string

  /** A component as the coordinator sees it: its name and its DependsOn list. */
  datatype Spec = Spec(name: Component, dependsOn: seq<Component>)

  datatype ConfigError =
    | NoSpecs
    | DuplicateComponent(name: Component)
    | SelfDependency(name: Component)
    | UnknownDependency(name: Component, dep: Component)
    | DependencyCycle

  datatype Result<+T> = Ok(value: T) | Err(error: ConfigError)

  /** Adjacency sets: g[n] holds the components n waits for. */
  type Graph = map<Component, set<Component>>

  ghost predicate Closed(g: Graph) {
    forall n, d :: n in g && d in g[n] ==> d in g
  }

  ghost predicate IsPath(g: Graph, p: seq<Component>) {
    && |p| > 0
    && (forall i :: 0 <= i < |p| ==> p[i] in g)
    && (forall i :: 0 <= i < |p| - 1 ==> p[i + 1] in g[p[i]])
  }

  ghost predicate IsCycle(g: Graph, p: seq<Component>) {
    IsPath(g, p) && |p| > 1 && p[0] == p[|p| - 1]
  }

  ghost predicate Acyclic(g: Graph) {
    forall p :: !IsCycle(g, p)
  }

  /** An order in which every component comes after all it depends on. */
  ghost predicate DependencyOrder(g: Graph, order: seq<Component>) {
    forall i :: 0 <= i < |order| ==>
      order[i] in g && forall d :: d in g[order[i]] ==> d in order[..i]
  }

  lemma OrderExtends(g: Graph, order: seq<Component>, n: Component)
    requires DependencyOrder(g, order) && n in g
    requires forall d :: d in g[n] ==> d in order
    ensures DependencyOrder(g, order + [n])
  {
    var longer := order + [n];
    forall i | 0 <= i < |longer| ensures longer[i] in g && forall d :: d in g[longer[i]] ==> d in longer[..i] {
      assert longer[..i] == order[..i];
    }
  }

  /** A graph whose nodes all appear in a dependency order has no cycle. */
  lemma OrderMeansAcyclic(g: Graph, order: seq<Component>)
    requires DependencyOrder(g, order)
    requires forall n :: n in g ==> n in order
    ensures Acyclic(g)
  {
    forall p ensures !IsCycle(g, p) {
      if IsCycle(g, p) {
        var at :| 0 <= at < |order| && order[at] == p[0];
        PathDescends(g, order, p, at);
        RemoveLater(g, order, p, at);
      }
    }
  }

  /** Along a path the later nodes sit strictly earlier in a dependency order. */
  lemma {:induction false} PathDescends(g: Graph, order: seq<Component>, p: seq<Component>, at: nat)
    requires DependencyOrder(g, order) && IsPath(g, p)
    requires at < |order| && order[at] == p[0]
    ensures |p| > 1 ==> p[|p| - 1] in order[..at]
    decreases |p|
  {
    if |p| > 1 {
      assert p[0 + 1] in g[p[0]] && p[1] in order[..at];
      var next :| 0 <= next < at && order[next] == p[1];
      assert IsPath(g, p[1..]);
      PathDescends(g, order, p[1..], next);
      assert p[1..][|p| - 2] == p[|p| - 1];
      assert forall x :: x in order[..next] ==> x in order[..at];
    }
  }

  /** A cycle would let its start be pushed ever earlier in the order. */
  lemma {:induction false} RemoveLater(g: Graph, order: seq<Component>, p: seq<Component>, at: nat)
    requires DependencyOrder(g, order) && IsCycle(g, p)
    requires at < |order| && order[at] == p[0]
    ensures false
    decreases at
  {
    PathDescends(g, order, p, at);
    var earlier :| 0 <= earlier < at && order[earlier] == p[0];
    RemoveLater(g, order, p, earlier);
  }

  ghost predicate WaitsInside(g: Graph, blocked: set<Component>, n: Component)
    requires n in g
  {
    exists d :: d in g[n] && d in blocked
  }

  /** If every member of a nonempty set of nodes has a successor inside the set,
      the graph has a cycle: blocked components that only wait for each other. */
  lemma SelfBlockedSetHasCycle(g: Graph, blocked: set<Component>, start: Component)
    requires start in blocked && blocked <= g.Keys
    requires forall n :: n in blocked ==> WaitsInside(g, blocked, n)
    ensures !Acyclic(g)
  {
    GrowPath(g, blocked, [start], blocked - {start});
  }

  lemma {:induction false} GrowPath(g: Graph, blocked: set<Component>, p: seq<Component>, unused: set<Component>)
    requires blocked <= g.Keys && IsPath(g, p)
    requires forall i :: 0 <= i < |p| ==> p[i] in blocked
    requires forall n :: n in blocked && n !in p ==> n in unused
    requires forall n :: n in blocked ==> WaitsInside(g, blocked, n)
    ensures !Acyclic(g)
    decreases unused
  {
    var last := p[|p| - 1];
    assert WaitsInside(g, blocked, last);
    var d :| d in g[last] && d in blocked;
    PathExtends(g, p, d);
    if d in p {
      var i :| 0 <= i < |p| && p[i] == d;
      PathSuffix(g, p + [d], i);
      assert IsCycle(g, (p + [d])[i..]);
    } else {
      assert d in unused;
      GrowPath(g, blocked, p + [d], unused - {d});
    }
  }

  lemma PathExtends(g: Graph, p: seq<Component>, d: Component)
    requires IsPath(g, p) && d in g && d in g[p[|p| - 1]]
    ensures IsPath(g, p + [d])
  {
  }

  lemma PathSuffix(g: Graph, p: seq<Component>, i: nat)
    requires IsPath(g, p) && i < |p|
    ensures IsPath(g, p[i..])
  {
  }

  // ---- the three-colour depth-first search ----

  datatype Color = White | Gray | Black

  /** Go map semantics: an absent node has the zero value, nodeWhite. */
  function ColorOf(color: map<Component, Color>, n: Component): Color {
    if n in color then color[n] else White
  }

  function WhiteNodes(g: Graph, color: map<Component, Color>): set<Component> {
    set n | n in g && ColorOf(color, n) == White
  }

  /** Gray nodes are exactly the recursion stack, which is a path;
      black nodes are exactly the finished ones, in dependency order. */
  ghost predicate SearchState(g: Graph, color: map<Component, Color>, stack: seq<Component>, finished: seq<Component>) {
    && (stack != [] ==> IsPath(g, stack))
    && (forall n :: ColorOf(color, n) == Gray <==> n in stack)
    && (forall n :: ColorOf(color, n) == Black <==> n in finished)
    && DependencyOrder(g, finished)
  }

  /** A gray dependency closes a cycle through the recursion stack. */
  lemma BackEdgeClosesCycle(g: Graph, stack: seq<Component>, dep: Component)
    requires stack != [] && IsPath(g, stack)
    requires dep in g[stack[|stack| - 1]] && dep in stack && dep in g
    ensures !Acyclic(g)
  {
    var i :| 0 <= i < |stack| && stack[i] == dep;
    var p := stack[i..] + [dep];
    assert IsCycle(g, p);
  }

  method VisitForCycle(
      node: Component, g: Graph, color0: map<Component, Color>,
      ghost stack: seq<Component>, ghost finished0: seq<Component>)
    returns (ok: bool, color: map<Component, Color>, ghost finished: seq<Component>)
    requires Closed(g) && node in g
    requires ColorOf(color0, node) == White
    requires SearchState(g, color0, stack, finished0)
    requires stack != [] ==> node in g[stack[|stack| - 1]]
    ensures ok ==> SearchState(g, color, stack, finished) && node in finished
    ensures ok ==> finished0 <= finished
    ensures ok ==> WhiteNodes(g, color) < WhiteNodes(g, color0)
    ensures !ok ==> !Acyclic(g)
    decreases WhiteNodes(g, color0)
  {
    color := color0[node := Gray];
    finished := finished0;
    ghost var path := stack + [node];
    assert IsPath(g, path);
    var todo := g[node];
    assert node in WhiteNodes(g, color0);
    while todo != {}
      invariant todo <= g[node]
      invariant SearchState(g, color, path, finished)
      invariant finished0 <= finished
      invariant forall d :: d in g[node] && d !in todo ==> d in finished
      invariant WhiteNodes(g, color) < WhiteNodes(g, color0)
      decreases todo
    {
      var dep :| dep in todo;
      match ColorOf(color, dep) {
        case Gray =>
          BackEdgeClosesCycle(g, path, dep);
          ok := false;
          return;
        case White =>
          ok, color, finished := VisitForCycle(dep, g, color, path, finished);
          if !ok {
            return;
          }
        case Black =>
      }
      todo := todo - {dep};
    }
    assert ColorOf(color, node) == Gray by { assert node == path[|stack|]; }
    assert node !in stack;
    ghost var before := color;
    color := color[node := Black];
    OrderExtends(g, finished, node);
    finished := finished + [node];
    assert forall n :: ColorOf(color, n) == Gray <==> n in stack by {
      assert forall n :: n in path <==> n in stack || n == node;
    }
    assert forall n :: ColorOf(before, n) == White <==> ColorOf(color, n) == White;
    assert WhiteNodes(g, before) == WhiteNodes(g, color);
    ok := true;
  }

  /** The startup graph is accepted exactly when it has no cycle. */
  method EnsureAcyclic(names: seq<Component>, g: Graph) returns (ok: bool)
    requires Closed(g) && (forall n :: n in g <==> n in names)
    ensures ok <==> Acyclic(g)
  {
    var color: map<Component, Color> := map[];
    ghost var finished: seq<Component> := [];
    var i := 0;
    while i < |names|
      invariant 0 <= i <= |names|
      invariant SearchState(g, color, [], finished)
      invariant forall j :: 0 <= j < i ==> names[j] in finished
    {
      if ColorOf(color, names[i]) == White {
        ok, color, finished := VisitForCycle(names[i], g, color, [], finished);
        if !ok {
          return;
        }
      }
      i := i + 1;
    }
    OrderMeansAcyclic(g, finished);
    ok := true;
  }

  // ---- building and validating the graph ----

  /** What a spec list must satisfy besides being acyclic. */
  ghost predicate DistinctNames(specs: seq<Spec>) {
    forall i, j :: 0 <= i < j < |specs| ==> specs[i].name != specs[j].name
  }

  ghost predicate NoSelfEdge(specs: seq<Spec>) {
    forall s :: s in specs ==> s.name !in s.dependsOn
  }

  ghost predicate NoUnknownEdge(specs: seq<Spec>) {
    forall s, d :: s in specs && d in s.dependsOn ==> exists t :: t in specs && t.name == d
  }

  /** The declared graph: one node per spec, its DependsOn entries as a set. */
  ghost predicate DeclaredGraph(specs: seq<Spec>, g: Graph) {
    && (forall n :: n in g <==> exists s :: s in specs && s.name == n)
    && (forall s :: s in specs ==> g[s.name] == set d | d in s.dependsOn)
  }

  /** Adding the next spec's edges keeps the graph the declared one. */
  lemma DeclaredGraphExtends(specs: seq<Spec>, i: nat, g: Graph)
    requires DistinctNames(specs) && i < |specs| && DeclaredGraph(specs[..i], g)
    ensures DeclaredGraph(specs[..i + 1], g[specs[i].name := set d | d in specs[i].dependsOn])
  {
    var more := g[specs[i].name := set d | d in specs[i].dependsOn];
    assert specs[..i + 1] == specs[..i] + [specs[i]];
    assert specs[i] in specs[..i + 1];
    forall s | s in specs[..i + 1] ensures s.name in more && more[s.name] == set d | d in s.dependsOn {
      var j :| 0 <= j <= i && specs[j] == s;
      if j < i {
        assert s in specs[..i];
      }
    }
  }

  /** One spec's DependsOn list as a set, refusing the first bad entry. */
  method CollectDeps(spec: Spec, known: set<Component>) returns (r: Result<set<Component>>)
    ensures r.Ok? ==> r.value == (set d | d in spec.dependsOn) && spec.name !in r.value && r.value <= known
    ensures r.Err? ==>
      || (r.error == SelfDependency(spec.name) && spec.name in spec.dependsOn)
      || (exists d :: r.error == UnknownDependency(spec.name, d) && d in spec.dependsOn && d !in known)
  {
    var deps: set<Component> := {};
    var k := 0;
    while k < |spec.dependsOn|
      invariant 0 <= k <= |spec.dependsOn|
      invariant deps == set d | d in spec.dependsOn[..k]
      invariant spec.name !in deps && deps <= known
    {
      var dep := spec.dependsOn[k];
      if dep == spec.name {
        return Err(SelfDependency(spec.name));
      }
      if dep !in known {
        return Err(UnknownDependency(spec.name, dep));
      }
      assert spec.dependsOn[..k + 1] == spec.dependsOn[..k] + [dep];
      deps := deps + {dep};
      k := k + 1;
    }
    assert spec.dependsOn[..k] == spec.dependsOn;
    return Ok(deps);
  }

  method BuildDependencies(specs: seq<Spec>, known: set<Component>) returns (r: Result<Graph>)
    requires DistinctNames(specs)
    requires forall n :: n in known <==> exists s :: s in specs && s.name == n
    ensures r.Ok? ==> NoSelfEdge(specs) && NoUnknownEdge(specs) && DeclaredGraph(specs, r.value) && Acyclic(r.value)
    ensures r.Err? ==>
      match r.error
      case SelfDependency(n) => exists s :: s in specs && s.name == n && n in s.dependsOn
      case UnknownDependency(n, d) => d !in known && exists s :: s in specs && s.name == n && d in s.dependsOn
      case DependencyCycle => NoSelfEdge(specs) && NoUnknownEdge(specs) && exists g :: DeclaredGraph(specs, g) && !Acyclic(g)
      case _ => false
  {
    var g: Graph := map[];
    var i := 0;
    while i < |specs|
      invariant 0 <= i <= |specs|
      invariant DeclaredGraph(specs[..i], g)
      invariant forall j :: 0 <= j < i ==> specs[j].name !in specs[j].dependsOn
      invariant forall j, d :: 0 <= j < i && d in specs[j].dependsOn ==> d in known
    {
      var deps := CollectDeps(specs[i], known);
      if deps.Err? {
        assert specs[i] in specs;
        return Err(deps.error);
      }
      DeclaredGraphExtends(specs, i, g);
      g := g[specs[i].name := deps.value];
      i := i + 1;
    }
    assert specs[..i] == specs;
    EdgesKnown(specs, known, g);
    var ok := EnsureAcyclic(seq(|specs|, j requires 0 <= j < |specs| => specs[j].name), g);
    if !ok {
      return Err(DependencyCycle);
    }
    return Ok(g);
  }

  lemma EdgesKnown(specs: seq<Spec>, known: set<Component>, g: Graph)
    requires forall n :: n in known <==> exists s :: s in specs && s.name == n
    requires forall j :: 0 <= j < |specs| ==> specs[j].name !in specs[j].dependsOn
    requires forall j, d :: 0 <= j < |specs| && d in specs[j].dependsOn ==> d in known
    requires DeclaredGraph(specs, g)
    ensures NoSelfEdge(specs) && NoUnknownEdge(specs) && Closed(g)
    ensures forall n :: n in g <==> n in seq(|specs|, j requires 0 <= j < |specs| => specs[j].name)
  {
    var names := seq(|specs|, j requires 0 <= j < |specs| => specs[j].name);
    forall s, d | s in specs && d in s.dependsOn ensures exists t :: t in specs && t.name == d {
      var j :| 0 <= j < |specs| && specs[j] == s;
      assert d in known;
    }
    forall n, d | n in g && d in g[n] ensures d in g {
      var s :| s in specs && s.name == n;
    }
    forall n | n in g ensures n in names {
      var s :| s in specs && s.name == n;
      var j :| 0 <= j < |specs| && specs[j] == s;
      assert names[j] == n;
    }
    forall n | n in names ensures n in g {
      var j :| 0 <= j < |names| && names[j] == n;
      assert specs[j] in specs;
    }
  }

  /** Why a spec list is refused: New accepts exactly the lists meeting all five rules. */
  ghost predicate Acceptable(specs: seq<Spec>) {
    && |specs| >= 2 && DistinctNames(specs) && NoSelfEdge(specs) && NoUnknownEdge(specs)
    && exists g :: DeclaredGraph(specs, g) && Acyclic(g)
  }

  lemma DeclaredGraphUnique(specs: seq<Spec>, g: Graph, h: Graph)
    requires DeclaredGraph(specs, g) && DeclaredGraph(specs, h)
    ensures g == h
  {
    forall n | n in g ensures n in h && g[n] == h[n] {
      var s :| s in specs && s.name == n;
    }
    assert g.Keys == h.Keys;
  }

  method New(specs: seq<Spec>) returns (r: Result<Graph>)
    ensures r.Ok? <==> Acceptable(specs)
    ensures r.Ok? ==> DeclaredGraph(specs, r.value) && Acyclic(r.value)
    ensures r == Err(NoSpecs) <==> |specs| < 2
    ensures r.Err? && r.error.DuplicateComponent? <==> |specs| >= 2 && !DistinctNames(specs)
    ensures r == Err(DependencyCycle) <==>
      |specs| >= 2 && DistinctNames(specs) && NoSelfEdge(specs) && NoUnknownEdge(specs) && !Acceptable(specs)
  {
    if |specs| < 2 {
      return Err(NoSpecs);
    }
    var states: set<Component> := {};
    var i := 0;
    while i < |specs|
      invariant 0 <= i <= |specs|
      invariant forall n :: n in states <==> exists j :: 0 <= j < i && specs[j].name == n
      invariant DistinctNames(specs[..i])
    {
      if specs[i].name in states {
        ghost var j :| 0 <= j < i && specs[j].name == specs[i].name;
        assert !DistinctNames(specs);
        return Err(DuplicateComponent(specs[i].name));
      }
      states := states + {specs[i].name};
      i := i + 1;
    }
    assert specs[..i] == specs;
    assert forall n :: n in states <==> exists s :: s in specs && s.name == n by {
      forall n | n in states ensures exists s :: s in specs && s.name == n {
        var j :| 0 <= j < |specs| && specs[j].name == n;
        assert specs[j] in specs;
      }
    }
    r := BuildDependencies(specs, states);
    if r.Ok? {
      assert Acceptable(specs);
    } else {
      if r.error.DependencyCycle? {
        ghost var g :| DeclaredGraph(specs, g) && !Acyclic(g);
        forall h | DeclaredGraph(specs, h) ensures !Acyclic(h) { DeclaredGraphUnique(specs, g, h); }
      }
      assert !Acceptable(specs);
    }
  }
}
