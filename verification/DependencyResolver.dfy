/**
 The load order of plugins: Kahn's algorithm over hash maps (whose iteration
 order is left open), and the depth-first search that reports a cycle.
*/
module DependencyResolver {
  import opened Wrappers

  datatype Plugin = Plugin(name: string, dependencies: seq<string>)

  datatype DependencyError =
    | MissingDependency(plugin: string, dependency: string)
    | CircularDependency(involved: seq<string>)

  // ---- The dependency graph ----

  function Names(plugins: seq<Plugin>): set<string> {
    set p | p in plugins :: p.name
  }

  ghost predicate DistinctNames(plugins: seq<Plugin>) {
    forall i, j :: 0 <= i < j < |plugins| ==> plugins[i].name != plugins[j].name
  }

  /** `a` depends on `b`, and `b` is available. */
  ghost predicate DependsOn(plugins: seq<Plugin>, a: string, b: string) {
    b in Names(plugins) && exists p :: p in plugins && p.name == a && b in p.dependencies
  }

  ghost predicate NothingMissing(plugins: seq<Plugin>) {
    forall p, d :: p in plugins && d in p.dependencies ==> d in Names(plugins)
  }

  /** Each element depends on the next. */
  ghost predicate Walk(plugins: seq<Plugin>, path: seq<string>) {
    forall i, j :: 0 <= i < j < |path| && j == i + 1 ==> DependsOn(plugins, path[i], path[j])
  }

  ghost predicate Cycle(plugins: seq<Plugin>, path: seq<string>) {
    && path != []
    && Walk(plugins, path)
    && DependsOn(plugins, path[|path| - 1], path[0])
  }

  ghost predicate Acyclic(plugins: seq<Plugin>) {
    forall path :: !Cycle(plugins, path)
  }

  /** Every available dependency of an element stands before it. */
  ghost predicate DependenciesFirst(plugins: seq<Plugin>, order: seq<string>) {
    forall i, d :: 0 <= i < |order| && DependsOn(plugins, order[i], d) ==> d in order[..i]
  }

  function NamesOf(order: seq<Plugin>): (names: seq<string>)
    ensures |names| == |order|
    ensures forall i :: 0 <= i < |order| ==> names[i] == order[i].name
  {
    seq(|order|, i requires 0 <= i < |order| => order[i].name)
  }

  /** Following a walk down a dependencies-first order, positions never increase. */
  lemma {:induction false} WalkDescends(plugins: seq<Plugin>, order: seq<string>, path: seq<string>, i: nat, l: nat)
    requires DependenciesFirst(plugins, order) && Walk(plugins, path)
    requires i < |path| && l < |order| && order[l] == path[0]
    ensures exists k :: 0 <= k <= l && order[k] == path[i]
    decreases i
  {
    if i > 0 {
      WalkDescends(plugins, order, path, i - 1, l);
      var k :| 0 <= k <= l && order[k] == path[i - 1];
      assert DependsOn(plugins, order[k], path[i]);
    }
  }

  /** Going round a cycle would descend through the order below any position. */
  lemma {:induction false} NoEndlessDescent(plugins: seq<Plugin>, order: seq<string>, path: seq<string>, l: nat)
    requires DependenciesFirst(plugins, order) && Cycle(plugins, path)
    requires l <= |order|
    ensures path[0] !in order[..l]
    decreases l
  {
    if path[0] in order[..l] {
      var first :| 0 <= first < l && order[first] == path[0];
      WalkDescends(plugins, order, path, |path| - 1, first);
      var k :| 0 <= k <= first && order[k] == path[|path| - 1];
      assert DependsOn(plugins, order[k], path[0]);
      NoEndlessDescent(plugins, order, path, k);
    }
  }

  /** A graph with a dependencies-first order of all its nodes has no cycle. */
  lemma {:induction false} OrderedIsAcyclic(plugins: seq<Plugin>, order: seq<string>)
    requires DependenciesFirst(plugins, order)
    requires forall n :: n in Names(plugins) ==> n in order
    ensures Acyclic(plugins)
  {
    forall path ensures !Cycle(plugins, path) {
      if Cycle(plugins, path) {
        assert order[..|order|] == order;
        NoEndlessDescent(plugins, order, path, |order|);
      }
    }
  }

  /** A walk that stays in a finite set and visits a node twice contains a cycle. */
  lemma RepetitionIsCycle(plugins: seq<Plugin>, path: seq<string>, i: nat, j: nat)
    requires Walk(plugins, path) && i < j < |path| && path[i] == path[j]
    ensures Cycle(plugins, path[i..j])
  {
    assert DependsOn(plugins, path[j - 1], path[j]);
  }

  ghost predicate Unrepeated(path: seq<string>) {
    forall i, j :: 0 <= i < j < |path| ==> path[i] != path[j]
  }

  lemma ExtendWalk(plugins: seq<Plugin>, path: seq<string>, b: string)
    requires path != [] && Walk(plugins, path) && DependsOn(plugins, path[|path| - 1], b)
    ensures Walk(plugins, path + [b])
    ensures Unrepeated(path) && b !in path ==> Unrepeated(path + [b])
  {
  }

  ghost predicate DependsOnOneOf(plugins: seq<Plugin>, a: string, nodes: set<string>) {
    exists b :: b in nodes && DependsOn(plugins, a, b)
  }

  ghost predicate AllStuck(plugins: seq<Plugin>, nodes: set<string>) {
    forall a {:trigger DependsOnOneOf(plugins, a, nodes)} :: a in nodes ==> DependsOnOneOf(plugins, a, nodes)
  }

  /** If every node of a non-empty set depends on another of the set, there is a cycle. */
  lemma {:induction false} StuckIsCyclic(plugins: seq<Plugin>, stuck: set<string>, path: seq<string>)
    requires AllStuck(plugins, stuck)
    requires path != [] && Walk(plugins, path) && Unrepeated(path)
    requires forall a :: a in path ==> a in stuck
    ensures !Acyclic(plugins)
    decreases |stuck| - |path|
  {
    var a := path[|path| - 1];
    assert a in path && DependsOnOneOf(plugins, a, stuck);
    var b :| b in stuck && DependsOn(plugins, a, b);
    ExtendWalk(plugins, path, b);
    if b in path {
      var i :| 0 <= i < |path| && path[i] == b;
      RepetitionIsCycle(plugins, path + [b], i, |path|);
    } else {
      DistinctFit(path + [b], stuck);
      StuckIsCyclic(plugins, stuck, path + [b]);
    }
  }

  lemma {:induction false} DistinctFit(path: seq<string>, nodes: set<string>)
    requires forall n :: n in path ==> n in nodes
    requires Unrepeated(path)
    ensures |path| <= |nodes|
  {
    if path != [] {
      DistinctFit(path[..|path| - 1], nodes - {path[|path| - 1]});
    }
  }

  /** As many distinct elements of a finite set as it has are all of it. */
  lemma {:induction false} DistinctCover(path: seq<string>, nodes: set<string>)
    requires forall n :: n in path ==> n in nodes
    requires Unrepeated(path)
    requires |path| == |nodes|
    ensures forall n :: n in nodes ==> n in path
  {
    if path != [] {
      var last := path[|path| - 1];
      DistinctCover(path[..|path| - 1], nodes - {last});
      forall n | n in nodes ensures n in path {
        assert n == last || n in nodes - {last};
      }
    }
  }

  lemma DistinctAppend(front: seq<Plugin>, last: Plugin)
    ensures DistinctNames(front + [last]) <==> DistinctNames(front) && last.name !in Names(front)
  {
    var plugins := front + [last];
    if last.name in Names(front) {
      var p :| p in front && p.name == last.name;
      var i :| 0 <= i < |front| && front[i] == p;
      assert plugins[i].name == plugins[|front|].name;
    }
    if DistinctNames(plugins) {
      assert forall i :: 0 <= i < |front| ==> plugins[i] == front[i];
    }
    if DistinctNames(front) && last.name !in Names(front) {
      forall i, j | 0 <= i < j < |plugins| ensures plugins[i].name != plugins[j].name {
        assert front[i] in front;
        if j < |front| { assert front[i].name != front[j].name; }
      }
    }
  }

  lemma {:induction false} NameCount(plugins: seq<Plugin>)
    ensures |Names(plugins)| <= |plugins|
    ensures |Names(plugins)| == |plugins| <==> DistinctNames(plugins)
  {
    if plugins != [] {
      var front, last := plugins[..|plugins| - 1], plugins[|plugins| - 1];
      NameCount(front);
      DistinctAppend(front, last);
      assert plugins == front + [last];
      assert Names(plugins) == Names(front) + {last.name};
    }
  }

  // ---- Edges and in-degrees ----

  datatype Edge = Edge(dependency: string, dependent: string)

  /** The edges into one plugin, for the first `k` of its dependencies. */
  function PluginEdges(p: Plugin, available: set<string>, k: nat): seq<Edge>
    requires k <= |p.dependencies|
  {
    if k == 0 then []
    else PluginEdges(p, available, k - 1) +
         if p.dependencies[k - 1] in available then [Edge(p.dependencies[k - 1], p.name)] else []
  }

  /** The edges of the first `n` plugins, in the order the graph is built. */
  function EdgesUpTo(plugins: seq<Plugin>, n: nat): seq<Edge>
    requires n <= |plugins|
  {
    if n == 0 then []
    else EdgesUpTo(plugins, n - 1) + PluginEdges(plugins[n - 1], Names(plugins), |plugins[n - 1].dependencies|)
  }

  function Edges(plugins: seq<Plugin>): seq<Edge> {
    EdgesUpTo(plugins, |plugins|)
  }

  lemma {:induction false} PluginEdgesMeaning(p: Plugin, available: set<string>, k: nat, e: Edge)
    requires k <= |p.dependencies|
    ensures e in PluginEdges(p, available, k) <==>
            e.dependent == p.name && e.dependency in available && e.dependency in p.dependencies[..k]
  {
    if k > 0 {
      PluginEdgesMeaning(p, available, k - 1, e);
      assert p.dependencies[..k] == p.dependencies[..k - 1] + [p.dependencies[k - 1]];
    }
  }

  lemma {:induction false} EdgesMeaning(plugins: seq<Plugin>, n: nat, a: string, b: string)
    requires n <= |plugins|
    ensures Edge(b, a) in EdgesUpTo(plugins, n) <==>
            b in Names(plugins) && exists p :: p in plugins[..n] && p.name == a && b in p.dependencies
  {
    if n > 0 {
      EdgesMeaning(plugins, n - 1, a, b);
      var p := plugins[n - 1];
      PluginEdgesMeaning(p, Names(plugins), |p.dependencies|, Edge(b, a));
      assert p.dependencies[..|p.dependencies|] == p.dependencies;
      assert plugins[..n] == plugins[..n - 1] + [p];
    }
  }

  /** The edges of the graph are the available dependencies. */
  lemma EdgeIsDependency(plugins: seq<Plugin>, a: string, b: string)
    ensures Edge(b, a) in Edges(plugins) <==> DependsOn(plugins, a, b)
  {
    EdgesMeaning(plugins, |plugins|, a, b);
    assert plugins[..|plugins|] == plugins;
  }

  /** The dependents listed for a dependency. */
  function Dependents(edges: seq<Edge>, b: string): seq<string> {
    if edges == [] then []
    else
      var e := edges[|edges| - 1];
      Dependents(edges[..|edges| - 1], b) + if e.dependency == b then [e.dependent] else []
  }

  /** How many edges into `a` come from dependencies not yet placed. */
  function InDegree(edges: seq<Edge>, a: string, done: set<string>): nat {
    if edges == [] then 0
    else
      var e := edges[|edges| - 1];
      InDegree(edges[..|edges| - 1], a, done) + if e.dependent == a && e.dependency !in done then 1 else 0
  }

  function Occurrences(names: seq<string>, a: string): nat {
    if names == [] then 0
    else Occurrences(names[..|names| - 1], a) + if names[|names| - 1] == a then 1 else 0
  }

  lemma EdgesAppend(edges: seq<Edge>, e: Edge, x: string)
    ensures Dependents(edges + [e], x) ==
            if e.dependency == x then Dependents(edges, x) + [e.dependent] else Dependents(edges, x)
    ensures InDegree(edges + [e], x, {}) == InDegree(edges, x, {}) + if e.dependent == x then 1 else 0
  {
    assert (edges + [e])[..|edges|] == edges;
  }

  lemma {:induction false} InDegreeZero(edges: seq<Edge>, a: string, done: set<string>)
    ensures InDegree(edges, a, done) == 0 <==> forall b :: Edge(b, a) in edges ==> b in done
  {
    if edges != [] {
      var front, e := edges[..|edges| - 1], edges[|edges| - 1];
      InDegreeZero(front, a, done);
      assert edges == front + [e];
    }
  }

  /** Placing `c` takes one off a node's in-degree for each time `c` lists it. */
  lemma {:induction false} PlaceOne(edges: seq<Edge>, a: string, done: set<string>, c: string)
    requires c !in done
    ensures InDegree(edges, a, done) == InDegree(edges, a, done + {c}) + Occurrences(Dependents(edges, c), a)
  {
    if edges != [] {
      var front, e := edges[..|edges| - 1], edges[|edges| - 1];
      PlaceOne(front, a, done, c);
      if e.dependency == c {
        assert Dependents(edges, c)[..|Dependents(front, c)|] == Dependents(front, c);
      } else {
        assert Dependents(edges, c) == Dependents(front, c);
      }
    }
  }

  lemma {:induction false} OccurrencesInPrefix(names: seq<string>, k: nat, a: string)
    requires k <= |names|
    ensures Occurrences(names[..k], a) <= Occurrences(names, a)
  {
    if k < |names| {
      assert names[..|names| - 1][..k] == names[..k];
      OccurrencesInPrefix(names[..|names| - 1], k, a);
    } else {
      assert names[..k] == names;
    }
  }

  lemma OccurrencesAppend(names: seq<string>, k: nat, a: string)
    requires k < |names|
    ensures Occurrences(names[..k + 1], a) == Occurrences(names[..k], a) + if names[k] == a then 1 else 0
  {
    assert names[..k + 1][..k] == names[..k];
  }

  // ---- Kahn's algorithm ----

  /** The last plugin of each name. */
  function PluginMap(plugins: seq<Plugin>): (m: map<string, Plugin>)
    ensures m.Keys == Names(plugins)
    ensures forall n :: n in m ==> m[n] in plugins && m[n].name == n
  {
    if plugins == [] then map[]
    else
      var last := plugins[|plugins| - 1];
      PluginMap(plugins[..|plugins| - 1])[last.name := last]
  }

  function DependentsMap(names: set<string>, edges: seq<Edge>): map<string, seq<string>> {
    map b | b in names :: Dependents(edges, b)
  }

  function InDegreeMap(names: set<string>, edges: seq<Edge>): map<string, int> {
    map a | a in names :: InDegree(edges, a, {})
  }

  /** The built graph: edges by dependency, and in-degrees. */
  ghost predicate Built(names: set<string>, edges: seq<Edge>,
                        dependents: map<string, seq<string>>, inDegree: map<string, int>) {
    dependents == DependentsMap(names, edges) && inDegree == InDegreeMap(names, edges)
  }

  lemma AddEdge(names: set<string>, edges: seq<Edge>, dependents: map<string, seq<string>>,
                inDegree: map<string, int>, b: string, a: string)
    requires Built(names, edges, dependents, inDegree) && a in names && b in names
    ensures Built(names, edges + [Edge(b, a)],
                  dependents[b := dependents[b] + [a]], inDegree[a := inDegree[a] + 1])
  {
    var longer := edges + [Edge(b, a)];
    forall x | x in names
      ensures dependents[b := dependents[b] + [a]][x] == Dependents(longer, x)
      ensures inDegree[a := inDegree[a] + 1][x] == InDegree(longer, x, {})
    {
      EdgesAppend(edges, Edge(b, a), x);
    }
  }

  lemma OneMoreDependency(edges: seq<Edge>, p: Plugin, available: set<string>, k: nat)
    requires k < |p.dependencies|
    ensures var now := edges + PluginEdges(p, available, k);
            edges + PluginEdges(p, available, k + 1) ==
            if p.dependencies[k] in available then now + [Edge(p.dependencies[k], p.name)] else now
  {
  }

  method BuildGraph(plugins: seq<Plugin>, pluginMap: map<string, Plugin>)
    returns (dependents: map<string, seq<string>>, inDegree: map<string, int>)
    requires pluginMap == PluginMap(plugins)
    ensures Built(Names(plugins), Edges(plugins), dependents, inDegree)
  {
    inDegree := map n | n in pluginMap :: 0;
    dependents := map n | n in pluginMap :: [];
    for i := 0 to |plugins|
      invariant Built(Names(plugins), EdgesUpTo(plugins, i), dependents, inDegree)
    {
      assert plugins[i] in plugins;
      dependents, inDegree := AddDependencies(plugins[i], pluginMap, EdgesUpTo(plugins, i), dependents, inDegree);
    }
  }

  method AddDependencies(p: Plugin, pluginMap: map<string, Plugin>, ghost edges0: seq<Edge>,
                         dependents0: map<string, seq<string>>, inDegree0: map<string, int>)
    returns (dependents: map<string, seq<string>>, inDegree: map<string, int>)
    requires p.name in pluginMap
    requires Built(pluginMap.Keys, edges0, dependents0, inDegree0)
    ensures Built(pluginMap.Keys, edges0 + PluginEdges(p, pluginMap.Keys, |p.dependencies|), dependents, inDegree)
  {
    dependents, inDegree := dependents0, inDegree0;
    ghost var edges := edges0;
    for j := 0 to |p.dependencies|
      invariant edges == edges0 + PluginEdges(p, pluginMap.Keys, j)
      invariant Built(pluginMap.Keys, edges, dependents, inDegree)
    {
      var dep := p.dependencies[j];
      OneMoreDependency(edges0, p, pluginMap.Keys, j);
      if dep !in pluginMap {
        continue;
      }
      AddEdge(pluginMap.Keys, edges, dependents, inDegree, dep, p.name);
      edges := edges + [Edge(dep, p.name)];
      dependents := dependents[dep := dependents[dep] + [p.name]];
      inDegree := inDegree[p.name := inDegree[p.name] + 1];
    }
  }

  /** What Kahn's loop knows between two plugins. */
  ghost predicate Sorting(plugins: seq<Plugin>, order: seq<string>, ready: seq<string>, inDegree: map<string, int>) {
    var names, done := Names(plugins), set n | n in order;
    && inDegree.Keys == names
    && Unrepeated(order + ready)
    && (forall n :: n in order + ready ==> n in names)
    && (forall a :: a in names ==> inDegree[a] == InDegree(Edges(plugins), a, done))
    && (forall a :: a in names ==> (a in order + ready <==> inDegree[a] == 0))
    && DependenciesFirst(plugins, order)
  }

  /** What it knows while it goes through the dependents of the plugin it placed:
      the first `k` of them have been counted off. */
  ghost predicate CountingOff(plugins: seq<Plugin>, order: seq<string>, current: string, k: nat,
                              ready: seq<string>, inDegree: map<string, int>) {
    var names, done := Names(plugins), set n | n in order;
    var listed := Dependents(Edges(plugins), current);
    && inDegree.Keys == names
    && k <= |listed|
    && current in names
    && Unrepeated(order + [current] + ready)
    && (forall n :: n in order + [current] + ready ==> n in names)
    && (forall a :: a in names ==> inDegree[a] == InDegree(Edges(plugins), a, done) - Occurrences(listed[..k], a))
    && (forall a :: a in names ==> (a in order + [current] + ready <==> inDegree[a] == 0))
    && DependenciesFirst(plugins, order + [current])
  }

  lemma StartCounting(plugins: seq<Plugin>, order: seq<string>, ready: seq<string>, inDegree: map<string, int>)
    requires Sorting(plugins, order, ready, inDegree) && ready != []
    ensures CountingOff(plugins, order, ready[0], 0, ready[1..], inDegree)
  {
    var current := ready[0];
    assert order + [current] + ready[1..] == order + ready;
    assert current in order + ready;
    assert Dependents(Edges(plugins), current)[..0] == [];
    InDegreeZero(Edges(plugins), current, set n | n in order);
    forall i, d | 0 <= i < |order + [current]| && DependsOn(plugins, (order + [current])[i], d)
      ensures d in (order + [current])[..i]
    {
      EdgeIsDependency(plugins, (order + [current])[i], d);
      if i == |order| {
        assert (order + [current])[..i] == order;
      } else {
        assert d in order[..i];
        assert (order + [current])[..i] == order[..i];
      }
    }
  }

  lemma NotPlacedTwice(order: seq<string>, current: string, ready: seq<string>)
    requires Unrepeated(order + [current] + ready)
    ensures current !in order
  {
    var all := order + [current] + ready;
    assert all[|order|] == current;
    assert forall i :: 0 <= i < |order| ==> order[i] == all[i];
  }

  /** A dependent that is counted off still had that edge to lose. */
  lemma StillCounted(plugins: seq<Plugin>, order: seq<string>, current: string, k: nat,
                     ready: seq<string>, inDegree: map<string, int>)
    requires CountingOff(plugins, order, current, k, ready, inDegree)
    requires k < |Dependents(Edges(plugins), current)|
    ensures Dependents(Edges(plugins), current)[k] in Names(plugins)
    ensures inDegree[Dependents(Edges(plugins), current)[k]] > 0
  {
    var listed, done := Dependents(Edges(plugins), current), set n | n in order;
    var a := listed[k];
    DependentsAreNodes(plugins, current, k);
    NotPlacedTwice(order, current, ready);
    PlaceOne(Edges(plugins), a, done, current);
    OccurrencesAppend(listed, k, a);
    OccurrencesInPrefix(listed, k + 1, a);
  }

  lemma DependentsAreNodes(plugins: seq<Plugin>, b: string, k: nat)
    requires k < |Dependents(Edges(plugins), b)|
    ensures Dependents(Edges(plugins), b)[k] in Names(plugins)
  {
    DependentsAreEdges(Edges(plugins), b, k);
    EdgeIsDependency(plugins, Dependents(Edges(plugins), b)[k], b);
  }

  lemma {:induction false} DependentsAreEdges(edges: seq<Edge>, b: string, k: nat)
    requires k < |Dependents(edges, b)|
    ensures Edge(b, Dependents(edges, b)[k]) in edges
  {
    var front := edges[..|edges| - 1];
    if k < |Dependents(front, b)| {
      DependentsAreEdges(front, b, k);
    }
  }

  lemma CountOne(plugins: seq<Plugin>, order: seq<string>, current: string, k: nat,
                 ready: seq<string>, inDegree: map<string, int>)
    requires CountingOff(plugins, order, current, k, ready, inDegree)
    requires k < |Dependents(Edges(plugins), current)|
    requires Dependents(Edges(plugins), current)[k] in inDegree
    ensures
      var a := Dependents(Edges(plugins), current)[k];
      CountingOff(plugins, order, current, k + 1,
                  if inDegree[a] - 1 == 0 then ready + [a] else ready, inDegree[a := inDegree[a] - 1])
  {
    var listed := Dependents(Edges(plugins), current);
    var a := listed[k];
    StillCounted(plugins, order, current, k, ready, inDegree);
    forall x ensures Occurrences(listed[..k + 1], x) == Occurrences(listed[..k], x) + if a == x then 1 else 0 {
      OccurrencesAppend(listed, k, x);
    }
    assert a !in order + [current] + ready;
    assert order + [current] + (ready + [a]) == (order + [current] + ready) + [a];
  }

  lemma DoneCounting(plugins: seq<Plugin>, order: seq<string>, current: string,
                     ready: seq<string>, inDegree: map<string, int>)
    requires CountingOff(plugins, order, current, |Dependents(Edges(plugins), current)|, ready, inDegree)
    ensures Sorting(plugins, order + [current], ready, inDegree)
  {
    var listed, done := Dependents(Edges(plugins), current), set n | n in order;
    assert listed[..|listed|] == listed;
    assert (set n | n in order + [current]) == done + {current};
    NotPlacedTwice(order, current, ready);
    forall a | a in Names(plugins) ensures inDegree[a] == InDegree(Edges(plugins), a, done + {current}) {
      PlaceOne(Edges(plugins), a, done, current);
    }
  }

  /** The nodes without unplaced dependencies, in the hash map's order. */
  method InitialReady(plugins: seq<Plugin>, inDegree: map<string, int>) returns (ready: seq<string>)
    requires inDegree.Keys == Names(plugins)
    requires forall a :: a in inDegree ==> inDegree[a] == InDegree(Edges(plugins), a, {})
    ensures Sorting(plugins, [], ready, inDegree)
  {
    ready := [];
    var todo := inDegree.Keys;
    while todo != {}
      invariant todo <= inDegree.Keys
      invariant Unrepeated(ready)
      invariant forall a :: a in ready <==> a in inDegree.Keys - todo && inDegree[a] == 0
    {
      var name :| name in todo;
      if inDegree[name] == 0 {
        ready := ready + [name];
      }
      todo := todo - {name};
    }
    assert [] + ready == ready;
    assert (set n: string | n in []) == {};
  }

  /** Takes one edge off each dependent of `current`; those that have none left are ready. */
  method CountOff(ghost plugins: seq<Plugin>, ghost order: seq<string>, ghost current: string, listed: seq<string>,
                  ready0: seq<string>, inDegree0: map<string, int>)
    returns (ready: seq<string>, inDegree: map<string, int>)
    requires listed == Dependents(Edges(plugins), current)
    requires CountingOff(plugins, order, current, 0, ready0, inDegree0)
    ensures Sorting(plugins, order + [current], ready, inDegree)
  {
    ready, inDegree := ready0, inDegree0;
    for k := 0 to |listed|
      invariant CountingOff(plugins, order, current, k, ready, inDegree)
    {
      var dependent := listed[k];
      StillCounted(plugins, order, current, k, ready, inDegree);
      CountOne(plugins, order, current, k, ready, inDegree);
      inDegree := inDegree[dependent := inDegree[dependent] - 1];
      if inDegree[dependent] == 0 {
        ready := ready + [dependent];
      }
    }
    DoneCounting(plugins, order, current, ready, inDegree);
  }

  /**
   The sorting loop. It places plugins until none is ready; whatever the order
   of the ready queue, the ones left over each wait for another left over.
  */
  method Sort(plugins: seq<Plugin>, pluginMap: map<string, Plugin>) returns (ordered: seq<Plugin>)
    requires pluginMap == PluginMap(plugins)
    ensures var order := NamesOf(ordered);
            && Unrepeated(order)
            && (forall p :: p in ordered ==> p in plugins)
            && DependenciesFirst(plugins, order)
            && AllStuck(plugins, Names(plugins) - (set n | n in order))
  {
    var dependents, inDegree := BuildGraph(plugins, pluginMap);
    var ready := InitialReady(plugins, inDegree);
    ordered := [];
    ghost var order := [];
    while ready != []
      invariant NamesOf(ordered) == order
      invariant forall p :: p in ordered ==> p in plugins
      invariant Sorting(plugins, order, ready, inDegree)
      decreases |Names(plugins)| - |order|
    {
      StartCounting(plugins, order, ready, inDegree);
      var current := ready[0];
      NamesOfAppend(ordered, pluginMap[current]);
      ordered := ordered + [pluginMap[current]];
      ready, inDegree := CountOff(plugins, order, current, dependents[current], ready[1..], inDegree);
      order := order + [current];
      PlacedFit(plugins, order, ready, inDegree);
    }
    LeftOver(plugins, order, inDegree);
  }

  lemma NamesOfAppend(ordered: seq<Plugin>, p: Plugin)
    ensures NamesOf(ordered + [p]) == NamesOf(ordered) + [p.name]
  {
  }

  lemma PlacedFit(plugins: seq<Plugin>, order: seq<string>, ready: seq<string>, inDegree: map<string, int>)
    requires Sorting(plugins, order, ready, inDegree)
    ensures |order| <= |Names(plugins)|
  {
    assert forall i :: 0 <= i < |order| ==> order[i] == (order + ready)[i];
    DistinctFit(order, Names(plugins));
  }

  lemma LeftOver(plugins: seq<Plugin>, order: seq<string>, inDegree: map<string, int>)
    requires Sorting(plugins, order, [], inDegree)
    ensures Unrepeated(order)
    ensures AllStuck(plugins, Names(plugins) - (set n | n in order))
  {
    assert order + [] == order;
    var done := set n | n in order;
    forall a | a in Names(plugins) - done ensures DependsOnOneOf(plugins, a, Names(plugins) - done) {
      InDegreeZero(Edges(plugins), a, done);
      var b :| Edge(b, a) in Edges(plugins) && b !in done;
      EdgeIsDependency(plugins, a, b);
    }
  }

  // ---- The cycle report ----

  /** Dependencies as the search sees them: the last plugin of a name counts. */
  predicate MapDependsOn(pluginMap: map<string, Plugin>, a: string, b: string) {
    a in pluginMap && b in pluginMap && b in pluginMap[a].dependencies
  }

  lemma MapDependencies(plugins: seq<Plugin>, a: string, b: string)
    ensures MapDependsOn(PluginMap(plugins), a, b) ==> DependsOn(plugins, a, b)
    ensures DistinctNames(plugins) && DependsOn(plugins, a, b) ==> MapDependsOn(PluginMap(plugins), a, b)
  {
    var pluginMap := PluginMap(plugins);
    if DistinctNames(plugins) && DependsOn(plugins, a, b) {
      var p :| p in plugins && p.name == a && b in p.dependencies;
      assert pluginMap[a] == p;
    }
  }

  /** A report: each plugin depends on the next, and some prefix closes into a cycle. */
  ghost predicate CycleReport(plugins: seq<Plugin>, report: seq<string>) {
    && report != []
    && Walk(plugins, report)
    && exists k :: 0 < k <= |report| && Cycle(plugins, report[..k])
  }

  /** The first position of `x`, as std::find has it. */
  function IndexOf(path: seq<string>, x: string): (r: Option<nat>)
    ensures r.None? <==> x !in path
    ensures r.Some? ==> r.value < |path| && path[r.value] == x && x !in path[..r.value]
  {
    if path == [] then None
    else if path[0] == x then Some(0)
    else
      match IndexOf(path[1..], x)
      case None => None
      case Some(i) => assert path[..i + 1] == [path[0]] + path[1..][..i]; Some(i + 1)
  }

  /** The search stopped at a node that depends on one of the path. */
  ghost predicate ClosedPath(pluginMap: map<string, Plugin>, path: seq<string>) {
    && path != []
    && (forall n :: n in path ==> n in pluginMap)
    && (forall i, j :: 0 <= i < j < |path| && j == i + 1 ==> MapDependsOn(pluginMap, path[i], path[j]))
    && exists b :: b in path && MapDependsOn(pluginMap, path[|path| - 1], b)
  }

  /** The earliest node of the path with a dependency at or before it decides where
      the report starts; the report runs to the end of the path. */
  method ExtractCycle(plugins: seq<Plugin>, pluginMap: map<string, Plugin>, path: seq<string>)
    returns (report: seq<string>)
    requires pluginMap == PluginMap(plugins) && ClosedPath(pluginMap, path)
    ensures CycleReport(plugins, report)
    ensures report == Extracted(pluginMap, path, 0)
  {
    var start, i := FirstClosing(pluginMap, path);
    ReportFrom(plugins, path, start, i);
    report := path[start..];
  }

  method FirstClosing(pluginMap: map<string, Plugin>, path: seq<string>) returns (start: nat, i: nat)
    requires ClosedPath(pluginMap, path)
    ensures start <= i < |path| && MapDependsOn(pluginMap, path[i], path[start])
    ensures Extracted(pluginMap, path, 0) == path[start..]
  {
    i := 0;
    ClosedAtEnd(pluginMap, path);
    while i < |path|
      invariant i <= |path| && forall j :: 0 <= j < i ==> !DependsBack(pluginMap, path, j)
      invariant Extracted(pluginMap, path, 0) == Extracted(pluginMap, path, i)
    {
      var closing := ClosingDependency(pluginMap, path, i);
      if closing.Some? {
        return closing.value, i;
      }
      i := i + 1;
    }
    assert false;
  }

  /** Where the dependencies from the d-th on first meet the path at or before i. */
  function Closing(path: seq<string>, i: nat, deps: seq<string>, d: nat): (start: Option<nat>)
    requires i < |path| && d <= |deps|
    ensures start.Some? ==> start.value <= i && path[start.value] in deps
    decreases |deps| - d
  {
    if d == |deps| then None
    else
      var start := IndexOf(path, deps[d]);
      if start.Some? && start.value <= i then start else Closing(path, i, deps, d + 1)
  }

  /** The report from a path whose nodes before the i-th close nothing. */
  function Extracted(pluginMap: map<string, Plugin>, path: seq<string>, i: nat): seq<string>
    requires forall n :: n in path ==> n in pluginMap
    decreases |path| - i
  {
    if i >= |path| then path
    else
      var start := Closing(path, i, pluginMap[path[i]].dependencies, 0);
      if start.Some? then path[start.value..] else Extracted(pluginMap, path, i + 1)
  }

  /** path[i] depends on a node at or before it. */
  ghost predicate DependsBack(pluginMap: map<string, Plugin>, path: seq<string>, i: nat)
    requires i < |path|
  {
    exists b :: b in path[..i + 1] && MapDependsOn(pluginMap, path[i], b)
  }

  lemma ClosedAtEnd(pluginMap: map<string, Plugin>, path: seq<string>)
    requires ClosedPath(pluginMap, path)
    ensures DependsBack(pluginMap, path, |path| - 1)
  {
    assert path[..|path| - 1 + 1] == path;
  }

  /** Where path[i] closes the path, by its first dependency that does. */
  method ClosingDependency(pluginMap: map<string, Plugin>, path: seq<string>, i: nat) returns (start: Option<nat>)
    requires i < |path|
    requires forall n :: n in path ==> n in pluginMap
    ensures start == Closing(path, i, pluginMap[path[i]].dependencies, 0)
    ensures start.None? <==> !DependsBack(pluginMap, path, i)
    ensures start.Some? ==> start.value <= i && MapDependsOn(pluginMap, path[i], path[start.value])
  {
    var deps := pluginMap[path[i]].dependencies;
    for d := 0 to |deps|
      invariant forall e :: 0 <= e < d ==> deps[e] !in path[..i + 1]
      invariant Closing(path, i, deps, 0) == Closing(path, i, deps, d)
    {
      start := IndexOf(path, deps[d]);
      if start.Some? && start.value <= i {
        assert path[..i + 1][start.value] == deps[d] && path[start.value] in path;
        assert MapDependsOn(pluginMap, path[i], deps[d]);
        return;
      }
    }
    start := None;
  }

  lemma ReportFrom(plugins: seq<Plugin>, path: seq<string>, start: nat, i: nat)
    requires start <= i < |path|
    requires forall j, k :: 0 <= j < k < |path| && k == j + 1 ==> MapDependsOn(PluginMap(plugins), path[j], path[k])
    requires MapDependsOn(PluginMap(plugins), path[i], path[start])
    ensures CycleReport(plugins, path[start..])
  {
    var report := path[start..];
    forall j, k | 0 <= j < k < |report| && k == j + 1 ensures DependsOn(plugins, report[j], report[k]) {
      assert MapDependsOn(PluginMap(plugins), path[start + j], path[start + k]);
      MapDependencies(plugins, report[j], report[k]);
    }
    MapDependencies(plugins, path[i], path[start]);
    var closing := report[..i - start + 1];
    assert closing[0] == path[start] && closing[i - start] == path[i];
    assert Cycle(plugins, closing);
  }

  datatype Visit = Unvisited | Visiting | Visited

  /** The nodes on the path are the ones being visited; the finished ones have all
      their dependencies finished before them. */
  ghost predicate Exploring(pluginMap: map<string, Plugin>, state: map<string, Visit>,
                            path: seq<string>, finished: seq<string>) {
    && state.Keys == pluginMap.Keys
    && Unrepeated(path)
    && (forall n :: n in path <==> n in state && state[n] == Visiting)
    && (forall i, j :: 0 <= i < j < |path| && j == i + 1 ==> MapDependsOn(pluginMap, path[i], path[j]))
    && (forall n :: n in finished <==> n in state && state[n] == Visited)
    && (forall i, b :: 0 <= i < |finished| && MapDependsOn(pluginMap, finished[i], b) ==> b in finished[..i])
  }

  function Pending(state: map<string, Visit>): set<string> {
    set n | n in state && state[n] == Unvisited
  }

  lemma Enter(pluginMap: map<string, Plugin>, state: map<string, Visit>, path: seq<string>,
              finished: seq<string>, node: string)
    requires Exploring(pluginMap, state, path, finished) && node in Pending(state)
    requires path != [] ==> MapDependsOn(pluginMap, path[|path| - 1], node)
    ensures Exploring(pluginMap, state[node := Visiting], path + [node], finished)
    ensures Pending(state[node := Visiting]) == Pending(state) - {node}
  {
  }

  lemma Leave(pluginMap: map<string, Plugin>, state: map<string, Visit>, path: seq<string>,
              finished: seq<string>, node: string)
    requires Exploring(pluginMap, state, path + [node], finished)
    requires forall b :: MapDependsOn(pluginMap, node, b) ==> b in finished
    ensures Exploring(pluginMap, state[node := Visited], path, finished + [node])
    ensures Pending(state[node := Visited]) == Pending(state)
  {
    assert node in path + [node];
    assert forall i :: 0 <= i < |path| ==> (path + [node])[i] == path[i];
    assert node !in path by {
      assert (path + [node])[|path|] == node;
    }
    var longer := finished + [node];
    forall i, b | 0 <= i < |longer| && MapDependsOn(pluginMap, longer[i], b) ensures b in longer[..i] {
      assert longer[..i] == finished[..i];
      assert finished[..|finished|] == finished;
    }
  }

  /** What a search has come to: the state of each node, the path, and whether it has closed. */
  datatype Search = Search(state: map<string, Visit>, path: seq<string>, found: bool)

  /** The search from an unvisited node, at the end of a path. */
  function Searched(pluginMap: map<string, Plugin>, state: map<string, Visit>, path: seq<string>, node: string)
    : (r: Search)
    requires state.Keys == pluginMap.Keys && node in Pending(state)
    ensures r.state.Keys == state.Keys && Pending(r.state) <= Pending(state) - {node}
    ensures !r.found ==> r.path == path
    decreases Pending(state), 0
  {
    assert (path + [node])[..|path|] == path;
    assert node !in Pending(state[node := Visiting]);
    assert Pending(state[node := Visiting]) < Pending(state);
    SearchedFrom(pluginMap, state[node := Visiting], path + [node], node, 0)
  }

  /** The rest of the search from the node at the path's end, from its k-th dependency on. */
  function SearchedFrom(
    pluginMap: map<string, Plugin>, state: map<string, Visit>, path: seq<string>, node: string, k: nat)
    : (r: Search)
    requires state.Keys == pluginMap.Keys && node in pluginMap && node !in Pending(state) && path != []
    requires k <= |pluginMap[node].dependencies|
    ensures r.state.Keys == state.Keys && Pending(r.state) <= Pending(state)
    ensures !r.found ==> r.path == path[..|path| - 1]
    decreases Pending(state), |pluginMap[node].dependencies| - k + 1
  {
    var deps := pluginMap[node].dependencies;
    if k == |deps| then Search(state[node := Visited], path[..|path| - 1], false)
    else if deps[k] !in pluginMap || state[deps[k]] == Visited then SearchedFrom(pluginMap, state, path, node, k + 1)
    else if state[deps[k]] == Visiting then Search(state, path, true)
    else
      var inner := Searched(pluginMap, state, path, deps[k]);
      if inner.found then inner else SearchedFrom(pluginMap, inner.state, path, node, k + 1)
  }

  /** What a search from the node leaves: the states and the path in order, and either a
      path that closes or the node finished. */
  ghost predicate Explored(pluginMap: map<string, Plugin>, path: seq<string>, finished: seq<string>, node: string,
                           r: Search, finished': seq<string>) {
    && Exploring(pluginMap, r.state, r.path, finished')
    && (forall n :: n in finished ==> n in finished')
    && if r.found then ClosedPath(pluginMap, r.path) else r.path == path && node in finished'
  }

  /** The search stops only at a dependency back into its path; otherwise it has finished
      the node and everything it depends on. */
  lemma {:induction false} SearchExplores(pluginMap: map<string, Plugin>, state: map<string, Visit>,
                                          path: seq<string>, finished: seq<string>, node: string)
    returns (finished': seq<string>)
    requires Exploring(pluginMap, state, path, finished) && node in Pending(state)
    requires path != [] ==> MapDependsOn(pluginMap, path[|path| - 1], node)
    ensures Explored(pluginMap, path, finished, node, Searched(pluginMap, state, path, node), finished')
    decreases Pending(state), 0
  {
    Enter(pluginMap, state, path, finished, node);
    assert Pending(state[node := Visiting]) < Pending(state);
    finished' := SearchGoesOn(pluginMap, state[node := Visiting], path, finished, node, 0);
  }

  /** The search is at the node, the first k of whose dependencies it has finished. */
  ghost predicate Following(pluginMap: map<string, Plugin>, state: map<string, Visit>,
                            path: seq<string>, finished: seq<string>, node: string, k: nat) {
    && Exploring(pluginMap, state, path + [node], finished)
    && node in pluginMap && node !in Pending(state)
    && k <= |pluginMap[node].dependencies|
    && forall j :: 0 <= j < k && pluginMap[node].dependencies[j] in pluginMap ==>
         pluginMap[node].dependencies[j] in finished
  }

  lemma {:induction false} SearchGoesOn(pluginMap: map<string, Plugin>, state: map<string, Visit>,
                                        path: seq<string>, finished: seq<string>, node: string, k: nat)
    returns (finished': seq<string>)
    requires Following(pluginMap, state, path, finished, node, k)
    ensures Explored(pluginMap, path, finished, node,
                     SearchedFrom(pluginMap, state, path + [node], node, k), finished')
    decreases Pending(state), |pluginMap[node].dependencies| - k + 1
  {
    var deps := pluginMap[node].dependencies;
    if k == |deps| {
      SearchLeaves(pluginMap, state, path, finished, node);
      finished' := finished + [node];
    } else if deps[k] !in pluginMap || state[deps[k]] == Visited {
      finished' := SearchGoesOn(pluginMap, state, path, finished, node, k + 1);
    } else if state[deps[k]] == Visiting {
      ClosesHere(pluginMap, state, path + [node], finished, deps[k]);
      finished' := finished;
    } else {
      finished' := SearchDescends(pluginMap, state, path, finished, node, k);
    }
  }

  lemma {:induction false} SearchDescends(pluginMap: map<string, Plugin>, state: map<string, Visit>,
                                          path: seq<string>, finished: seq<string>, node: string, k: nat)
    returns (finished': seq<string>)
    requires Following(pluginMap, state, path, finished, node, k)
    requires k < |pluginMap[node].dependencies| && pluginMap[node].dependencies[k] in Pending(state)
    ensures Explored(pluginMap, path, finished, node,
                     SearchedFrom(pluginMap, state, path + [node], node, k), finished')
    decreases Pending(state), |pluginMap[node].dependencies| - k
  {
    var dep := pluginMap[node].dependencies[k];
    finished' := SearchExplores(pluginMap, state, path + [node], finished, dep);
    var inner := Searched(pluginMap, state, path + [node], dep);
    if !inner.found {
      assert dep in finished' && dep !in Pending(inner.state);
      finished' := SearchGoesOn(pluginMap, inner.state, path, finished', node, k + 1);
    }
  }

  lemma SearchLeaves(pluginMap: map<string, Plugin>, state: map<string, Visit>, path: seq<string>,
                     finished: seq<string>, node: string)
    requires node in pluginMap
    requires Following(pluginMap, state, path, finished, node, |pluginMap[node].dependencies|)
    ensures var deps := pluginMap[node].dependencies;
            Explored(pluginMap, path, finished, node,
                     SearchedFrom(pluginMap, state, path + [node], node, |deps|), finished + [node])
  {
    Leave(pluginMap, state, path, finished, node);
    assert (path + [node])[..|path|] == path;
  }

  lemma ClosesHere(pluginMap: map<string, Plugin>, state: map<string, Visit>, path: seq<string>,
                   finished: seq<string>, dep: string)
    requires Exploring(pluginMap, state, path, finished) && path != []
    requires MapDependsOn(pluginMap, path[|path| - 1], dep) && state[dep] == Visiting
    ensures ClosedPath(pluginMap, path)
  {
    assert dep in path;
  }

  /** The depth-first search: the state of each node, and the path being explored. */
  class CycleFinder {
    const pluginMap: map<string, Plugin>
    var state: map<string, Visit>
    var path: seq<string>

    constructor (pluginMap: map<string, Plugin>)
      ensures this.pluginMap == pluginMap && path == []
      ensures state == map n | n in pluginMap :: Unvisited
    {
      this.pluginMap := pluginMap;
      state := map n | n in pluginMap :: Unvisited;
      path := [];
    }

    method Dfs(node: string) returns (found: bool)
      requires state.Keys == pluginMap.Keys && node in Pending(state)
      modifies this
      ensures Search(state, path, found) == Searched(pluginMap, old(state), old(path), node)
      decreases Pending(state), 0
    {
      ghost var all := Searched(pluginMap, state, path, node);
      assert Pending(state[node := Visiting]) < Pending(state);
      state := state[node := Visiting];
      path := path + [node];
      found := FollowDependencies(node, all);
      if !found {
        state := state[node := Visited];
        path := path[..|path| - 1];
      }
    }

    /** The search is to follow the node's dependencies from the i-th on, to come to `all`. */
    ghost predicate IsToFollow(node: string, i: nat, all: Search)
      reads this
    {
      && state.Keys == pluginMap.Keys && node in pluginMap && node !in Pending(state) && path != []
      && i <= |pluginMap[node].dependencies|
      && all == SearchedFrom(pluginMap, state, path, node, i)
    }

    method FollowDependencies(node: string, ghost all: Search) returns (found: bool)
      requires IsToFollow(node, 0, all)
      modifies this
      ensures if found then all == Search(state, path, true)
              else node in pluginMap && IsToFollow(node, |pluginMap[node].dependencies|, all)
      decreases Pending(state), 2
    {
      var n := |pluginMap[node].dependencies|;
      for i := 0 to n
        invariant IsToFollow(node, i, all) && Pending(state) <= old(Pending(state))
      {
        found := Follow(node, i, all);
        if found { return; }
      }
      found := false;
    }

    method Follow(node: string, i: nat, ghost all: Search) returns (found: bool)
      requires IsToFollow(node, i, all) && i < |pluginMap[node].dependencies|
      modifies this
      ensures !found ==> Pending(state) <= old(Pending(state))
      ensures if found then all == Search(state, path, true) else IsToFollow(node, i + 1, all)
      decreases Pending(state), 1
    {
      var dep := pluginMap[node].dependencies[i];
      found := false;
      if dep in pluginMap && state[dep] != Visited {
        if state[dep] == Visiting {
          return true;
        }
        found := Dfs(dep);
      }
    }
  }

  /** The path on which the searches from the i-th plugin on first close. */
  function ClosedFrom(plugins: seq<Plugin>, state: map<string, Visit>, i: nat): Option<seq<string>>
    requires state.Keys == PluginMap(plugins).Keys && i <= |plugins|
    decreases |plugins| - i
  {
    if i == |plugins| then None
    else if state[plugins[i].name] != Unvisited then ClosedFrom(plugins, state, i + 1)
    else
      var r := Searched(PluginMap(plugins), state, [], plugins[i].name);
      if r.found then Some(r.path) else ClosedFrom(plugins, r.state, i + 1)
  }

  function NoneVisited(plugins: seq<Plugin>): map<string, Visit> {
    map n | n in PluginMap(plugins) :: Unvisited
  }

  /** The report for these plugins, in the order they and their dependencies are given. */
  function Reported(plugins: seq<Plugin>): seq<string> {
    match ClosedFrom(plugins, NoneVisited(plugins), 0)
    case None => []
    case Some(path) =>
      if forall n :: n in path ==> n in PluginMap(plugins) then Extracted(PluginMap(plugins), path, 0) else []
  }

  /**
   Searches from every unvisited plugin. It reports a cycle whenever there is
   one (for distinct names), and never reports anything else.
  */
  method FindCycle(plugins: seq<Plugin>, pluginMap: map<string, Plugin>) returns (report: seq<string>)
    requires pluginMap == PluginMap(plugins)
    ensures report == Reported(plugins)
    ensures report != [] ==> CycleReport(plugins, report)
    ensures report == [] && DistinctNames(plugins) ==> Acyclic(plugins)
  {
    var path := FindClosedPath(plugins, pluginMap);
    if path.Some? {
      report := ExtractCycle(plugins, pluginMap, path.value);
    } else {
      report := [];
    }
  }

  method FindClosedPath(plugins: seq<Plugin>, pluginMap: map<string, Plugin>) returns (path: Option<seq<string>>)
    requires pluginMap == PluginMap(plugins)
    ensures path == ClosedFrom(plugins, NoneVisited(plugins), 0)
    ensures path.Some? ==> ClosedPath(pluginMap, path.value)
    ensures path.None? && DistinctNames(plugins) ==> Acyclic(plugins)
  {
    var finder := new CycleFinder(pluginMap);
    ghost var finished := [];
    for i := 0 to |plugins|
      invariant finder.pluginMap == pluginMap && finder.path == []
      invariant Exploring(pluginMap, finder.state, [], finished)
      invariant forall j :: 0 <= j < i ==> plugins[j].name in finished
      invariant ClosedFrom(plugins, NoneVisited(plugins), 0) == ClosedFrom(plugins, finder.state, i)
    {
      // the path is empty again after every search that found nothing
      finished := OneMoreFinished(plugins, finder.state, i, finished);
      if finder.state[plugins[i].name] == Unvisited {
        var found := finder.Dfs(plugins[i].name);
        if found {
          return Some(finder.path);
        }
      }
    }
    path := None;
    AllFinished(plugins, finder.state, finished);
  }

  /** Unless it closes, the search from the i-th plugin finishes that one too. */
  lemma OneMoreFinished(plugins: seq<Plugin>, state: map<string, Visit>, i: nat, finished: seq<string>)
    returns (finished': seq<string>)
    requires i < |plugins| && Exploring(PluginMap(plugins), state, [], finished)
    requires forall j :: 0 <= j < i ==> plugins[j].name in finished
    ensures
      var node := plugins[i].name;
      var r := if state[node] == Unvisited then Searched(PluginMap(plugins), state, [], node)
               else Search(state, [], false);
      if r.found then ClosedPath(PluginMap(plugins), r.path) && Unrepeated(r.path)
      else
        && r.path == [] && Exploring(PluginMap(plugins), r.state, [], finished')
        && forall j :: 0 <= j < i + 1 ==> plugins[j].name in finished'
  {
    var node := plugins[i].name;
    if state[node] == Unvisited {
      finished' := SearchExplores(PluginMap(plugins), state, [], finished, node);
    } else {
      finished' := finished;
      assert state[node] == Visiting ==> node in [];
    }
  }

  /** When the search has left every node, nothing is on a cycle. */
  lemma AllFinished(plugins: seq<Plugin>, state: map<string, Visit>, finished: seq<string>)
    requires Exploring(PluginMap(plugins), state, [], finished)
    requires forall j :: 0 <= j < |plugins| ==> plugins[j].name in finished
    ensures DistinctNames(plugins) ==> Acyclic(plugins)
  {
    if DistinctNames(plugins) {
      forall i, b | 0 <= i < |finished| && DependsOn(plugins, finished[i], b) ensures b in finished[..i] {
        MapDependencies(plugins, finished[i], b);
      }
      OrderedIsAcyclic(plugins, finished);
    }
  }

  // ---- Resolve ----

  /** The order of an Ok result: the plugins themselves, dependencies first. */
  ghost predicate LoadOrder(plugins: seq<Plugin>, ordered: seq<Plugin>) {
    && multiset(ordered) == multiset(plugins)
    && DependenciesFirst(plugins, NamesOf(ordered))
  }

  /**
   Ok exactly when the names are distinct, no cycle exists and, in strict mode,
   nothing is missing; then the plugins in a load order. Otherwise the first
   missing dependency, or a cycle report (an empty one only for names given
   twice).
  */
  method Resolve(plugins: seq<Plugin>, strict: bool) returns (r: Result<seq<Plugin>, DependencyError>)
    ensures r.Ok? <==> DistinctNames(plugins) && Acyclic(plugins) && (strict ==> NothingMissing(plugins))
    ensures r.Ok? ==> LoadOrder(plugins, r.value)
    ensures r.Err? && r.error.MissingDependency? ==>
              && strict && r.error.dependency !in Names(plugins)
              && exists p :: p in plugins && p.name == r.error.plugin && r.error.dependency in p.dependencies
    ensures r.Err? && r.error.CircularDependency? ==>
              && (strict ==> NothingMissing(plugins))
              && r.error.involved == Reported(plugins)
              && (if r.error.involved == [] then !DistinctNames(plugins) else CycleReport(plugins, r.error.involved))
  {
    if plugins == [] {
      NothingToOrder();
      return Ok([]);
    }
    var pluginMap := PluginMap(plugins);
    if strict {
      var missing := FirstMissing(plugins, pluginMap);
      if missing.Some? { return Err(missing.value); }
    }
    var ordered := Sort(plugins, pluginMap);
    if |ordered| != |plugins| {
      var report := FindCycle(plugins, pluginMap);
      Incomplete(plugins, ordered);
      return Err(CircularDependency(report));
    }
    Complete(plugins, ordered);
    return Ok(ordered);
  }

  method FirstMissing(plugins: seq<Plugin>, pluginMap: map<string, Plugin>) returns (r: Option<DependencyError>)
    requires pluginMap == PluginMap(plugins)
    ensures r.None? <==> NothingMissing(plugins)
    ensures r.Some? ==>
              && r.value.MissingDependency? && r.value.dependency !in Names(plugins)
              && exists p :: p in plugins && p.name == r.value.plugin && r.value.dependency in p.dependencies
  {
    for i := 0 to |plugins|
      invariant forall p, d :: p in plugins[..i] && d in p.dependencies ==> d in Names(plugins)
    {
      var p := plugins[i];
      for j := 0 to |p.dependencies|
        invariant forall k :: 0 <= k < j ==> p.dependencies[k] in Names(plugins)
      {
        if p.dependencies[j] !in pluginMap {
          assert p in plugins && p.dependencies[j] in p.dependencies;
          return Some(MissingDependency(p.name, p.dependencies[j]));
        }
      }
      assert plugins[..i + 1] == plugins[..i] + [p];
    }
    assert plugins[..|plugins|] == plugins;
    return None;
  }

  lemma NothingToOrder()
    ensures Acyclic([]) && LoadOrder([], [])
  {
    OrderedIsAcyclic([], []);
  }

  /** Plugins left over mean a name given twice, or a cycle. */
  lemma Incomplete(plugins: seq<Plugin>, ordered: seq<Plugin>)
    requires |ordered| != |plugins|
    requires var order := NamesOf(ordered);
             && Unrepeated(order)
             && (forall p :: p in ordered ==> p in plugins)
             && AllStuck(plugins, Names(plugins) - (set n | n in order))
    ensures !DistinctNames(plugins) || !Acyclic(plugins)
  {
    var order := NamesOf(ordered);
    var done := set n | n in order;
    if DistinctNames(plugins) {
      NameCount(plugins);
      DistinctCount(order);
      assert done <= Names(plugins) by { PlacedAreNames(plugins, ordered); }
      assert done != Names(plugins);
      assert done < Names(plugins);
      ProperSubset(done, Names(plugins));
      var a :| a in Names(plugins) && a !in done;
      StuckIsCyclic(plugins, Names(plugins) - done, [a]);
    }
  }

  lemma ProperSubset(a: set<string>, b: set<string>)
    requires a < b
    ensures exists x :: x in b && x !in a
  {
    assert !(b <= a);
  }

  lemma PlacedAreNames(plugins: seq<Plugin>, ordered: seq<Plugin>)
    requires forall p :: p in ordered ==> p in plugins
    ensures forall n :: n in NamesOf(ordered) ==> n in Names(plugins)
  {
    forall n | n in NamesOf(ordered) ensures n in Names(plugins) {
      var i :| 0 <= i < |ordered| && NamesOf(ordered)[i] == n;
      assert ordered[i] in plugins;
    }
  }

  lemma {:induction false} DistinctCount(names: seq<string>)
    requires Unrepeated(names)
    ensures |set n | n in names| == |names|
  {
    if names != [] {
      var front, last := names[..|names| - 1], names[|names| - 1];
      DistinctCount(front);
      assert (set n | n in names) == (set n | n in front) + {last};
    }
  }

  /** Everything placed: the names were distinct and the order is of all of them. */
  lemma Complete(plugins: seq<Plugin>, ordered: seq<Plugin>)
    requires |ordered| == |plugins|
    requires Unrepeated(NamesOf(ordered)) && DependenciesFirst(plugins, NamesOf(ordered))
    requires forall p :: p in ordered ==> p in plugins
    ensures DistinctNames(plugins) && Acyclic(plugins) && LoadOrder(plugins, ordered)
  {
    var order := NamesOf(ordered);
    NameCount(plugins);
    PlacedAreNames(plugins, ordered);
    DistinctFit(order, Names(plugins));
    DistinctCover(order, Names(plugins));
    OrderedIsAcyclic(plugins, order);
    SamePlugins(plugins, ordered);
  }

  /** The plugins without the i-th: one fewer of it, and all of other names still there. */
  lemma WithoutOne(plugins: seq<Plugin>, i: nat)
    requires DistinctNames(plugins) && i < |plugins|
    ensures var others := plugins[..i] + plugins[i + 1..];
      && DistinctNames(others) && |others| == |plugins| - 1
      && multiset(plugins) == multiset(others) + multiset{plugins[i]}
      && forall p :: p in plugins && p.name != plugins[i].name ==> p in others
  {
    var others := plugins[..i] + plugins[i + 1..];
    assert plugins == plugins[..i] + [plugins[i]] + plugins[i + 1..];
    forall p | p in plugins && p.name != plugins[i].name ensures p in others {
      var k :| 0 <= k < |plugins| && plugins[k] == p;
      assert others[if k < i then k else k - 1] == p;
    }
  }

  lemma {:induction false} SamePlugins(plugins: seq<Plugin>, ordered: seq<Plugin>)
    requires |ordered| == |plugins| && DistinctNames(plugins) && Unrepeated(NamesOf(ordered))
    requires forall p :: p in ordered ==> p in plugins
    ensures multiset(ordered) == multiset(plugins)
  {
    if ordered != [] {
      var front, last := ordered[..|ordered| - 1], ordered[|ordered| - 1];
      assert last in ordered && ordered == front + [last];
      var i :| 0 <= i < |plugins| && plugins[i] == last;
      WithoutOne(plugins, i);
      OthersHaveOtherNames(ordered);
      SamePlugins(plugins[..i] + plugins[i + 1..], front);
    }
  }

  lemma OthersHaveOtherNames(ordered: seq<Plugin>)
    requires ordered != [] && Unrepeated(NamesOf(ordered))
    ensures var front := ordered[..|ordered| - 1];
      && Unrepeated(NamesOf(front))
      && forall p :: p in front ==> p in ordered && p.name != ordered[|ordered| - 1].name
  {
    var front, names := ordered[..|ordered| - 1], NamesOf(ordered);
    forall p | p in front ensures p in ordered && p.name != ordered[|ordered| - 1].name {
      var j :| 0 <= j < |front| && front[j] == p;
      assert names[j] != names[|ordered| - 1];
    }
    assert NamesOf(front) == names[..|front|];
  }
}
