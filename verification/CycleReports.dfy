/**
 When the report of a dependency cycle is one: it runs to the end of the search path, and
 so may lead from one cycle into another.
*/
module CycleReports {
  import opened Wrappers
  import opened DependencyResolver

  /** A cycle that visits no plugin twice. */
  ghost predicate Elementary(plugins: seq<Plugin>, path: seq<string>) {
    Cycle(plugins, path) && Unrepeated(path)
  }

  /** Some plugin of p depends on one of q, directly or through others, or is one. */
  ghost predicate LeadsTo(plugins: seq<Plugin>, p: seq<string>, q: seq<string>) {
    exists w :: Walk(plugins, w) && w != [] && w[0] in p && w[|w| - 1] in q
  }

  /** An elementary cycle leads to none with other plugins. In particular this holds
      where there is only one. */
  ghost predicate CyclesApart(plugins: seq<Plugin>) {
    forall p, q :: Elementary(plugins, p) && Elementary(plugins, q) && LeadsTo(plugins, p, q) ==>
      forall x :: x in p <==> x in q
  }

  // ---- Where the report starts ----

  lemma {:induction false} ClosingMeets(path: seq<string>, i: nat, deps: seq<string>, d: nat, x: string)
    requires i < |path| && d <= |deps| && x in deps[d..] && x in path[..i + 1]
    ensures Closing(path, i, deps, d).Some?
    decreases |deps| - d
  {
    if deps[d] != x {
      assert deps[d..] == [deps[d]] + deps[d + 1..];
      ClosingMeets(path, i, deps, d + 1, x);
    } else {
      FirstIndex(path, x, i);
    }
  }

  lemma FirstIndex(path: seq<string>, x: string, i: nat)
    requires i < |path| && x in path[..i + 1]
    ensures IndexOf(path, x).Some? && IndexOf(path, x).value <= i
  {
    var k :| 0 <= k < i + 1 && path[..i + 1][k] == x;
    assert path[k] == x;
    assert x in path;
    var first := IndexOf(path, x).value;
    assert forall j :: 0 <= j < first ==> path[..first][j] == path[j];
  }

  lemma LastCloses(pluginMap: map<string, Plugin>, path: seq<string>)
    requires ClosedPath(pluginMap, path)
    ensures Closing(path, |path| - 1, pluginMap[path[|path| - 1]].dependencies, 0).Some?
  {
    var n := |path| - 1;
    var deps := pluginMap[path[n]].dependencies;
    var b :| b in path && MapDependsOn(pluginMap, path[n], b);
    assert deps[0..] == deps && path[..n + 1] == path;
    ClosingMeets(path, n, deps, 0, b);
  }

  /** The report starts at a dependency of a node no earlier. */
  lemma {:induction false} ExtractedFrom(pluginMap: map<string, Plugin>, path: seq<string>, i: nat)
    returns (start: nat, j: nat)
    requires ClosedPath(pluginMap, path) && i < |path|
    ensures start <= j < |path| && MapDependsOn(pluginMap, path[j], path[start])
    ensures Extracted(pluginMap, path, i) == path[start..]
    decreases |path| - i
  {
    LastCloses(pluginMap, path);
    var closing := Closing(path, i, pluginMap[path[i]].dependencies, 0);
    if closing.Some? {
      start, j := closing.value, i;
      assert path[start] in path;
    } else {
      start, j := ExtractedFrom(pluginMap, path, i + 1);
    }
  }

  lemma {:induction false} ClosedFromCloses(
    plugins: seq<Plugin>, state: map<string, Visit>, i: nat, finished: seq<string>)
    requires Exploring(PluginMap(plugins), state, [], finished) && i <= |plugins|
    requires forall j :: 0 <= j < i ==> plugins[j].name in finished
    ensures var path := ClosedFrom(plugins, state, i);
            path.Some? ==> ClosedPath(PluginMap(plugins), path.value) && Unrepeated(path.value)
    decreases |plugins| - i
  {
    if i < |plugins| {
      var finished' := OneMoreFinished(plugins, state, i, finished);
      var node := plugins[i].name;
      var r := if state[node] == Unvisited then Searched(PluginMap(plugins), state, [], node)
               else Search(state, [], false);
      if !r.found {
        ClosedFromCloses(plugins, r.state, i + 1, finished');
      }
    }
  }

  /** The search path the report is taken from. */
  lemma ReportedFrom(plugins: seq<Plugin>) returns (path: seq<string>, start: nat, j: nat)
    requires Reported(plugins) != []
    ensures ClosedPath(PluginMap(plugins), path) && Unrepeated(path)
    ensures start <= j < |path| && MapDependsOn(PluginMap(plugins), path[j], path[start])
    ensures Reported(plugins) == path[start..]
  {
    assert Exploring(PluginMap(plugins), NoneVisited(plugins), [], []);
    ClosedFromCloses(plugins, NoneVisited(plugins), 0, []);
    path := ClosedFrom(plugins, NoneVisited(plugins), 0).value;
    start, j := ExtractedFrom(PluginMap(plugins), path, 0);
  }

  // ---- Cycles apart ----

  lemma PathWalks(plugins: seq<Plugin>, path: seq<string>, k: nat)
    requires ClosedPath(PluginMap(plugins), path) && k < |path|
    ensures Walk(plugins, path[k..])
  {
    forall i, j | 0 <= i < j < |path[k..]| && j == i + 1 ensures DependsOn(plugins, path[k..][i], path[k..][j]) {
      assert MapDependsOn(PluginMap(plugins), path[k + i], path[k + j]);
      MapDependencies(plugins, path[k + i], path[k + j]);
    }
  }

  lemma Segment(plugins: seq<Plugin>, path: seq<string>, k: nat, l: nat)
    requires ClosedPath(PluginMap(plugins), path) && Unrepeated(path) && k <= l < |path|
    requires MapDependsOn(PluginMap(plugins), path[l], path[k])
    ensures Elementary(plugins, path[k..l + 1])
  {
    PathWalks(plugins, path, k);
    MapDependencies(plugins, path[l], path[k]);
    var cycle := path[k..l + 1];
    assert forall i :: 0 <= i < |cycle| ==> cycle[i] == path[k..][i];
  }

  lemma LeadsAlong(plugins: seq<Plugin>, path: seq<string>, k: nat, p: seq<string>, q: seq<string>)
    requires ClosedPath(PluginMap(plugins), path) && k < |path| && p != [] && q != []
    requires p[0] == path[k] && q[|q| - 1] == path[|path| - 1]
    ensures LeadsTo(plugins, p, q)
  {
    PathWalks(plugins, path, k);
    var w := path[k..];
    assert w[0] in p && w[|w| - 1] in q;
  }

  lemma Inside(path: seq<string>, k: nat, l: nat, i: nat)
    requires Unrepeated(path) && k <= l <= |path| && i < |path|
    ensures path[i] in path[k..l] <==> k <= i < l
  {
    if k <= i < l {
      assert path[k..l][i - k] == path[i];
    }
    if path[i] in path[k..l] {
      var m :| 0 <= m < l - k && path[k..l][m] == path[i];
      assert path[k + m] == path[i];
    }
  }

  /** A cycle on the path, and one at its end: the path leads from the one to the other,
      so they have the same plugins. */
  lemma SamePlugins(plugins: seq<Plugin>, path: seq<string>, k: nat, p: seq<string>, q: seq<string>)
    requires CyclesApart(plugins) && Elementary(plugins, p) && Elementary(plugins, q)
    requires ClosedPath(PluginMap(plugins), path) && k < |path|
    requires p[0] == path[k] && q[|q| - 1] == path[|path| - 1]
    ensures path[|path| - 1] in p
  {
    LeadsAlong(plugins, path, k, p, q);
    assert q[|q| - 1] in q;
  }

  lemma Ends(path: seq<string>, k: nat, l: nat)
    requires k <= l < |path|
    ensures path[k..l + 1][0] == path[k]
    ensures path[k..l + 1][|path[k..l + 1]| - 1] == path[l]
  {
  }

  /** A path that closes has an elementary cycle at its end. */
  lemma EndCycle(plugins: seq<Plugin>, path: seq<string>) returns (q: seq<string>)
    requires ClosedPath(PluginMap(plugins), path) && Unrepeated(path)
    ensures Elementary(plugins, q) && q[|q| - 1] == path[|path| - 1]
  {
    var n := |path| - 1;
    var l :| 0 <= l < |path| && MapDependsOn(PluginMap(plugins), path[n], path[l]);
    Segment(plugins, path, l, n);
    Ends(path, l, n);
    q := path[l..n + 1];
  }

  /** The node that closes the report is the last, where the path closes. */
  lemma LastIsClosing(plugins: seq<Plugin>, path: seq<string>, start: nat, j: nat)
    requires CyclesApart(plugins)
    requires ClosedPath(PluginMap(plugins), path) && Unrepeated(path)
    requires start <= j < |path| && MapDependsOn(PluginMap(plugins), path[j], path[start])
    ensures j == |path| - 1
  {
    var q := EndCycle(plugins, path);
    ClosesLast(plugins, path, start, j, path[start..j + 1], q);
  }

  lemma ClosesLast(plugins: seq<Plugin>, path: seq<string>, start: nat, j: nat, p: seq<string>, q: seq<string>)
    requires CyclesApart(plugins)
    requires ClosedPath(PluginMap(plugins), path) && Unrepeated(path)
    requires start <= j < |path| && p == path[start..j + 1] && MapDependsOn(PluginMap(plugins), path[j], path[start])
    requires Elementary(plugins, q) && q[|q| - 1] == path[|path| - 1]
    ensures j == |path| - 1
  {
    Segment(plugins, path, start, j);
    SamePlugins(plugins, path, start, p, q);
    Inside(path, start, j + 1, |path| - 1);
  }

  /** Where elementary cycles do not lead to one another, the whole report is one. */
  lemma ReportIsCycle(plugins: seq<Plugin>)
    requires CyclesApart(plugins) && Reported(plugins) != []
    ensures Elementary(plugins, Reported(plugins))
  {
    var path, start, j := ReportedFrom(plugins);
    LastIsClosing(plugins, path, start, j);
    assert path[start..] == path[start..j + 1];
    Segment(plugins, path, start, j);
  }

  // ---- Cycles that lead to one another ----

  /** Two cycles, of which the first leads to the second. */
  function TwoCycles(a: string, b: string, c: string, d: string): seq<Plugin> {
    [Plugin(a, [b]), Plugin(b, [c, a]), Plugin(c, [d]), Plugin(d, [c])]
  }

  ghost predicate AllDiffer(a: string, b: string, c: string, d: string) {
    a != b && a != c && a != d && b != c && b != d && c != d
  }

  /** Here the report is not a cycle: it starts with the first one and ends in the second. */
  lemma ReportNeedNotBeCycle(a: string, b: string, c: string, d: string)
    requires AllDiffer(a, b, c, d)
    ensures var plugins := TwoCycles(a, b, c, d);
      && Reported(plugins) == [a, b, c, d]
      && CycleReport(plugins, Reported(plugins)) && !Cycle(plugins, Reported(plugins))
  {
    var plugins := TwoCycles(a, b, c, d);
    IsMapped(plugins, a, b, c, d);
    ReportedIs(plugins, a, b, c, d);
    FirstClosesOnly(plugins, a, b, c, d);
  }

  /** The plugins by name, and what they depend on. */
  ghost predicate Mapped(pluginMap: map<string, Plugin>, a: string, b: string, c: string, d: string) {
    && AllDiffer(a, b, c, d)
    && a in pluginMap && b in pluginMap && c in pluginMap && d in pluginMap
    && pluginMap[a].dependencies == [b] && pluginMap[b].dependencies == [c, a]
    && pluginMap[c].dependencies == [d] && pluginMap[d].dependencies == [c]
  }

  lemma IsMapped(plugins: seq<Plugin>, a: string, b: string, c: string, d: string)
    requires AllDiffer(a, b, c, d) && plugins == TwoCycles(a, b, c, d)
    ensures Mapped(PluginMap(plugins), a, b, c, d)
  {
    MapHas(plugins, 0);
    MapHas(plugins, 1);
    MapHas(plugins, 2);
    MapHas(plugins, 3);
  }

  lemma MapHas(plugins: seq<Plugin>, i: nat)
    requires DistinctNames(plugins) && i < |plugins|
    ensures plugins[i].name in PluginMap(plugins) && PluginMap(plugins)[plugins[i].name] == plugins[i]
  {
    assert plugins[i] in plugins;
  }

  lemma Descends(pluginMap: map<string, Plugin>, state: map<string, Visit>, path: seq<string>, node: string,
                 dep: string, r: Search)
    requires state.Keys == pluginMap.Keys && node in pluginMap && node !in Pending(state) && path != []
    requires pluginMap[node].dependencies != [] && pluginMap[node].dependencies[0] == dep && dep in Pending(state)
    requires SearchedFrom(pluginMap, state[dep := Visiting], path + [dep], dep, 0) == r && r.found
    ensures SearchedFrom(pluginMap, state, path, node, 0) == r
  {
    assert Searched(pluginMap, state, path, dep) == r;
  }

  lemma PathIs(plugins: seq<Plugin>, a: string, b: string, c: string, d: string)
    requires Mapped(PluginMap(plugins), a, b, c, d) && plugins != [] && plugins[0].name == a
    ensures ClosedFrom(plugins, NoneVisited(plugins), 0) == Some([a, b, c, d])
  {
    SearchIs(PluginMap(plugins), NoneVisited(plugins), a, b, c, d);
    assert [] + [a] + [b] + [c] + [d] == [a, b, c, d];
  }

  lemma ReportedIs(plugins: seq<Plugin>, a: string, b: string, c: string, d: string)
    requires Mapped(PluginMap(plugins), a, b, c, d) && plugins != [] && plugins[0].name == a
    ensures Reported(plugins) == [a, b, c, d]
  {
    PathIs(plugins, a, b, c, d);
    ReportIs(PluginMap(plugins), a, b, c, d);
  }

  lemma SearchIs(pluginMap: map<string, Plugin>, s0: map<string, Visit>, a: string, b: string, c: string, d: string)
    requires Mapped(pluginMap, a, b, c, d)
    requires s0 == map n | n in pluginMap :: Unvisited
    ensures Searched(pluginMap, s0, [], a) ==
            Search(s0[a := Visiting][b := Visiting][c := Visiting][d := Visiting], [] + [a] + [b] + [c] + [d], true)
  {
    var s1 := s0[a := Visiting];
    var s2 := s1[b := Visiting];
    var s3 := s2[c := Visiting];
    var s4 := s3[d := Visiting];
    var r := Search(s4, [] + [a] + [b] + [c] + [d], true);
    assert SearchedFrom(pluginMap, s4, [] + [a] + [b] + [c] + [d], d, 0) == r;
    Descends(pluginMap, s3, [] + [a] + [b] + [c], c, d, r);
    Descends(pluginMap, s2, [] + [a] + [b], b, c, r);
    Descends(pluginMap, s1, [] + [a], a, b, r);
  }

  lemma ReportIs(pluginMap: map<string, Plugin>, a: string, b: string, c: string, d: string)
    requires Mapped(pluginMap, a, b, c, d)
    ensures Extracted(pluginMap, [a, b, c, d], 0) == [a, b, c, d]
  {
    var path := [a, b, c, d];
    assert IndexOf(path, a) == Some(0) && IndexOf(path, b) == Some(1) && IndexOf(path, c) == Some(2);
    assert Closing(path, 0, [b], 0) == None;
    assert Closing(path, 1, [c, a], 1) == Some(0);
    assert Closing(path, 1, [c, a], 0) == Some(0);
    assert path[0..] == path;
  }

  lemma FirstClosesOnly(plugins: seq<Plugin>, a: string, b: string, c: string, d: string)
    requires AllDiffer(a, b, c, d) && plugins == TwoCycles(a, b, c, d)
    ensures CycleReport(plugins, [a, b, c, d]) && !Cycle(plugins, [a, b, c, d])
  {
    assert plugins[0] in plugins && plugins[1] in plugins && plugins[2] in plugins && plugins[3] in plugins;
    assert DependsOn(plugins, a, b) && DependsOn(plugins, b, c) && DependsOn(plugins, c, d) && DependsOn(plugins, b, a);
    assert [a, b, c, d][..2] == [a, b];
    assert Cycle(plugins, [a, b, c, d][..2]);
    assert !DependsOn(plugins, d, a);
  }
}
