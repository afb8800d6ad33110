/**
 Which documents convert. A document is unfolded, aliases and merge sources included, into
 a tree of the nodes the conversion visits; it converts if and only if it has such a tree
 within the limits, and every node in it is sound.
*/
module YamlUnfolding {
  import opened Wrappers
  import opened Json
  import opened YamlConvert

  /** A visit of a node, with the visits it takes; a merge source is visited at its
      mapping's own level. */
  datatype Visit = Leaf | Container(parts: seq<Part>)

  datatype Part = Part(merged: bool, visit: Visit)

  /** A node to be visited. */
  datatype Target = Target(merged: bool, node: nat)

  /** The nodes a mapping has visited, in order: values, and the sources of merge keys. */
  function EntryTargets(x: Context, entries: seq<Entry>): seq<Target>
    requires forall i :: 0 <= i < |entries| ==> entries[i].value < |x.graph|
  {
    if entries == [] then []
    else
      var last := entries[|entries| - 1];
      EntryTargets(x, entries[..|entries| - 1]) +
      if !IsMergeKey(last.key) then [Target(false, last.value)]
      else if x.graph[last.value].Sequence? then AsTargets(x.graph[last.value].items, true)
      else [Target(true, last.value)]
  }

  function AsTargets(nodes: seq<nat>, merged: bool): (targets: seq<Target>)
    ensures |targets| == |nodes|
    ensures forall i :: 0 <= i < |nodes| ==> targets[i] == Target(merged, nodes[i])
  {
    seq(|nodes|, i requires 0 <= i < |nodes| => Target(merged, nodes[i]))
  }

  function Targets(x: Context, n: nat): seq<Target>
    requires IsDocument(x) && n < |x.graph|
  {
    match x.graph[n]
    case Sequence(items) => AsTargets(items, false)
    case Mapping(entries) => EntryTargets(x, entries)
    case _ => []
  }

  lemma {:induction false} TargetsAreNodes(x: Context, entries: seq<Entry>)
    requires IsDocument(x) && forall i :: 0 <= i < |entries| ==> entries[i].value < |x.graph|
    ensures forall t :: t in EntryTargets(x, entries) ==> t.node < |x.graph|
  {
    if entries != [] {
      TargetsAreNodes(x, entries[..|entries| - 1]);
    }
  }

  ghost predicate InGraph(x: Context, targets: seq<Target>) {
    forall i :: 0 <= i < |targets| ==> targets[i].node < |x.graph|
  }

  /** The tree of visits the node unfolds to. */
  ghost predicate Unfolds(x: Context, n: nat, v: Visit)
    requires IsDocument(x) && n < |x.graph|
    decreases v
  {
    match v
    case Leaf => !x.graph[n].Sequence? && !x.graph[n].Mapping?
    case Container(parts) =>
      && (x.graph[n].Sequence? || x.graph[n].Mapping?)
      && var targets := Targets(x, n);
         && |parts| == |targets|
         && forall i :: 0 <= i < |parts| ==> targets[i].node < |x.graph| && PartUnfolds(x, targets[i], parts[i])
  }

  ghost predicate PartUnfolds(x: Context, t: Target, p: Part)
    requires IsDocument(x) && t.node < |x.graph|
    decreases p
  {
    p.merged == t.merged && Unfolds(x, t.node, p.visit)
  }

  /** How many nodes are visited. */
  function Count(v: Visit): (n: nat)
    ensures n > 0
    decreases v
  {
    match v
    case Leaf => 1
    case Container(parts) => 1 + CountAll(parts)
  }

  function CountAll(parts: seq<Part>): nat
    decreases parts
  {
    if parts == [] then 0 else CountAll(parts[..|parts| - 1]) + CountPart(parts[|parts| - 1])
  }

  function CountPart(p: Part): (n: nat)
    ensures n > 0
    decreases p
  {
    Count(p.visit)
  }

  /** Containers nest at most this deep. */
  predicate Nests(v: Visit, depth: int)
    decreases v
  {
    match v
    case Leaf => true
    case Container(parts) => depth > 0 && forall i :: 0 <= i < |parts| ==> PartNests(parts[i], depth)
  }

  predicate PartNests(p: Part, depth: int)
    decreases p
  {
    Nests(p.visit, if p.merged then depth else depth - 1)
  }

  /** A scalar that resolves; a mapping whose keys are scalars, none of them set twice, and
      whose merge sources are mappings. */
  ghost predicate IsSound(x: Context, n: nat)
    requires IsDocument(x) && n < |x.graph|
  {
    match x.graph[n]
    case Scalar(tag, text) => x.scalar(tag, text).Ok?
    case Mapping(entries) =>
      && (forall i :: 0 <= i < |entries| ==> entries[i].key.ScalarKey?)
      && (forall i, j :: 0 <= i < j < |entries| && !IsMergeKey(entries[i].key) && !IsMergeKey(entries[j].key) ==>
            KeyText(entries[i].key) != KeyText(entries[j].key))
      && MergesMappings(x, EntryTargets(x, entries))
    case _ => true
  }

  /** Every merge source is a mapping. */
  ghost predicate MergesMappings(x: Context, targets: seq<Target>) {
    forall i :: 0 <= i < |targets| && targets[i].merged ==>
      targets[i].node < |x.graph| && x.graph[targets[i].node].Mapping?
  }

  function KeyText(key: Key): string {
    if key.ScalarKey? then key.text else ""
  }

  ghost predicate AllSound(x: Context, n: nat, v: Visit)
    requires IsDocument(x) && n < |x.graph|
    decreases v
  {
    && IsSound(x, n)
    && (v.Container? ==>
          forall i :: 0 <= i < |v.parts| && i < |Targets(x, n)| && Targets(x, n)[i].node < |x.graph| ==>
            PartSound(x, Targets(x, n)[i], v.parts[i]))
  }

  ghost predicate PartSound(x: Context, t: Target, p: Part)
    requires IsDocument(x) && t.node < |x.graph|
    decreases p
  {
    AllSound(x, t.node, p.visit)
  }

  /** The document has a finite unfolding within the limits, all of whose nodes are sound. */
  ghost predicate IsConvertible(x: Context, root: nat)
    requires IsDocument(x) && root < |x.graph|
  {
    exists v :: Unfolds(x, root, v) && Count(v) <= x.maxNodes && Nests(v, x.maxDepth) && AllSound(x, root, v)
  }

  // ---- A sound unfolding converts ----

  lemma CountAppend(parts: seq<Part>, p: Part)
    ensures CountAll(parts + [p]) == CountAll(parts) + CountPart(p)
  {
    assert (parts + [p])[..|parts|] == parts;
  }

  lemma {:induction false} CountPrefix(parts: seq<Part>, k: nat)
    requires k <= |parts|
    ensures CountAll(parts[..k]) <= CountAll(parts)
    ensures k < |parts| ==> CountAll(parts[..k]) + CountPart(parts[k]) == CountAll(parts[..k + 1]) <= CountAll(parts)
    decreases |parts| - k
  {
    if k == |parts| {
      assert parts[..k] == parts;
    } else {
      assert parts[..k + 1] == parts[..k] + [parts[k]];
      CountAppend(parts[..k], parts[k]);
      CountPrefix(parts, k + 1);
    }
  }

  /** The keys collected are the texts of those that are no merge keys. */
  lemma {:induction false} KeysCollect(entries: seq<Entry>)
    requires forall i :: 0 <= i < |entries| ==> entries[i].key.ScalarKey?
    requires forall i, j :: 0 <= i < j < |entries| && !IsMergeKey(entries[i].key) && !IsMergeKey(entries[j].key) ==>
               KeyText(entries[i].key) != KeyText(entries[j].key)
    ensures OwnKeys(entries).Ok?
    ensures forall t :: t in OwnKeys(entries).value <==>
              exists i :: 0 <= i < |entries| && !IsMergeKey(entries[i].key) && KeyText(entries[i].key) == t
  {
    if entries != [] {
      var front := entries[..|entries| - 1];
      KeysCollect(front);
      assert forall i :: 0 <= i < |front| ==> front[i] == entries[i];
    }
  }

  lemma {:induction false} KeysAreSound(entries: seq<Entry>)
    requires OwnKeys(entries).Ok?
    ensures forall i :: 0 <= i < |entries| ==> entries[i].key.ScalarKey?
    ensures forall i, j :: 0 <= i < j < |entries| && !IsMergeKey(entries[i].key) && !IsMergeKey(entries[j].key) ==>
              KeyText(entries[i].key) != KeyText(entries[j].key)
    ensures forall t :: t in OwnKeys(entries).value <==>
              exists i :: 0 <= i < |entries| && !IsMergeKey(entries[i].key) && KeyText(entries[i].key) == t
  {
    if entries != [] {
      var front := entries[..|entries| - 1];
      KeysAreSound(front);
      assert forall i :: 0 <= i < |front| ==> front[i] == entries[i];
    }
  }

  /** Each part unfolds its target, soundly and no deeper than its container may nest. */
  ghost predicate PartFits(x: Context, t: Target, p: Part, depth: int)
    requires IsDocument(x)
  {
    t.node < |x.graph| && PartUnfolds(x, t, p) && PartSound(x, t, p) && PartNests(p, depth)
  }

  ghost predicate PartsFit(x: Context, targets: seq<Target>, parts: seq<Part>, depth: int)
    requires IsDocument(x)
  {
    |parts| == |targets| && forall i :: 0 <= i < |parts| ==> PartFits(x, targets[i], parts[i], depth)
  }

  /** What a container's tree says of its parts. */
  lemma ContainerFits(x: Context, n: nat, v: Visit, depth: int)
    requires IsDocument(x) && n < |x.graph| && v.Container? && (x.graph[n].Sequence? || x.graph[n].Mapping?)
    ensures Unfolds(x, n, v) && Nests(v, depth) && AllSound(x, n, v) <==>
            depth > 0 && IsSound(x, n) && PartsFit(x, Targets(x, n), v.parts, depth)
  {
    var targets := Targets(x, n);
    if Unfolds(x, n, v) && Nests(v, depth) && AllSound(x, n, v) {
      forall i | 0 <= i < |v.parts| ensures PartFits(x, targets[i], v.parts[i], depth) {
        assert PartUnfolds(x, targets[i], v.parts[i]) && PartSound(x, targets[i], v.parts[i]);
        assert PartNests(v.parts[i], depth);
      }
    }
    if depth > 0 && IsSound(x, n) && PartsFit(x, targets, v.parts, depth) {
      forall i | 0 <= i < |v.parts|
        ensures targets[i].node < |x.graph| && PartUnfolds(x, targets[i], v.parts[i])
        ensures PartSound(x, targets[i], v.parts[i]) && PartNests(v.parts[i], depth)
      {
        assert PartFits(x, targets[i], v.parts[i], depth);
      }
    }
  }

  lemma {:induction false} NodeConverts(x: Context, n: nat, v: Visit, depth: nat, nodes: nat)
    requires IsDocument(x) && n < |x.graph| && nodes + Count(v) <= x.maxNodes
    requires Unfolds(x, n, v) && Nests(v, x.maxDepth - depth) && AllSound(x, n, v)
    ensures ConvertNode(x, n, depth, nodes).Ok?
    ensures ConvertNode(x, n, depth, nodes).value.nodes == nodes + Count(v)
    decreases v, 0
  {
    if v.Container? {
      ContainerFits(x, n, v, x.maxDepth - depth);
      match x.graph[n]
      case Sequence(items) =>
        ItemsConvert(x, items, v.parts, |items|, depth + 1, nodes + 1);
        assert items[..|items|] == items && v.parts[..|items|] == v.parts;
      case Mapping(entries) =>
        KeysCollect(entries);
        EntriesConvert(x, OwnKeys(entries).value, entries, v.parts, |entries|, depth + 1, nodes + 1);
        assert entries[..|entries|] == entries && v.parts[..|v.parts|] == v.parts;
    }
  }

  /** A part converts, at the depth of its container's members. */
  lemma {:induction false} PartConverts(x: Context, t: Target, p: Part, depth: nat, nodes: nat)
    requires IsDocument(x) && depth > 0 && nodes + CountPart(p) <= x.maxNodes
    requires PartFits(x, t, p, x.maxDepth - depth + 1)
    ensures var c := ConvertNode(x, t.node, if t.merged then depth - 1 else depth, nodes);
            c.Ok? && c.value.nodes == nodes + CountPart(p)
    decreases p, 0
  {
    NodeConverts(x, t.node, p.visit, if t.merged then depth - 1 else depth, nodes);
  }

  predicate CountsTo(c: Result<Converted, YamlError>, nodes: nat) {
    c.Ok? && c.value.nodes == nodes
  }

  /** What one more item makes of the items before it. */
  lemma OneMoreItem(x: Context, items: seq<nat>, k: nat, depth: nat, nodes: nat)
    requires IsDocument(x) && nodes <= x.maxNodes && k < |items|
    requires forall i :: 0 <= i < |items| ==> items[i] < |x.graph|
    requires ConvertItems(x, items[..k], depth, nodes).Ok?
    ensures
      var v := ConvertNode(x, items[k], depth, ConvertItems(x, items[..k], depth, nodes).value.nodes);
      var c := ConvertItems(x, items[..k + 1], depth, nodes);
      (c.Ok? <==> v.Ok?) && (v.Ok? ==> c.value.nodes == v.value.nodes)
  {
    assert items[..k + 1][..k] == items[..k];
  }

  lemma {:induction false} ItemsConvert(
    x: Context, items: seq<nat>, parts: seq<Part>, k: nat, depth: nat, nodes: nat)
    requires IsDocument(x) && nodes + CountAll(parts) <= x.maxNodes && k <= |items|
    requires forall i :: 0 <= i < |items| ==> items[i] < |x.graph|
    requires depth > 0 && PartsFit(x, AsTargets(items, false), parts, x.maxDepth - depth + 1)
    ensures CountsTo(ConvertItems(x, items[..k], depth, nodes), nodes + CountAll(parts[..k]))
    decreases parts, k + 2
  {
    if k > 0 {
      ItemsConvert(x, items, parts, k - 1, depth, nodes);
      ItemConverts(x, items, parts, k - 1, depth, nodes);
    } else {
      assert items[..0] == [] && parts[..0] == [];
    }
  }

  lemma {:induction false} ItemConverts(
    x: Context, items: seq<nat>, parts: seq<Part>, k: nat, depth: nat, nodes: nat)
    requires IsDocument(x) && nodes + CountAll(parts) <= x.maxNodes && k < |items|
    requires forall i :: 0 <= i < |items| ==> items[i] < |x.graph|
    requires depth > 0 && PartsFit(x, AsTargets(items, false), parts, x.maxDepth - depth + 1)
    requires CountsTo(ConvertItems(x, items[..k], depth, nodes), nodes + CountAll(parts[..k]))
    ensures CountsTo(ConvertItems(x, items[..k + 1], depth, nodes), nodes + CountAll(parts[..k + 1]))
    decreases parts, 1
  {
    OneMoreItem(x, items, k, depth, nodes);
    ValueConverts(x, AsTargets(items, false), parts, k, depth, nodes);
  }

  lemma {:induction false} TargetsPrefix(x: Context, entries: seq<Entry>, e: nat)
    requires e <= |entries| && forall i :: 0 <= i < |entries| ==> entries[i].value < |x.graph|
    ensures EntryTargets(x, entries[..e]) <= EntryTargets(x, entries)
  {
    if e == |entries| {
      assert entries[..e] == entries;
    } else {
      assert entries[..|entries| - 1][..e] == entries[..e];
      TargetsPrefix(x, entries[..|entries| - 1], e);
    }
  }

  lemma TargetsOfEntry(x: Context, entries: seq<Entry>, e: nat)
    requires IsDocument(x) && e < |entries| && forall i :: 0 <= i < |entries| ==> entries[i].value < |x.graph|
    ensures EntryTargets(x, entries[..e + 1]) ==
            EntryTargets(x, entries[..e]) +
            if IsMergeKey(entries[e].key) then AsTargets(SourcesOf(x, entries[e].value), true)
            else [Target(false, entries[e].value)]
  {
    assert entries[..e + 1][..e] == entries[..e];
  }

  lemma {:induction false} EntriesConvert(
    x: Context, own: set<string>, entries: seq<Entry>, parts: seq<Part>, e: nat, depth: nat, nodes: nat)
    requires IsDocument(x) && nodes + CountAll(parts) <= x.maxNodes && e <= |entries| && depth > 0
    requires forall i :: 0 <= i < |entries| ==> entries[i].value < |x.graph| && entries[i].key.ScalarKey?
    requires MergesMappings(x, EntryTargets(x, entries))
    requires PartsFit(x, EntryTargets(x, entries), parts, x.maxDepth - depth + 1)
    ensures |EntryTargets(x, entries[..e])| <= |parts|
    ensures ConvertEntries(x, own, entries[..e], depth, nodes).Ok?
    ensures ConvertEntries(x, own, entries[..e], depth, nodes).value.nodes ==
            nodes + CountAll(parts[..|EntryTargets(x, entries[..e])|])
    decreases parts, |parts| + 2, e
  {
    TargetsPrefix(x, entries, e);
    if e > 0 {
      EntriesConvert(x, own, entries, parts, e - 1, depth, nodes);
      EntryConverts(x, own, entries, parts, e - 1, depth, nodes);
    }
  }

  /** What one more entry makes of the entries before it. */
  lemma OneMoreEntry(x: Context, own: set<string>, entries: seq<Entry>, e: nat, depth: nat, nodes: nat)
    requires IsDocument(x) && nodes <= x.maxNodes && e < |entries| && depth > 0
    requires forall i :: 0 <= i < |entries| ==> entries[i].value < |x.graph|
    requires entries[e].key.ScalarKey? && ConvertEntries(x, own, entries[..e], depth, nodes).Ok?
    ensures
      var p, last := ConvertEntries(x, own, entries[..e], depth, nodes).value, entries[e];
      var c := ConvertEntries(x, own, entries[..e + 1], depth, nodes);
      if IsMergeKey(last.key) then c == MergeSources(x, own, SourcesOf(x, last.value), p, depth)
      else
        var v := ConvertNode(x, last.value, depth, p.nodes);
        (c.Ok? <==> v.Ok?) && (v.Ok? ==> c.value.nodes == v.value.nodes)
  {
    assert entries[..e + 1][..e] == entries[..e];
  }

  /** The parts for the entries up to the e-th, and those for that one. */
  lemma EntryParts(x: Context, entries: seq<Entry>, parts: seq<Part>, e: nat, depth: int)
    requires IsDocument(x) && e < |entries| && forall i :: 0 <= i < |entries| ==> entries[i].value < |x.graph|
    requires PartsFit(x, EntryTargets(x, entries), parts, depth)
    ensures |EntryTargets(x, entries[..e + 1])| <= |parts|
    ensures AreTargetsOf(x, entries[e], EntryTargets(x, entries), |EntryTargets(x, entries[..e])|,
                         |EntryTargets(x, entries[..e + 1])|)
  {
    var all, front, more := EntryTargets(x, entries), EntryTargets(x, entries[..e]), EntryTargets(x, entries[..e + 1]);
    TargetsPrefix(x, entries, e + 1);
    TargetsOfEntry(x, entries, e);
    assert forall i :: 0 <= i < |more| ==> all[i] == more[i];
  }

  /** The targets of an entry are those from one place to another. */
  ghost predicate AreTargetsOf(x: Context, entry: Entry, all: seq<Target>, done: nat, now: nat)
    requires entry.value < |x.graph|
  {
    && done <= now <= |all|
    && if IsMergeKey(entry.key) then
         && now == done + |SourcesOf(x, entry.value)|
         && AreSources(all, done, SourcesOf(x, entry.value))
       else now == done + 1 && all[done] == Target(false, entry.value)
  }

  ghost predicate AreSources(all: seq<Target>, done: nat, sources: seq<nat>)
    requires done + |sources| <= |all|
  {
    forall i :: 0 <= i < |sources| ==> all[done + i] == Target(true, sources[i])
  }

  lemma {:induction false} EntryConverts(
    x: Context, own: set<string>, entries: seq<Entry>, parts: seq<Part>, e: nat, depth: nat, nodes: nat)
    requires IsDocument(x) && nodes + CountAll(parts) <= x.maxNodes && e < |entries| && depth > 0
    requires forall i :: 0 <= i < |entries| ==> entries[i].value < |x.graph| && entries[i].key.ScalarKey?
    requires MergesMappings(x, EntryTargets(x, entries))
    requires PartsFit(x, EntryTargets(x, entries), parts, x.maxDepth - depth + 1)
    requires |EntryTargets(x, entries[..e])| <= |parts|
    requires ConvertEntries(x, own, entries[..e], depth, nodes).Ok?
    requires ConvertEntries(x, own, entries[..e], depth, nodes).value.nodes ==
             nodes + CountAll(parts[..|EntryTargets(x, entries[..e])|])
    ensures |EntryTargets(x, entries[..e + 1])| <= |parts|
    ensures ConvertEntries(x, own, entries[..e + 1], depth, nodes).Ok?
    ensures ConvertEntries(x, own, entries[..e + 1], depth, nodes).value.nodes ==
            nodes + CountAll(parts[..|EntryTargets(x, entries[..e + 1])|])
    decreases parts, |parts| + 1, 1
  {
    var all, done := EntryTargets(x, entries), |EntryTargets(x, entries[..e])|;
    var p := ConvertEntries(x, own, entries[..e], depth, nodes).value;
    EntryParts(x, entries, parts, e, x.maxDepth - depth + 1);
    OneMoreEntry(x, own, entries, e, depth, nodes);
    CountPrefix(parts, done);
    LastConverts(x, own, entries[e], p, all, parts, done, |EntryTargets(x, entries[..e + 1])|, depth, nodes);
  }

  /** One entry, given the members before it and the parts for it. */
  lemma {:induction false} LastConverts(
    x: Context, own: set<string>, last: Entry, p: Partial, all: seq<Target>, parts: seq<Part>, done: nat, now: nat,
    depth: nat, nodes: nat)
    requires IsDocument(x) && nodes + CountAll(parts) <= x.maxNodes && depth > 0 && last.value < |x.graph|
    requires PartsFit(x, all, parts, x.maxDepth - depth + 1)
    requires MergesMappings(x, all)
    requires done <= now <= |parts| && p.nodes == nodes + CountAll(parts[..done]) <= x.maxNodes
    requires AreTargetsOf(x, last, all, done, now)
    ensures if IsMergeKey(last.key) then
              var c := MergeSources(x, own, SourcesOf(x, last.value), p, depth);
              c.Ok? && c.value.nodes == nodes + CountAll(parts[..now])
            else
              var v := ConvertNode(x, last.value, depth, p.nodes);
              v.Ok? && v.value.nodes == nodes + CountAll(parts[..now])
    decreases parts, |parts| + 1, 0
  {
    if IsMergeKey(last.key) {
      var sources := SourcesOf(x, last.value);
      SourcesConvert(x, own, sources, parts, all, done, |sources|, p, depth, nodes);
      assert sources[..|sources|] == sources;
    } else {
      ValueConverts(x, all, parts, done, depth, nodes);
    }
  }

  lemma {:induction false} ValueConverts(
    x: Context, all: seq<Target>, parts: seq<Part>, at: nat, depth: nat, nodes: nat)
    requires IsDocument(x) && nodes + CountAll(parts) <= x.maxNodes && depth > 0 && at < |parts|
    requires PartsFit(x, all, parts, x.maxDepth - depth + 1)
    ensures all[at].node < |x.graph| && nodes + CountAll(parts[..at]) <= x.maxNodes
    ensures
      var c := ConvertNode(x, all[at].node, if all[at].merged then depth - 1 else depth, nodes + CountAll(parts[..at]));
      c.Ok? && c.value.nodes == nodes + CountAll(parts[..at + 1])
    decreases parts, 0, 0
  {
    CountPrefix(parts, at);
    assert PartFits(x, all[at], parts[at], x.maxDepth - depth + 1);
    PartConverts(x, all[at], parts[at], depth, nodes + CountAll(parts[..at]));
  }

  /** What one more source makes of the sources before it. */
  lemma OneMoreSource(x: Context, own: set<string>, sources: seq<nat>, k: nat, p: Partial, depth: nat)
    requires IsDocument(x) && p.nodes <= x.maxNodes && depth > 0 && k < |sources|
    requires forall i :: 0 <= i < |sources| ==> sources[i] < |x.graph|
    requires MergeSources(x, own, sources[..k], p, depth).Ok? && x.graph[sources[k]].Mapping?
    ensures
      var q := MergeSources(x, own, sources[..k], p, depth).value;
      var v := ConvertNode(x, sources[k], depth - 1, q.nodes);
      var c := MergeSources(x, own, sources[..k + 1], p, depth);
      (c.Ok? <==> v.Ok?) && (v.Ok? ==> c.value.nodes == v.value.nodes)
  {
    assert sources[..k + 1][..k] == sources[..k];
  }

  /** The members so far, and the count they come to. */
  predicate Counts(c: Result<Partial, YamlError>, nodes: nat) {
    c.Ok? && c.value.nodes == nodes
  }

  lemma {:induction false} SourcesConvert(
    x: Context, own: set<string>, sources: seq<nat>, parts: seq<Part>, all: seq<Target>, done: nat, k: nat,
    p: Partial, depth: nat, nodes: nat)
    requires IsDocument(x) && nodes + CountAll(parts) <= x.maxNodes && depth > 0 && k <= |sources|
    requires forall i :: 0 <= i < |sources| ==> sources[i] < |x.graph|
    requires PartsFit(x, all, parts, x.maxDepth - depth + 1) && done + |sources| <= |all|
    requires MergesMappings(x, all)
    requires AreSources(all, done, sources)
    requires p.nodes == nodes + CountAll(parts[..done]) <= x.maxNodes
    ensures Counts(MergeSources(x, own, sources[..k], p, depth), nodes + CountAll(parts[..done + k]))
    decreases parts, |parts|, k + 1
  {
    if k > 0 {
      SourcesConvert(x, own, sources, parts, all, done, k - 1, p, depth, nodes);
      SourceConverts(x, own, sources, parts, all, done, k - 1, p, depth, nodes);
    } else {
      assert sources[..0] == [] && parts[..done + 0] == parts[..done];
    }
  }

  lemma {:induction false} SourceConverts(
    x: Context, own: set<string>, sources: seq<nat>, parts: seq<Part>, all: seq<Target>, done: nat, k: nat,
    p: Partial, depth: nat, nodes: nat)
    requires IsDocument(x) && nodes + CountAll(parts) <= x.maxNodes && depth > 0 && k < |sources|
    requires forall i :: 0 <= i < |sources| ==> sources[i] < |x.graph|
    requires PartsFit(x, all, parts, x.maxDepth - depth + 1) && done + |sources| <= |all|
    requires MergesMappings(x, all) && all[done + k] == Target(true, sources[k]) && p.nodes <= x.maxNodes
    requires Counts(MergeSources(x, own, sources[..k], p, depth), nodes + CountAll(parts[..done + k]))
    ensures Counts(MergeSources(x, own, sources[..k + 1], p, depth), nodes + CountAll(parts[..done + k + 1]))
    decreases parts, |parts|, 0
  {
    OneMoreSource(x, own, sources, k, p, depth);
    ValueConverts(x, all, parts, done + k, depth, nodes);
  }

  // ---- A document that converts has a sound unfolding ----

  lemma PartsAppend(x: Context, targets: seq<Target>, parts: seq<Part>, t: Target, p: Part, depth: int)
    requires IsDocument(x) && PartsFit(x, targets, parts, depth) && PartFits(x, t, p, depth)
    ensures PartsFit(x, targets + [t], parts + [p], depth)
  {
  }

  /** What a conversion from one count to another has visited. */
  ghost predicate Visited(x: Context, n: nat, v: Visit, depth: int, count: int)
    requires IsDocument(x) && n < |x.graph|
  {
    Unfolds(x, n, v) && Count(v) == count && Nests(v, depth) && AllSound(x, n, v)
  }

  ghost predicate PartsVisited(x: Context, targets: seq<Target>, parts: seq<Part>, depth: int, count: int)
    requires IsDocument(x)
  {
    PartsFit(x, targets, parts, depth) && CountAll(parts) == count
  }

  lemma OneMoreVisited(
    x: Context, targets: seq<Target>, parts: seq<Part>, t: Target, v: Visit, depth: int, before: int, after: int)
    requires IsDocument(x) && PartsVisited(x, targets, parts, depth, before) && t.node < |x.graph|
    requires Visited(x, t.node, v, if t.merged then depth else depth - 1, after - before)
    ensures PartsVisited(x, targets + [t], parts + [Part(t.merged, v)], depth, after)
  {
    CountAppend(parts, Part(t.merged, v));
    PartsAppend(x, targets, parts, t, Part(t.merged, v), depth);
  }

  lemma ContainerVisited(x: Context, n: nat, parts: seq<Part>, depth: int, count: int)
    requires IsDocument(x) && n < |x.graph| && (x.graph[n].Sequence? || x.graph[n].Mapping?)
    requires depth > 0 && IsSound(x, n) && PartsVisited(x, Targets(x, n), parts, depth, count - 1)
    ensures Visited(x, n, Container(parts), depth, count)
  {
    ContainerFits(x, n, Container(parts), depth);
  }

  lemma {:induction false} NodeUnfolds(x: Context, n: nat, depth: nat, nodes: nat) returns (v: Visit)
    requires IsDocument(x) && n < |x.graph| && nodes <= x.maxNodes && ConvertNode(x, n, depth, nodes).Ok?
    ensures Visited(x, n, v, x.maxDepth - depth, ConvertNode(x, n, depth, nodes).value.nodes - nodes)
    decreases x.maxNodes - nodes, 0, 1
  {
    if x.graph[n].Sequence? {
      v := SequenceUnfolds(x, n, depth, nodes);
    } else if x.graph[n].Mapping? {
      v := MappingUnfolds(x, n, depth, nodes);
    } else {
      v := Leaf;
    }
  }

  lemma {:induction false} SequenceUnfolds(x: Context, n: nat, depth: nat, nodes: nat) returns (v: Visit)
    requires IsDocument(x) && n < |x.graph| && nodes <= x.maxNodes && ConvertNode(x, n, depth, nodes).Ok?
    requires x.graph[n].Sequence?
    ensures Visited(x, n, v, x.maxDepth - depth, ConvertNode(x, n, depth, nodes).value.nodes - nodes)
    decreases x.maxNodes - nodes, 0, 0
  {
    var parts := ItemsUnfold(x, x.graph[n].items, depth + 1, nodes + 1);
    v := Container(parts);
    ContainerVisited(x, n, parts, x.maxDepth - depth, ConvertNode(x, n, depth, nodes).value.nodes - nodes);
  }

  lemma {:induction false} MappingUnfolds(x: Context, n: nat, depth: nat, nodes: nat) returns (v: Visit)
    requires IsDocument(x) && n < |x.graph| && nodes <= x.maxNodes && ConvertNode(x, n, depth, nodes).Ok?
    requires x.graph[n].Mapping?
    ensures Visited(x, n, v, x.maxDepth - depth, ConvertNode(x, n, depth, nodes).value.nodes - nodes)
    decreases x.maxNodes - nodes, 0, 0
  {
    var entries := x.graph[n].entries;
    var own := OwnKeys(entries).value;
    var parts := EntriesUnfold(x, own, entries, depth + 1, nodes + 1);
    v := Container(parts);
    MappingIsSound(x, n);
    ContainerVisited(x, n, parts, x.maxDepth - depth, ConvertNode(x, n, depth, nodes).value.nodes - nodes);
  }

  lemma MappingIsSound(x: Context, n: nat)
    requires IsDocument(x) && n < |x.graph| && x.graph[n].Mapping?
    requires OwnKeys(x.graph[n].entries).Ok? && MergesMappings(x, EntryTargets(x, x.graph[n].entries))
    ensures IsSound(x, n)
  {
    KeysAreSound(x.graph[n].entries);
  }

  lemma {:induction false} ItemsUnfold(x: Context, items: seq<nat>, depth: nat, nodes: nat) returns (parts: seq<Part>)
    requires IsDocument(x) && nodes <= x.maxNodes && depth > 0
    requires forall i :: 0 <= i < |items| ==> items[i] < |x.graph|
    requires ConvertItems(x, items, depth, nodes).Ok?
    ensures PartsVisited(x, AsTargets(items, false), parts, x.maxDepth - depth + 1,
                         ConvertItems(x, items, depth, nodes).value.nodes - nodes)
    decreases x.maxNodes - nodes, 1, |items|
  {
    if items == [] {
      parts := [];
    } else {
      var front, last := items[..|items| - 1], items[|items| - 1];
      var before := ConvertItems(x, front, depth, nodes).value.nodes;
      parts := ItemsUnfold(x, front, depth, nodes);
      var v := NodeUnfolds(x, last, depth, before);
      OneMoreVisited(x, AsTargets(front, false), parts, Target(false, last), v, x.maxDepth - depth + 1,
                     before - nodes, ConvertItems(x, items, depth, nodes).value.nodes - nodes);
      assert AsTargets(items, false) == AsTargets(front, false) + [Target(false, last)];
      parts := parts + [Part(false, v)];
    }
  }

  lemma {:induction false} EntriesUnfold(
    x: Context, own: set<string>, entries: seq<Entry>, depth: nat, nodes: nat) returns (parts: seq<Part>)
    requires IsDocument(x) && nodes <= x.maxNodes && depth > 0
    requires forall i :: 0 <= i < |entries| ==> entries[i].value < |x.graph|
    requires ConvertEntries(x, own, entries, depth, nodes).Ok?
    ensures PartsVisited(x, EntryTargets(x, entries), parts, x.maxDepth - depth + 1,
                         ConvertEntries(x, own, entries, depth, nodes).value.nodes - nodes)
    ensures MergesMappings(x, EntryTargets(x, entries))
    decreases x.maxNodes - nodes, 2, |entries|
  {
    if entries == [] {
      parts := [];
    } else {
      var front, last := entries[..|entries| - 1], entries[|entries| - 1];
      parts := EntriesUnfold(x, own, front, depth, nodes);
      var p := ConvertEntries(x, own, front, depth, nodes).value;
      parts := EntryUnfolds(x, own, last, p, depth, EntryTargets(x, front), parts, nodes);
      LastTargets(x, entries);
    }
  }

  lemma LastTargets(x: Context, entries: seq<Entry>)
    requires entries != [] && forall i :: 0 <= i < |entries| ==> entries[i].value < |x.graph|
    ensures var front, last := entries[..|entries| - 1], entries[|entries| - 1];
            EntryTargets(x, entries) == EntryTargets(x, front) +
              if IsMergeKey(last.key) then AsTargets(SourcesOf(x, last.value), true) else [Target(false, last.value)]
  {
  }

  /** One entry, after the targets visited before it. */
  lemma {:induction false} EntryUnfolds(
    x: Context, own: set<string>, last: Entry, p: Partial, depth: nat,
    done: seq<Target>, doneParts: seq<Part>, nodes: nat) returns (parts: seq<Part>)
    requires IsDocument(x) && nodes <= p.nodes <= x.maxNodes && depth > 0 && last.value < |x.graph|
    requires PartsVisited(x, done, doneParts, x.maxDepth - depth + 1, p.nodes - nodes) && MergesMappings(x, done)
    requires if IsMergeKey(last.key) then MergeSources(x, own, SourcesOf(x, last.value), p, depth).Ok?
             else ConvertNode(x, last.value, depth, p.nodes).Ok?
    ensures
      var count := if IsMergeKey(last.key) then MergeSources(x, own, SourcesOf(x, last.value), p, depth).value.nodes
                   else ConvertNode(x, last.value, depth, p.nodes).value.nodes;
      var all := done +
        if IsMergeKey(last.key) then AsTargets(SourcesOf(x, last.value), true) else [Target(false, last.value)];
      PartsVisited(x, all, parts, x.maxDepth - depth + 1, count - nodes) && MergesMappings(x, all)
    decreases x.maxNodes - p.nodes, 2, 0
  {
    if IsMergeKey(last.key) {
      parts := SourcesUnfold(x, own, SourcesOf(x, last.value), p, depth, done, doneParts, nodes);
    } else {
      var v := NodeUnfolds(x, last.value, depth, p.nodes);
      OneMoreVisited(x, done, doneParts, Target(false, last.value), v, x.maxDepth - depth + 1,
                     p.nodes - nodes, ConvertNode(x, last.value, depth, p.nodes).value.nodes - nodes);
      parts := doneParts + [Part(false, v)];
    }
  }

  lemma OneMoreMerged(x: Context, done: seq<Target>, sources: seq<nat>)
    requires sources != []
    ensures var front, last := sources[..|sources| - 1], sources[|sources| - 1];
      && done + AsTargets(sources, true) == done + AsTargets(front, true) + [Target(true, last)]
      && (MergesMappings(x, done + AsTargets(front, true)) && last < |x.graph| && x.graph[last].Mapping? ==>
            MergesMappings(x, done + AsTargets(sources, true)))
  {
    var front, last := sources[..|sources| - 1], sources[|sources| - 1];
    assert AsTargets(sources, true) == AsTargets(front, true) + [Target(true, last)];
    var all, before := done + AsTargets(sources, true), done + AsTargets(front, true);
    assert forall i :: 0 <= i < |before| ==> all[i] == before[i];
  }

  lemma {:induction false} SourcesUnfold(
    x: Context, own: set<string>, sources: seq<nat>, p: Partial, depth: nat,
    done: seq<Target>, doneParts: seq<Part>, nodes: nat) returns (parts: seq<Part>)
    requires IsDocument(x) && nodes <= p.nodes <= x.maxNodes && depth > 0
    requires forall i :: 0 <= i < |sources| ==> sources[i] < |x.graph|
    requires MergeSources(x, own, sources, p, depth).Ok?
    requires PartsVisited(x, done, doneParts, x.maxDepth - depth + 1, p.nodes - nodes) && MergesMappings(x, done)
    ensures PartsVisited(x, done + AsTargets(sources, true), parts, x.maxDepth - depth + 1,
                         MergeSources(x, own, sources, p, depth).value.nodes - nodes)
    ensures MergesMappings(x, done + AsTargets(sources, true))
    decreases x.maxNodes - p.nodes, 1, |sources|
  {
    if sources == [] {
      parts := doneParts;
      assert done + AsTargets(sources, true) == done;
    } else {
      var front, last := sources[..|sources| - 1], sources[|sources| - 1];
      var q := MergeSources(x, own, front, p, depth).value;
      parts := SourcesUnfold(x, own, front, p, depth, done, doneParts, nodes);
      var v := NodeUnfolds(x, last, depth - 1, q.nodes);
      OneMoreVisited(x, done + AsTargets(front, true), parts, Target(true, last), v, x.maxDepth - depth + 1,
                     q.nodes - nodes, MergeSources(x, own, sources, p, depth).value.nodes - nodes);
      parts := parts + [Part(true, v)];
      OneMoreMerged(x, done, sources);
    }
  }

  // ---- Exactly when a document converts ----

  /** A document converts if and only if it has a finite unfolding within the limits, all of
      whose nodes are sound. */
  lemma ConvertsExactly(x: Context, root: nat)
    requires IsDocument(x) && root < |x.graph|
    ensures ConvertNode(x, root, 0, 0).Ok? <==> IsConvertible(x, root)
  {
    if ConvertNode(x, root, 0, 0).Ok? {
      var v := NodeUnfolds(x, root, 0, 0);
    }
    if v :| Unfolds(x, root, v) && Count(v) <= x.maxNodes && Nests(v, x.maxDepth) && AllSound(x, root, v) {
      NodeConverts(x, root, v, 0, 0);
    }
  }
}
