/**
 What the error of a conversion says: a limit that every unfolding of the document exceeds,
 or a node that the document reaches and that is at fault.
*/
module YamlErrors {
  import opened Wrappers
  import opened Json
  import opened YamlConvert
  import opened YamlUnfolding

  /** Node r is visited on the way from node n, k visits down. */
  ghost predicate Reached(x: Context, n: nat, r: nat, k: nat)
    requires IsDocument(x) && n < |x.graph|
    decreases k
  {
    if k == 0 then r == n
    else
      exists i :: 0 <= i < |Targets(x, n)| && Targets(x, n)[i].node < |x.graph| &&
        Reached(x, Targets(x, n)[i].node, r, k - 1)
  }

  /** Node r is itself what the error complains of. */
  ghost predicate IsAtFault(x: Context, r: nat, error: YamlError)
    requires IsDocument(x)
  {
    r < |x.graph| &&
    match error
    case BadScalar(message) =>
      x.graph[r].Scalar? && x.scalar(x.graph[r].tag, x.graph[r].text) == Err(message)
    case KeyNotScalar => x.graph[r].Mapping? && HasOtherKey(x.graph[r].entries)
    case DuplicateKey(key) => x.graph[r].Mapping? && SetsTwice(x.graph[r].entries, key)
    case BadMergeSource => x.graph[r].Mapping? && !MergesMappings(x, EntryTargets(x, x.graph[r].entries))
    case _ => false
  }

  ghost predicate HasOtherKey(entries: seq<Entry>) {
    exists i :: 0 <= i < |entries| && entries[i].key.OtherKey?
  }

  ghost predicate SetsTwice(entries: seq<Entry>, key: string) {
    exists i, j :: 0 <= i < j < |entries| && IsOwn(entries[i], key) && IsOwn(entries[j], key)
  }

  predicate IsOwn(entry: Entry, key: string) {
    entry.key.ScalarKey? && !IsMergeKey(entry.key) && entry.key.text == key
  }

  ghost predicate ReachesFault(x: Context, n: nat, error: YamlError)
    requires IsDocument(x) && n < |x.graph|
  {
    exists r: nat, k: nat :: Reached(x, n, r, k) && IsAtFault(x, r, error)
  }

  /** The error is true of the node, with this much depth and this many visits left. */
  ghost predicate IsTrueOf(x: Context, n: nat, error: YamlError, depth: int, left: int)
    requires IsDocument(x) && n < |x.graph|
  {
    match error
    case TooLarge => forall v :: Unfolds(x, n, v) ==> Count(v) > left
    case TooDeep => forall v :: Unfolds(x, n, v) ==> !Nests(v, depth)
    case _ => ReachesFault(x, n, error)
  }

  ghost predicate PartsUnfold(x: Context, targets: seq<Target>, parts: seq<Part>)
    requires IsDocument(x)
  {
    && |parts| == |targets|
    && forall i :: 0 <= i < |parts| ==> targets[i].node < |x.graph| && PartUnfolds(x, targets[i], parts[i])
  }

  predicate AllNest(parts: seq<Part>, depth: int) {
    forall i :: 0 <= i < |parts| ==> PartNests(parts[i], depth)
  }

  /** The error is true of these targets, visited one after the other. */
  ghost predicate IsTrueOfAll(x: Context, targets: seq<Target>, error: YamlError, depth: int, left: int)
    requires IsDocument(x)
  {
    match error
    case TooLarge => forall parts :: PartsUnfold(x, targets, parts) ==> CountAll(parts) > left
    case TooDeep => forall parts :: PartsUnfold(x, targets, parts) ==> !AllNest(parts, depth)
    case _ => exists i :: 0 <= i < |targets| && targets[i].node < |x.graph| && ReachesFault(x, targets[i].node, error)
  }

  // ---- Unfoldings are unique ----

  lemma {:induction false} OneUnfolding(x: Context, n: nat, v: Visit, w: Visit)
    requires IsDocument(x) && n < |x.graph| && Unfolds(x, n, v) && Unfolds(x, n, w)
    ensures v == w
    decreases v
  {
    if v.Container? {
      var targets := Targets(x, n);
      forall i | 0 <= i < |v.parts| ensures v.parts[i] == w.parts[i] {
        OnePart(x, targets[i], v.parts[i], w.parts[i]);
      }
      assert v.parts == w.parts;
    }
  }

  lemma {:induction false} OnePart(x: Context, t: Target, p: Part, q: Part)
    requires IsDocument(x) && t.node < |x.graph| && PartUnfolds(x, t, p) && PartUnfolds(x, t, q)
    ensures p == q
    decreases p
  {
    OneUnfolding(x, t.node, p.visit, q.visit);
  }

  lemma PartsAreUnique(x: Context, targets: seq<Target>, parts: seq<Part>, other: seq<Part>, depth: int, count: int)
    requires IsDocument(x) && PartsUnfold(x, targets, parts) && PartsVisited(x, targets, other, depth, count)
    ensures parts == other && CountAll(parts) == count
  {
    forall i | 0 <= i < |parts| ensures parts[i] == other[i] {
      assert PartFits(x, targets[i], other[i], depth);
      OnePart(x, targets[i], parts[i], other[i]);
    }
  }

  // ---- From the parts to the whole ----

  lemma PartsToNode(x: Context, n: nat, error: YamlError, depth: int, left: int)
    requires IsDocument(x) && n < |x.graph| && (x.graph[n].Sequence? || x.graph[n].Mapping?)
    requires IsTrueOfAll(x, Targets(x, n), error, depth, left - 1)
    ensures IsTrueOf(x, n, error, depth, left)
  {
    if error == TooLarge {
      forall v | Unfolds(x, n, v) ensures Count(v) > left {
        assert PartsUnfold(x, Targets(x, n), v.parts);
      }
    } else if error == TooDeep {
      forall v | Unfolds(x, n, v) ensures !Nests(v, depth) {
        assert PartsUnfold(x, Targets(x, n), v.parts);
        assert AllNest(v.parts, depth) || !Nests(v, depth);
      }
    } else {
      var i :| 0 <= i < |Targets(x, n)| && Targets(x, n)[i].node < |x.graph| &&
               ReachesFault(x, Targets(x, n)[i].node, error);
      var r: nat, k: nat :| Reached(x, Targets(x, n)[i].node, r, k) && IsAtFault(x, r, error);
      assert Reached(x, n, r, k + 1);
    }
  }

  lemma OwnFault(x: Context, n: nat, error: YamlError)
    requires IsDocument(x) && n < |x.graph| && IsAtFault(x, n, error)
    ensures ReachesFault(x, n, error)
  {
    assert Reached(x, n, n, 0);
  }

  /** What is true of the first targets is true of more. */
  lemma FirstToAll(x: Context, targets: seq<Target>, more: seq<Target>, error: YamlError, depth: int, left: int)
    requires IsDocument(x) && IsTrueOfAll(x, targets, error, depth, left)
    ensures IsTrueOfAll(x, targets + more, error, depth, left)
  {
    var all := targets + more;
    if error == TooLarge || error == TooDeep {
      forall parts | PartsUnfold(x, all, parts)
        ensures PartsUnfold(x, targets, parts[..|targets|])
        ensures CountAll(parts[..|targets|]) <= CountAll(parts)
        ensures AllNest(parts, depth) ==> AllNest(parts[..|targets|], depth)
      {
        CountPrefix(parts, |targets|);
        forall i | 0 <= i < |targets|
          ensures targets[i].node < |x.graph| && PartUnfolds(x, targets[i], parts[..|targets|][i])
        {
          assert all[i] == targets[i] && PartUnfolds(x, all[i], parts[i]);
        }
      }
    } else {
      var i :| 0 <= i < |targets| && targets[i].node < |x.graph| && ReachesFault(x, targets[i].node, error);
      assert all[i] == targets[i];
    }
  }

  /** What is true of a target after others have been visited is true of them all. */
  lemma LastToAll(
    x: Context, targets: seq<Target>, parts: seq<Part>, t: Target, error: YamlError, depth: int, count: int, left: int)
    requires IsDocument(x) && PartsVisited(x, targets, parts, depth, count) && t.node < |x.graph|
    requires IsTrueOf(x, t.node, error, if t.merged then depth else depth - 1, left - count)
    ensures IsTrueOfAll(x, targets + [t], error, depth, left)
  {
    var all := targets + [t];
    if error == TooLarge || error == TooDeep {
      forall ps: seq<Part> | PartsUnfold(x, all, ps)
        ensures error == TooLarge ==> CountAll(ps) > left
        ensures error == TooDeep ==> !AllNest(ps, depth)
      {
        var n := |targets|;
        assert all[n] == t && PartUnfolds(x, t, ps[n]);
        assert ps == ps[..n] + [ps[n]];
        CountAppend(ps[..n], ps[n]);
        forall i | 0 <= i < n ensures targets[i].node < |x.graph| && PartUnfolds(x, targets[i], ps[..n][i]) {
          assert all[i] == targets[i] && PartUnfolds(x, all[i], ps[i]);
        }
        PartsAreUnique(x, targets, ps[..n], parts, depth, count);
        assert Unfolds(x, t.node, ps[n].visit);
        assert AllNest(ps, depth) ==> PartNests(ps[n], depth);
      }
    } else {
      assert all[|targets|] == t;
    }
  }

  // ---- Every error is true ----

  lemma {:induction false} KeysAtFault(entries: seq<Entry>)
    requires OwnKeys(entries).Err?
    ensures OwnKeys(entries).error == KeyNotScalar ==> HasOtherKey(entries)
    ensures OwnKeys(entries).error.DuplicateKey? ==> SetsTwice(entries, OwnKeys(entries).error.key)
    ensures OwnKeys(entries).error == KeyNotScalar || OwnKeys(entries).error.DuplicateKey?
  {
    var n := |entries| - 1;
    var front := entries[..n];
    assert forall i :: 0 <= i < n ==> front[i] == entries[i];
    if OwnKeys(front).Err? {
      KeysAtFault(front);
      if OwnKeys(front).error.DuplicateKey? {
        var key := OwnKeys(front).error.key;
        var i, j :| 0 <= i < j < |front| && IsOwn(front[i], key) && IsOwn(front[j], key);
        assert IsOwn(entries[i], key) && IsOwn(entries[j], key);
      }
    } else if entries[n].key.ScalarKey? {
      KeysAreSound(front);
      var key := entries[n].key.text;
      var i :| 0 <= i < |front| && !IsMergeKey(front[i].key) && KeyText(front[i].key) == key;
      assert IsOwn(entries[i], key) && IsOwn(entries[n], key);
    }
  }

  lemma {:induction false} NodeError(x: Context, n: nat, depth: nat, nodes: nat)
    requires IsDocument(x) && n < |x.graph| && nodes <= x.maxNodes && ConvertNode(x, n, depth, nodes).Err?
    ensures IsTrueOf(x, n, ConvertNode(x, n, depth, nodes).error, x.maxDepth - depth, x.maxNodes - nodes)
    decreases x.maxNodes - nodes, 0, 1
  {
    var error := ConvertNode(x, n, depth, nodes).error;
    if nodes + 1 > x.maxNodes {
    } else if x.graph[n].Scalar? {
      OwnFault(x, n, error);
    } else if depth + 1 > x.maxDepth {
    } else if x.graph[n].Sequence? {
      ItemsError(x, x.graph[n].items, depth + 1, nodes + 1);
      PartsToNode(x, n, error, x.maxDepth - depth, x.maxNodes - nodes);
    } else {
      MappingError(x, n, depth, nodes);
    }
  }

  lemma {:induction false} MappingError(x: Context, n: nat, depth: nat, nodes: nat)
    requires IsDocument(x) && n < |x.graph| && nodes + 1 <= x.maxNodes && depth + 1 <= x.maxDepth
    requires x.graph[n].Mapping? && ConvertNode(x, n, depth, nodes).Err?
    ensures IsTrueOf(x, n, ConvertNode(x, n, depth, nodes).error, x.maxDepth - depth, x.maxNodes - nodes)
    decreases x.maxNodes - nodes, 0, 0
  {
    var entries, error := x.graph[n].entries, ConvertNode(x, n, depth, nodes).error;
    if OwnKeys(entries).Err? {
      KeysAtFault(entries);
      OwnFault(x, n, error);
    } else {
      KeysAreSound(entries);
      EntriesError(x, OwnKeys(entries).value, entries, depth + 1, nodes + 1);
      if IsTrueOfAll(x, EntryTargets(x, entries), error, x.maxDepth - depth, x.maxNodes - nodes - 1) {
        PartsToNode(x, n, error, x.maxDepth - depth, x.maxNodes - nodes);
      } else {
        OwnFault(x, n, error);
      }
    }
  }

  lemma {:induction false} ItemsError(x: Context, items: seq<nat>, depth: nat, nodes: nat)
    requires IsDocument(x) && nodes <= x.maxNodes && depth > 0
    requires forall i :: 0 <= i < |items| ==> items[i] < |x.graph|
    requires ConvertItems(x, items, depth, nodes).Err?
    ensures IsTrueOfAll(x, AsTargets(items, false), ConvertItems(x, items, depth, nodes).error,
                        x.maxDepth - depth + 1, x.maxNodes - nodes)
    decreases x.maxNodes - nodes, 1, |items|
  {
    var front, last := items[..|items| - 1], items[|items| - 1];
    var error, level := ConvertItems(x, items, depth, nodes).error, x.maxDepth - depth + 1;
    if ConvertItems(x, front, depth, nodes).Err? {
      ItemsError(x, front, depth, nodes);
      FirstToAll(x, AsTargets(front, false), [Target(false, last)], error, level, x.maxNodes - nodes);
    } else {
      var before := ConvertItems(x, front, depth, nodes).value.nodes;
      var parts := ItemsUnfold(x, front, depth, nodes);
      NodeError(x, last, depth, before);
      LastToAll(x, AsTargets(front, false), parts, Target(false, last), error, level, before - nodes,
                x.maxNodes - nodes);
    }
    assert AsTargets(items, false) == AsTargets(front, false) + [Target(false, last)];
  }

  /** The error is true of the entries' targets, or a merge source is no mapping. */
  ghost predicate IsTrueOfEntries(
    x: Context, entries: seq<Entry>, targets: seq<Target>, error: YamlError, depth: int, left: int)
    requires IsDocument(x)
  {
    || IsTrueOfAll(x, targets, error, depth, left)
    || (error == BadMergeSource && !MergesMappings(x, targets))
    || (error == KeyNotScalar && HasOtherKey(entries))
  }

  lemma FirstToEntries(
    x: Context, entries: seq<Entry>, last: Entry, targets: seq<Target>, more: seq<Target>, error: YamlError,
    depth: int, left: int)
    requires IsDocument(x) && IsTrueOfEntries(x, entries, targets, error, depth, left)
    ensures IsTrueOfEntries(x, entries + [last], targets + more, error, depth, left)
  {
    if IsTrueOfAll(x, targets, error, depth, left) {
      FirstToAll(x, targets, more, error, depth, left);
    } else if error == BadMergeSource {
      var i :| 0 <= i < |targets| && targets[i].merged &&
               !(targets[i].node < |x.graph| && x.graph[targets[i].node].Mapping?);
      assert (targets + more)[i] == targets[i];
    } else {
      var i :| 0 <= i < |entries| && entries[i].key.OtherKey?;
      assert (entries + [last])[i] == entries[i];
    }
  }

  lemma {:induction false} EntriesError(x: Context, own: set<string>, entries: seq<Entry>, depth: nat, nodes: nat)
    requires IsDocument(x) && nodes <= x.maxNodes && depth > 0
    requires forall i :: 0 <= i < |entries| ==> entries[i].value < |x.graph|
    requires ConvertEntries(x, own, entries, depth, nodes).Err?
    ensures IsTrueOfEntries(x, entries, EntryTargets(x, entries), ConvertEntries(x, own, entries, depth, nodes).error,
                            x.maxDepth - depth + 1, x.maxNodes - nodes)
    decreases x.maxNodes - nodes, 2, |entries|
  {
    var front, last := entries[..|entries| - 1], entries[|entries| - 1];
    LastTargets(x, entries);
    if ConvertEntries(x, own, front, depth, nodes).Err? {
      EntriesError(x, own, front, depth, nodes);
      var more :=
        if IsMergeKey(last.key) then AsTargets(SourcesOf(x, last.value), true) else [Target(false, last.value)];
      assert entries == front + [last];
      FirstToEntries(x, front, last, EntryTargets(x, front), more, ConvertEntries(x, own, entries, depth, nodes).error,
                     x.maxDepth - depth + 1, x.maxNodes - nodes);
    } else if IsMergeKey(last.key) {
      var parts := EntriesUnfold(x, own, front, depth, nodes);
      SourcesError(x, own, entries, SourcesOf(x, last.value), ConvertEntries(x, own, front, depth, nodes).value,
                   depth, EntryTargets(x, front), parts, nodes);
    } else if last.key.ScalarKey? {
      LastValueError(x, own, entries, depth, nodes);
    }
  }

  lemma {:induction false} LastValueError(x: Context, own: set<string>, entries: seq<Entry>, depth: nat, nodes: nat)
    requires IsDocument(x) && nodes <= x.maxNodes && depth > 0 && entries != []
    requires forall i :: 0 <= i < |entries| ==> entries[i].value < |x.graph|
    requires var last := entries[|entries| - 1]; last.key.ScalarKey? && !IsMergeKey(last.key)
    requires ConvertEntries(x, own, entries[..|entries| - 1], depth, nodes).Ok?
    requires ConvertEntries(x, own, entries, depth, nodes).Err?
    ensures IsTrueOfAll(x, EntryTargets(x, entries), ConvertEntries(x, own, entries, depth, nodes).error,
                        x.maxDepth - depth + 1, x.maxNodes - nodes)
    decreases x.maxNodes - nodes, 2, 0
  {
    var front, last := entries[..|entries| - 1], entries[|entries| - 1];
    var p := ConvertEntries(x, own, front, depth, nodes).value;
    var error := ConvertNode(x, last.value, depth, p.nodes).error;
    LastTargets(x, entries);
    var parts := EntriesUnfold(x, own, front, depth, nodes);
    NodeError(x, last.value, depth, p.nodes);
    LastToAll(x, EntryTargets(x, front), parts, Target(false, last.value), error, x.maxDepth - depth + 1,
              p.nodes - nodes, x.maxNodes - nodes);
  }

  lemma {:induction false} SourcesError(
    x: Context, own: set<string>, entries: seq<Entry>, sources: seq<nat>, p: Partial, depth: nat,
    done: seq<Target>, doneParts: seq<Part>, nodes: nat)
    requires IsDocument(x) && nodes <= p.nodes <= x.maxNodes && depth > 0
    requires forall i :: 0 <= i < |sources| ==> sources[i] < |x.graph|
    requires MergeSources(x, own, sources, p, depth).Err?
    requires PartsVisited(x, done, doneParts, x.maxDepth - depth + 1, p.nodes - nodes) && MergesMappings(x, done)
    ensures IsTrueOfEntries(x, entries, done + AsTargets(sources, true), MergeSources(x, own, sources, p, depth).error,
                            x.maxDepth - depth + 1, x.maxNodes - nodes)
    decreases x.maxNodes - p.nodes, 1, |sources|
  {
    var front, last := sources[..|sources| - 1], sources[|sources| - 1];
    var error, level := MergeSources(x, own, sources, p, depth).error, x.maxDepth - depth + 1;
    var targets := done + AsTargets(front, true);
    OneMoreMerged(x, done, sources);
    if MergeSources(x, own, front, p, depth).Err? {
      SourcesError(x, own, entries, front, p, depth, done, doneParts, nodes);
      MoreSources(x, entries, targets, Target(true, last), error, level, x.maxNodes - nodes);
    } else if !x.graph[last].Mapping? {
      var all := done + AsTargets(sources, true);
      assert all[|all| - 1] == Target(true, last);
    } else {
      var q := MergeSources(x, own, front, p, depth).value;
      var parts := SourcesUnfold(x, own, front, p, depth, done, doneParts, nodes);
      NodeError(x, last, depth - 1, q.nodes);
      LastToAll(x, targets, parts, Target(true, last), error, level, q.nodes - nodes, x.maxNodes - nodes);
    }
  }

  lemma MoreSources(
    x: Context, entries: seq<Entry>, targets: seq<Target>, t: Target, error: YamlError, depth: int, left: int)
    requires IsDocument(x) && IsTrueOfEntries(x, entries, targets, error, depth, left)
    ensures IsTrueOfEntries(x, entries, targets + [t], error, depth, left)
  {
    if IsTrueOfAll(x, targets, error, depth, left) {
      FirstToAll(x, targets, [t], error, depth, left);
    } else if error == BadMergeSource {
      var i :| 0 <= i < |targets| && targets[i].merged &&
               !(targets[i].node < |x.graph| && x.graph[targets[i].node].Mapping?);
      assert (targets + [t])[i] == targets[i];
    }
  }
}
