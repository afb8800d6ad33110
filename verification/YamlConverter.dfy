/**
 The conversion as it is made: a counter threaded through every call, members appended
 as they are found, and the first error ending it all.
*/
module YamlConverter {
  import opened Wrappers
  import opened Json
  import opened YamlConvert
  import opened YamlUnfolding
  import opened YamlErrors

  // ---- The first error is the error ----

  lemma {:induction false} OwnKeysStop(entries: seq<Entry>, k: nat)
    requires k <= |entries| && OwnKeys(entries[..k]).Err?
    ensures OwnKeys(entries) == OwnKeys(entries[..k])
  {
    if k == |entries| {
      assert entries[..k] == entries;
    } else {
      assert entries[..|entries| - 1][..k] == entries[..k];
      OwnKeysStop(entries[..|entries| - 1], k);
    }
  }

  lemma {:induction false} ItemsStop(x: Context, items: seq<nat>, k: nat, depth: nat, nodes: nat)
    requires IsDocument(x) && nodes <= x.maxNodes
    requires forall i :: 0 <= i < |items| ==> items[i] < |x.graph|
    requires k <= |items| && ConvertItems(x, items[..k], depth, nodes).Err?
    ensures ConvertItems(x, items, depth, nodes) == ConvertItems(x, items[..k], depth, nodes)
  {
    if k == |items| {
      assert items[..k] == items;
    } else {
      assert items[..|items| - 1][..k] == items[..k];
      ItemsStop(x, items[..|items| - 1], k, depth, nodes);
    }
  }

  lemma {:induction false} EntriesStop(
    x: Context, own: set<string>, entries: seq<Entry>, k: nat, depth: nat, nodes: nat)
    requires IsDocument(x) && nodes <= x.maxNodes && depth > 0
    requires forall i :: 0 <= i < |entries| ==> entries[i].value < |x.graph|
    requires k <= |entries| && ConvertEntries(x, own, entries[..k], depth, nodes).Err?
    ensures ConvertEntries(x, own, entries, depth, nodes) == ConvertEntries(x, own, entries[..k], depth, nodes)
  {
    if k == |entries| {
      assert entries[..k] == entries;
    } else {
      assert entries[..|entries| - 1][..k] == entries[..k];
      EntriesStop(x, own, entries[..|entries| - 1], k, depth, nodes);
    }
  }

  lemma {:induction false} SourcesStop(x: Context, own: set<string>, sources: seq<nat>, k: nat, p: Partial, depth: nat)
    requires IsDocument(x) && p.nodes <= x.maxNodes && depth > 0
    requires forall i :: 0 <= i < |sources| ==> sources[i] < |x.graph|
    requires k <= |sources| && MergeSources(x, own, sources[..k], p, depth).Err?
    ensures MergeSources(x, own, sources, p, depth) == MergeSources(x, own, sources[..k], p, depth)
  {
    if k == |sources| {
      assert sources[..k] == sources;
    } else {
      assert sources[..|sources| - 1][..k] == sources[..k];
      SourcesStop(x, own, sources[..|sources| - 1], k, p, depth);
    }
  }

  /** The keys a mapping sets itself. */
  method CollectOwn(entries: seq<Entry>) returns (r: Result<set<string>, YamlError>)
    ensures r == OwnKeys(entries)
  {
    var own: set<string> := {};
    var i := 0;
    while i < |entries|
      invariant i <= |entries| && OwnKeys(entries[..i]) == Ok(own)
    {
      var key := entries[i].key;
      assert entries[..i + 1][..i] == entries[..i];
      if key.OtherKey? {
        OwnKeysStop(entries, i + 1);
        return Err(KeyNotScalar);
      }
      if !IsMergeKey(key) {
        if key.text in own {
          OwnKeysStop(entries, i + 1);
          return Err(DuplicateKey(key.text));
        }
        own := own + {key.text};
      }
      i := i + 1;
    }
    assert entries[..i] == entries;
    return Ok(own);
  }

  /** Appends the members of a merge source that are not set yet. */
  method Append(own: set<string>, p: Partial, from: seq<Member>) returns (r: Partial)
    ensures r == Merge(own, p, from)
  {
    r := p;
    var i := 0;
    while i < |from|
      invariant i <= |from| && r == Merge(own, p, from[..i])
    {
      assert from[..i + 1][..i] == from[..i];
      var m := from[i];
      if m.key !in own && m.key !in r.merged {
        r := r.(members := r.members + [m], merged := r.merged + {m.key});
      }
      i := i + 1;
    }
    assert from[..i] == from;
  }

  class Converter {
    const x: Context
    var nodes: nat

    constructor (x: Context)
      ensures this.x == x && nodes == 0
    {
      this.x, nodes := x, 0;
    }

    /** The result, and the counter, are what the conversion comes to. */
    predicate GivesNode(r: Result<Value, YamlError>, spec: Result<Converted, YamlError>)
      reads this
    {
      match spec
      case Ok(c) => r == Ok(c.value) && nodes == c.nodes
      case Err(error) => r == Err(error)
    }

    predicate GivesPartial(r: Result<Partial, YamlError>, spec: Result<Partial, YamlError>)
      reads this
    {
      r == spec && (r.Ok? ==> nodes == r.value.nodes)
    }

    method Node(n: nat, depth: nat) returns (r: Result<Value, YamlError>)
      requires IsDocument(x) && n < |x.graph| && nodes <= x.maxNodes
      modifies this
      ensures GivesNode(r, ConvertNode(x, n, depth, old(nodes)))
      decreases x.maxNodes - nodes, 0, 0
    {
      nodes := nodes + 1;
      if nodes > x.maxNodes {
        return Err(TooLarge);
      }
      match x.graph[n]
      case Scalar(tag, text) =>
        match x.scalar(tag, text) {
          case Ok(value) => return Ok(Atom(value));
          case Err(message) => return Err(BadScalar(message));
        }
      case NullNode => return Ok(Atom(Null));
      case Sequence(items) =>
        if depth + 1 > x.maxDepth {
          return Err(TooDeep);
        }
        r := Items(items, depth + 1);
      case Mapping(entries) =>
        if depth + 1 > x.maxDepth {
          return Err(TooDeep);
        }
        r := Map(entries, depth + 1);
    }

    method Items(items: seq<nat>, depth: nat) returns (r: Result<Value, YamlError>)
      requires IsDocument(x) && nodes <= x.maxNodes
      requires forall i :: 0 <= i < |items| ==> items[i] < |x.graph|
      modifies this
      ensures GivesNode(r, ConvertItems(x, items, depth, old(nodes)))
      decreases x.maxNodes - nodes, 2, 0
    {
      var elems := [];
      var i := 0;
      while i < |items|
        invariant i <= |items| && old(nodes) <= nodes <= x.maxNodes
        invariant ConvertItems(x, items[..i], depth, old(nodes)) == Ok(Converted(List(elems), nodes))
      {
        assert items[..i + 1][..i] == items[..i];
        var item := Node(items[i], depth);
        if item.Err? {
          ItemsStop(x, items, i + 1, depth, old(nodes));
          return Err(item.error);
        }
        elems := elems + [item.value];
        i := i + 1;
      }
      assert items[..i] == items;
      return Ok(List(elems));
    }

    method Map(entries: seq<Entry>, depth: nat) returns (r: Result<Value, YamlError>)
      requires IsDocument(x) && nodes <= x.maxNodes && depth > 0
      requires forall i :: 0 <= i < |entries| ==> entries[i].value < |x.graph|
      modifies this
      ensures GivesNode(r,
        match OwnKeys(entries)
        case Err(error) => Err(error)
        case Ok(own) =>
          match ConvertEntries(x, own, entries, depth, old(nodes))
          case Err(error) => Err(error)
          case Ok(p) => Ok(Converted(Object(p.members), p.nodes)))
      decreases x.maxNodes - nodes, 3, 0
    {
      var own := CollectOwn(entries);
      if own.Err? {
        return Err(own.error);
      }
      var p := Entries(own.value, entries, depth);
      return if p.Ok? then Ok(Object(p.value.members)) else Err(p.error);
    }

    method Entries(own: set<string>, entries: seq<Entry>, depth: nat) returns (r: Result<Partial, YamlError>)
      requires IsDocument(x) && nodes <= x.maxNodes && depth > 0
      requires forall i :: 0 <= i < |entries| ==> entries[i].value < |x.graph|
      requires OwnKeys(entries).Ok?
      modifies this
      ensures GivesPartial(r, ConvertEntries(x, own, entries, depth, old(nodes)))
      decreases x.maxNodes - nodes, 2, 0
    {
      var p := Partial([], {}, nodes);
      var i := 0;
      while i < |entries|
        invariant i <= |entries| && old(nodes) <= nodes <= x.maxNodes && p.nodes == nodes
        invariant ConvertEntries(x, own, entries[..i], depth, old(nodes)) == Ok(p)
      {
        assert entries[..i + 1][..i] == entries[..i];
        NoOtherKey(entries, i);
        var next := EntryOf(own, entries[i], p, depth);
        if next.Err? {
          EntriesStop(x, own, entries, i + 1, depth, old(nodes));
          return next;
        }
        p := next.value;
        i := i + 1;
      }
      assert entries[..i] == entries;
      return Ok(p);
    }

    method EntryOf(own: set<string>, entry: Entry, p: Partial, depth: nat) returns (r: Result<Partial, YamlError>)
      requires IsDocument(x) && nodes == p.nodes <= x.maxNodes && depth > 0
      requires entry.value < |x.graph| && entry.key.ScalarKey?
      modifies this
      ensures GivesPartial(r,
        if IsMergeKey(entry.key) then MergeSources(x, own, SourcesOf(x, entry.value), p, depth)
        else
          match ConvertNode(x, entry.value, depth, p.nodes)
          case Err(error) => Err(error)
          case Ok(c) => Ok(p.(members := p.members + [Member(entry.key.text, c.value)], nodes := c.nodes)))
      decreases x.maxNodes - nodes, 1, 1
    {
      if IsMergeKey(entry.key) {
        r := MergeAll(own, SourcesOf(x, entry.value), p, depth);
      } else {
        var v := Node(entry.value, depth);
        r := if v.Ok? then Ok(p.(members := p.members + [Member(entry.key.text, v.value)], nodes := nodes))
             else Err(v.error);
      }
    }

    method MergeAll(own: set<string>, sources: seq<nat>, before: Partial, depth: nat)
      returns (r: Result<Partial, YamlError>)
      requires IsDocument(x) && nodes == before.nodes <= x.maxNodes && depth > 0
      requires forall i :: 0 <= i < |sources| ==> sources[i] < |x.graph|
      modifies this
      ensures GivesPartial(r, MergeSources(x, own, sources, before, depth))
      decreases x.maxNodes - nodes, 1, 0
    {
      var p := before;
      var i := 0;
      while i < |sources|
        invariant i <= |sources| && before.nodes <= nodes <= x.maxNodes && p.nodes == nodes
        invariant MergeSources(x, own, sources[..i], before, depth) == Ok(p)
      {
        assert sources[..i + 1][..i] == sources[..i];
        if !x.graph[sources[i]].Mapping? {
          SourcesStop(x, own, sources, i + 1, before, depth);
          return Err(BadMergeSource);
        }
        var from := Node(sources[i], depth - 1);
        if from.Err? {
          SourcesStop(x, own, sources, i + 1, before, depth);
          return Err(from.error);
        }
        p := Append(own, p.(nodes := nodes), from.value.members);
        i := i + 1;
      }
      assert sources[..i] == sources;
      return Ok(p);
    }
  }

  lemma {:induction false} NoOtherKey(entries: seq<Entry>, i: nat)
    requires OwnKeys(entries).Ok? && i < |entries|
    ensures entries[i].key.ScalarKey?
  {
    if i < |entries| - 1 {
      NoOtherKey(entries[..|entries| - 1], i);
    }
  }

  /**
   Converts a document from its root: exactly if it has a finite sound unfolding within the
   limits, and then to what the root means, of no more values than the limit and nested no
   deeper. What an error says is true of the document.
  */
  method ConvertDocument(x: Context, root: nat) returns (r: Result<Value, YamlError>)
    requires IsDocument(x) && root < |x.graph|
    ensures r.Ok? ==> Means(x, x.maxNodes, root, r.value)
    ensures r.Ok? ==> Size(r.value) <= x.maxNodes && FitsDepth(r.value, x.maxDepth)
    ensures r.Ok? <==> IsConvertible(x, root)
    ensures r.Err? ==> IsTrueOf(x, root, r.error, x.maxDepth, x.maxNodes)
  {
    var converter := new Converter(x);
    r := converter.Node(root, 0);
    ConvertsExactly(x, root);
    if r.Ok? {
      NodeMeans(x, root, 0, 0, x.maxNodes);
      NodeSize(x, root, 0, 0);
      NodeFits(x, root, 0, 0);
    } else {
      NodeError(x, root, 0, 0);
    }
  }
}
