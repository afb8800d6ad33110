/**
 Converting a parsed YAML document to JSON. The document is a graph: aliases share
 nodes and may form cycles, so the conversion counts the values it makes.
*/
module YamlConvert {
  import opened Wrappers
  import opened Json

  // ---- Documents ----

  datatype Key = ScalarKey(tag: string, text: string) | OtherKey

  datatype Entry = Entry(key: Key, value: nat)

  datatype Node =
    | Scalar(tag: string, text: string)
    | Sequence(items: seq<nat>)
    | Mapping(entries: seq<Entry>)
    | NullNode

  /** The document, the limits, and the resolution of scalars. */
  datatype Context = Context(
    graph: seq<Node>,
    scalar: (string, string) -> Result<Json, string>,
    maxDepth: nat,
    maxNodes: nat)

  predicate IsDocument(x: Context) {
    && (forall n, i :: 0 <= n < |x.graph| && x.graph[n].Sequence? && 0 <= i < |x.graph[n].items| ==>
          x.graph[n].items[i] < |x.graph|)
    && (forall n, i :: 0 <= n < |x.graph| && x.graph[n].Mapping? && 0 <= i < |x.graph[n].entries| ==>
          x.graph[n].entries[i].value < |x.graph|)
  }

  /** A plain `<<`. */
  predicate IsMergeKey(key: Key) {
    key == ScalarKey("?", "<<")
  }

  // ---- Values ----

  datatype Value = Atom(value: Json) | List(elems: seq<Value>) | Object(members: seq<Member>)

  datatype Member = Member(key: string, value: Value)

  function Size(v: Value): (n: nat)
    ensures n > 0
    decreases v
  {
    match v
    case Atom(_) => 1
    case List(elems) => 1 + SizeOfAll(elems)
    case Object(members) => 1 + SizeOfMembers(members)
  }

  function SizeOfAll(elems: seq<Value>): nat
    decreases elems
  {
    if elems == [] then 0 else SizeOfAll(elems[..|elems| - 1]) + Size(elems[|elems| - 1])
  }

  function SizeOfMembers(members: seq<Member>): nat
    decreases members
  {
    if members == [] then 0
    else SizeOfMembers(members[..|members| - 1]) + Size(members[|members| - 1].value)
  }

  /** The value nests containers at most this deep. */
  predicate FitsDepth(v: Value, depth: nat)
    decreases v
  {
    match v
    case Atom(_) => true
    case List(elems) => depth > 0 && forall i :: 0 <= i < |elems| ==> FitsDepth(elems[i], depth - 1)
    case Object(members) => depth > 0 && forall i :: 0 <= i < |members| ==> FitsDepth(members[i].value, depth - 1)
  }

  // ---- The conversion ----

  datatype YamlError =
    | TooLarge
    | TooDeep
    | BadScalar(message: string)
    | KeyNotScalar
    | DuplicateKey(key: string)
    | BadMergeSource

  /** A value, and the count of values made so far. */
  datatype Converted = Converted(value: Value, nodes: nat)

  /** A mapping while its members are collected. */
  datatype Partial = Partial(members: seq<Member>, merged: set<string>, nodes: nat)

  /** The keys a mapping sets itself, or what is wrong with them. */
  function OwnKeys(entries: seq<Entry>): Result<set<string>, YamlError> {
    if entries == [] then Ok({})
    else
      var last := entries[|entries| - 1];
      match OwnKeys(entries[..|entries| - 1])
      case Err(error) => Err(error)
      case Ok(own) =>
        if last.key.OtherKey? then Err(KeyNotScalar)
        else if IsMergeKey(last.key) then Ok(own)
        else if last.key.text in own then Err(DuplicateKey(last.key.text))
        else Ok(own + {last.key.text})
  }

  function SourcesOf(x: Context, n: nat): seq<nat>
    requires n < |x.graph|
  {
    if x.graph[n].Sequence? then x.graph[n].items else [n]
  }

  /** Members of a merge source that neither the mapping nor an earlier source has set. */
  function Merge(own: set<string>, p: Partial, from: seq<Member>): (r: Partial)
    ensures r.nodes == p.nodes
  {
    if from == [] then p
    else
      var q := Merge(own, p, from[..|from| - 1]);
      var m := from[|from| - 1];
      if m.key in own || m.key in q.merged then q
      else q.(members := q.members + [m], merged := q.merged + {m.key})
  }

  lemma {:induction false} MergeSize(own: set<string>, p: Partial, from: seq<Member>)
    ensures SizeOfMembers(Merge(own, p, from).members) <= SizeOfMembers(p.members) + SizeOfMembers(from)
  {
    if from != [] {
      MergeSize(own, p, from[..|from| - 1]);
      SizeOfMember(Merge(own, p, from[..|from| - 1]).members, from[|from| - 1]);
    }
  }

  function ConvertNode(x: Context, n: nat, depth: nat, nodes: nat): (r: Result<Converted, YamlError>)
    requires IsDocument(x) && n < |x.graph| && nodes <= x.maxNodes
    ensures r.Ok? ==> nodes < r.value.nodes <= x.maxNodes
    ensures r.Ok? && x.graph[n].Mapping? ==> r.value.value.Object?
    decreases x.maxNodes - nodes, 0, 0
  {
    if nodes + 1 > x.maxNodes then Err(TooLarge)
    else
      match x.graph[n]
      case Scalar(tag, text) =>
        (match x.scalar(tag, text)
         case Ok(value) => Ok(Converted(Atom(value), nodes + 1))
         case Err(message) => Err(BadScalar(message)))
      case NullNode => Ok(Converted(Atom(Null), nodes + 1))
      case Sequence(items) =>
        if depth + 1 > x.maxDepth then Err(TooDeep)
        else ConvertItems(x, items, depth + 1, nodes + 1)
      case Mapping(entries) =>
        if depth + 1 > x.maxDepth then Err(TooDeep)
        else
          match OwnKeys(entries)
          case Err(error) => Err(error)
          case Ok(own) =>
            match ConvertEntries(x, own, entries, depth + 1, nodes + 1)
            case Err(error) => Err(error)
            case Ok(p) => Ok(Converted(Object(p.members), p.nodes))
  }

  /** The items one after the other, as a list. */
  function ConvertItems(x: Context, items: seq<nat>, depth: nat, nodes: nat): (r: Result<Converted, YamlError>)
    requires IsDocument(x) && nodes <= x.maxNodes
    requires forall i :: 0 <= i < |items| ==> items[i] < |x.graph|
    ensures r.Ok? ==> nodes <= r.value.nodes <= x.maxNodes && r.value.value.List?
    decreases x.maxNodes - nodes, 1, |items|
  {
    if items == [] then Ok(Converted(List([]), nodes))
    else
      match ConvertItems(x, items[..|items| - 1], depth, nodes)
      case Err(error) => Err(error)
      case Ok(before) =>
        match ConvertNode(x, items[|items| - 1], depth, before.nodes)
        case Err(error) => Err(error)
        case Ok(item) => Ok(Converted(List(before.value.elems + [item.value]), item.nodes))
  }

  /** The entries one after the other; `depth` is the mapping's own level. */
  function ConvertEntries(x: Context, own: set<string>, entries: seq<Entry>, depth: nat, nodes: nat)
    : (r: Result<Partial, YamlError>)
    requires IsDocument(x) && nodes <= x.maxNodes && depth > 0
    requires forall i :: 0 <= i < |entries| ==> entries[i].value < |x.graph|
    ensures r.Ok? ==> nodes <= r.value.nodes <= x.maxNodes
    decreases x.maxNodes - nodes, 2, |entries|
  {
    if entries == [] then Ok(Partial([], {}, nodes))
    else
      var last := entries[|entries| - 1];
      match ConvertEntries(x, own, entries[..|entries| - 1], depth, nodes)
      case Err(error) => Err(error)
      case Ok(p) =>
        if IsMergeKey(last.key) then
          MergeSources(x, own, SourcesOf(x, last.value), p, depth)
        else if last.key.OtherKey? then Err(KeyNotScalar)
        else
          match ConvertNode(x, last.value, depth, p.nodes)
          case Err(error) => Err(error)
          case Ok(c) => Ok(p.(members := p.members + [Member(last.key.text, c.value)], nodes := c.nodes))
  }

  /** Merges sources one after the other; each sits at the mapping's own level. */
  function MergeSources(x: Context, own: set<string>, sources: seq<nat>, p: Partial, depth: nat)
    : (r: Result<Partial, YamlError>)
    requires IsDocument(x) && p.nodes <= x.maxNodes && depth > 0
    requires forall i :: 0 <= i < |sources| ==> sources[i] < |x.graph|
    ensures r.Ok? ==> p.nodes <= r.value.nodes <= x.maxNodes
    decreases x.maxNodes - p.nodes, 1, |sources|
  {
    if sources == [] then Ok(p)
    else
      var source := sources[|sources| - 1];
      match MergeSources(x, own, sources[..|sources| - 1], p, depth)
      case Err(error) => Err(error)
      case Ok(q) =>
        if !x.graph[source].Mapping? then Err(BadMergeSource)
        else
          match ConvertNode(x, source, depth - 1, q.nodes)
          case Err(error) => Err(error)
          case Ok(c) => Ok(Merge(own, q.(nodes := c.nodes), c.value.members))
  }

  // ---- Bounds ----

  lemma SizeOfAppend(elems: seq<Value>, v: Value)
    ensures SizeOfAll(elems + [v]) == SizeOfAll(elems) + Size(v)
  {
    assert (elems + [v])[..|elems|] == elems;
  }

  lemma SizeOfMember(members: seq<Member>, m: Member)
    ensures SizeOfMembers(members + [m]) == SizeOfMembers(members) + Size(m.value)
  {
    assert (members + [m])[..|members|] == members;
  }

  /** The values of a conversion are among those counted. */
  lemma {:induction false} NodeSize(x: Context, n: nat, depth: nat, nodes: nat)
    requires IsDocument(x) && n < |x.graph| && nodes <= x.maxNodes
    requires ConvertNode(x, n, depth, nodes).Ok?
    ensures Size(ConvertNode(x, n, depth, nodes).value.value) <= ConvertNode(x, n, depth, nodes).value.nodes - nodes
    decreases x.maxNodes - nodes, 0, 0
  {
    match x.graph[n]
    case Sequence(items) => ItemsSize(x, items, depth + 1, nodes + 1);
    case Mapping(entries) => EntriesSize(x, OwnKeys(entries).value, entries, depth + 1, nodes + 1);
    case _ =>
  }

  lemma {:induction false} ItemsSize(x: Context, items: seq<nat>, depth: nat, nodes: nat)
    requires IsDocument(x) && nodes <= x.maxNodes
    requires forall i :: 0 <= i < |items| ==> items[i] < |x.graph|
    requires ConvertItems(x, items, depth, nodes).Ok?
    ensures var c := ConvertItems(x, items, depth, nodes).value;
            SizeOfAll(c.value.elems) <= c.nodes - nodes
    decreases x.maxNodes - nodes, 1, |items|
  {
    if items != [] {
      ItemsSize(x, items[..|items| - 1], depth, nodes);
      var before := ConvertItems(x, items[..|items| - 1], depth, nodes).value;
      NodeSize(x, items[|items| - 1], depth, before.nodes);
      SizeOfAppend(before.value.elems, ConvertNode(x, items[|items| - 1], depth, before.nodes).value.value);
    }
  }

  lemma {:induction false} EntriesSize(x: Context, own: set<string>, entries: seq<Entry>, depth: nat, nodes: nat)
    requires IsDocument(x) && nodes <= x.maxNodes && depth > 0
    requires forall i :: 0 <= i < |entries| ==> entries[i].value < |x.graph|
    requires ConvertEntries(x, own, entries, depth, nodes).Ok?
    ensures var p := ConvertEntries(x, own, entries, depth, nodes).value;
            SizeOfMembers(p.members) <= p.nodes - nodes
    decreases x.maxNodes - nodes, 2, |entries|
  {
    if entries != [] {
      var last := entries[|entries| - 1];
      EntriesSize(x, own, entries[..|entries| - 1], depth, nodes);
      var p := ConvertEntries(x, own, entries[..|entries| - 1], depth, nodes).value;
      if IsMergeKey(last.key) {
        SourcesSize(x, own, SourcesOf(x, last.value), p, depth);
      } else {
        NodeSize(x, last.value, depth, p.nodes);
        SizeOfMember(p.members, Member(last.key.text, ConvertNode(x, last.value, depth, p.nodes).value.value));
      }
    }
  }

  lemma {:induction false} SourcesSize(x: Context, own: set<string>, sources: seq<nat>, p: Partial, depth: nat)
    requires IsDocument(x) && p.nodes <= x.maxNodes && depth > 0
    requires forall i :: 0 <= i < |sources| ==> sources[i] < |x.graph|
    requires MergeSources(x, own, sources, p, depth).Ok?
    ensures var r := MergeSources(x, own, sources, p, depth).value;
            SizeOfMembers(r.members) <= SizeOfMembers(p.members) + (r.nodes - p.nodes)
    decreases x.maxNodes - p.nodes, 1, |sources|
  {
    if sources != [] {
      var source := sources[|sources| - 1];
      SourcesSize(x, own, sources[..|sources| - 1], p, depth);
      var q := MergeSources(x, own, sources[..|sources| - 1], p, depth).value;
      NodeSize(x, source, depth - 1, q.nodes);
      var c := ConvertNode(x, source, depth - 1, q.nodes).value;
      MergeSize(own, q.(nodes := c.nodes), c.value.members);
    }
  }

  ghost predicate AllFit(members: seq<Member>, depth: nat) {
    forall i :: 0 <= i < |members| ==> FitsDepth(members[i].value, depth)
  }

  lemma {:induction false} MergeFits(own: set<string>, p: Partial, from: seq<Member>, depth: nat)
    requires AllFit(p.members, depth) && AllFit(from, depth)
    ensures AllFit(Merge(own, p, from).members, depth)
  {
    if from != [] {
      MergeFits(own, p, from[..|from| - 1], depth);
    }
  }

  /** No conversion nests deeper than the limit allows from where it stands. */
  lemma {:induction false} NodeFits(x: Context, n: nat, depth: nat, nodes: nat)
    requires IsDocument(x) && n < |x.graph| && nodes <= x.maxNodes && depth <= x.maxDepth
    requires ConvertNode(x, n, depth, nodes).Ok?
    ensures FitsDepth(ConvertNode(x, n, depth, nodes).value.value, x.maxDepth - depth)
    decreases x.maxNodes - nodes, 0, 0
  {
    match x.graph[n]
    case Sequence(items) => ItemsFit(x, items, depth + 1, nodes + 1);
    case Mapping(entries) => EntriesFit(x, OwnKeys(entries).value, entries, depth + 1, nodes + 1);
    case _ =>
  }

  lemma {:induction false} ItemsFit(x: Context, items: seq<nat>, depth: nat, nodes: nat)
    requires IsDocument(x) && nodes <= x.maxNodes && depth <= x.maxDepth
    requires forall i :: 0 <= i < |items| ==> items[i] < |x.graph|
    requires ConvertItems(x, items, depth, nodes).Ok?
    ensures var elems := ConvertItems(x, items, depth, nodes).value.value.elems;
            forall i :: 0 <= i < |elems| ==> FitsDepth(elems[i], x.maxDepth - depth)
    decreases x.maxNodes - nodes, 1, |items|
  {
    if items != [] {
      ItemsFit(x, items[..|items| - 1], depth, nodes);
      var before := ConvertItems(x, items[..|items| - 1], depth, nodes).value;
      NodeFits(x, items[|items| - 1], depth, before.nodes);
    }
  }

  lemma {:induction false} EntriesFit(x: Context, own: set<string>, entries: seq<Entry>, depth: nat, nodes: nat)
    requires IsDocument(x) && nodes <= x.maxNodes && 0 < depth <= x.maxDepth
    requires forall i :: 0 <= i < |entries| ==> entries[i].value < |x.graph|
    requires ConvertEntries(x, own, entries, depth, nodes).Ok?
    ensures AllFit(ConvertEntries(x, own, entries, depth, nodes).value.members, x.maxDepth - depth)
    decreases x.maxNodes - nodes, 2, |entries|
  {
    if entries != [] {
      var last := entries[|entries| - 1];
      EntriesFit(x, own, entries[..|entries| - 1], depth, nodes);
      var p := ConvertEntries(x, own, entries[..|entries| - 1], depth, nodes).value;
      if IsMergeKey(last.key) {
        SourcesFit(x, own, SourcesOf(x, last.value), p, depth);
      } else {
        NodeFits(x, last.value, depth, p.nodes);
      }
    }
  }

  lemma {:induction false} SourcesFit(x: Context, own: set<string>, sources: seq<nat>, p: Partial, depth: nat)
    requires IsDocument(x) && p.nodes <= x.maxNodes && 0 < depth <= x.maxDepth
    requires forall i :: 0 <= i < |sources| ==> sources[i] < |x.graph|
    requires AllFit(p.members, x.maxDepth - depth) && MergeSources(x, own, sources, p, depth).Ok?
    ensures AllFit(MergeSources(x, own, sources, p, depth).value.members, x.maxDepth - depth)
    decreases x.maxNodes - p.nodes, 1, |sources|
  {
    if sources != [] {
      var source := sources[|sources| - 1];
      SourcesFit(x, own, sources[..|sources| - 1], p, depth);
      var q := MergeSources(x, own, sources[..|sources| - 1], p, depth).value;
      NodeFits(x, source, depth - 1, q.nodes);
      var c := ConvertNode(x, source, depth - 1, q.nodes).value;
      MergeFits(own, q.(nodes := c.nodes), c.value.members, x.maxDepth - depth);
    }
  }

  // ---- What a document means ----

  /** The value of the key the entries set themselves. */
  function OwnNode(entries: seq<Entry>, key: string): (r: Option<nat>)
    ensures r.Some? ==> exists i :: 0 <= i < |entries| && entries[i].value == r.value
  {
    if entries == [] then None
    else
      var last := entries[|entries| - 1];
      if last.key.ScalarKey? && !IsMergeKey(last.key) && last.key.text == key then Some(last.value)
      else OwnNode(entries[..|entries| - 1], key)
  }

  /** The merge sources of the entries, in order. */
  function AllSources(x: Context, entries: seq<Entry>): (r: seq<nat>)
    requires IsDocument(x) && forall i :: 0 <= i < |entries| ==> entries[i].value < |x.graph|
    ensures forall i :: 0 <= i < |r| ==> r[i] < |x.graph|
  {
    if entries == [] then []
    else
      var last := entries[|entries| - 1];
      AllSources(x, entries[..|entries| - 1]) + if IsMergeKey(last.key) then SourcesOf(x, last.value) else []
  }

  /**
   The node whose value a key of mapping n has: its own if it sets the key, else that
   of the first merge source that has the key. `fuel` bounds the merges followed.
  */
  function KeyNode(x: Context, n: nat, key: string, fuel: nat): (r: Option<nat>)
    requires IsDocument(x) && n < |x.graph|
    ensures r.Some? ==> r.value < |x.graph|
    decreases fuel, 0
  {
    if fuel == 0 || !x.graph[n].Mapping? then None
    else if OwnNode(x.graph[n].entries, key).Some? then OwnNode(x.graph[n].entries, key)
    else FirstSource(x, AllSources(x, x.graph[n].entries), key, fuel - 1)
  }

  function FirstSource(x: Context, sources: seq<nat>, key: string, fuel: nat): (r: Option<nat>)
    requires IsDocument(x) && forall i :: 0 <= i < |sources| ==> sources[i] < |x.graph|
    ensures r.Some? ==> r.value < |x.graph|
    decreases fuel, 1 + |sources|
  {
    if sources == [] then None
    else
      var earlier := FirstSource(x, sources[..|sources| - 1], key, fuel);
      if earlier.Some? then earlier else KeyNode(x, sources[|sources| - 1], key, fuel)
  }

  ghost predicate HasKey(members: seq<Member>, key: string) {
    exists i :: 0 <= i < |members| && members[i].key == key
  }

  ghost predicate DistinctKeys(members: seq<Member>) {
    forall i, j :: 0 <= i < j < |members| ==> members[i].key != members[j].key
  }

  /** v is what node n stands for. */
  ghost predicate Means(x: Context, fuel: nat, n: nat, v: Value)
    requires IsDocument(x) && n < |x.graph|
    decreases v
  {
    match x.graph[n]
    case Scalar(tag, text) => v.Atom? && x.scalar(tag, text) == Ok(v.value)
    case NullNode => v == Atom(Null)
    case Sequence(items) =>
      && v.List? && |v.elems| == |items|
      && forall i :: 0 <= i < |items| ==> Means(x, fuel, items[i], v.elems[i])
    case Mapping(entries) =>
      && v.Object? && DistinctKeys(v.members)
      && (forall key :: HasKey(v.members, key) <==> KeyNode(x, n, key, fuel).Some?)
      && forall i :: 0 <= i < |v.members| ==>
           && KeyNode(x, n, v.members[i].key, fuel).Some?
           && Means(x, fuel, KeyNode(x, n, v.members[i].key, fuel).value, v.members[i].value)
  }

  lemma {:induction false} FirstOfConcat(x: Context, a: seq<nat>, b: seq<nat>, key: string, fuel: nat)
    requires IsDocument(x)
    requires forall i :: 0 <= i < |a| ==> a[i] < |x.graph|
    requires forall i :: 0 <= i < |b| ==> b[i] < |x.graph|
    ensures FirstSource(x, a + b, key, fuel) ==
            if FirstSource(x, a, key, fuel).Some? then FirstSource(x, a, key, fuel) else FirstSource(x, b, key, fuel)
  {
    if b == [] {
      assert a + b == a;
    } else {
      assert (a + b)[..|a + b| - 1] == a + b[..|b| - 1];
      FirstOfConcat(x, a, b[..|b| - 1], key, fuel);
    }
  }

  lemma BothAreStable(x: Context, a: seq<nat>, b: seq<nat>, key: string, fuel: nat)
    requires IsDocument(x)
    requires forall i :: 0 <= i < |a| ==> a[i] < |x.graph|
    requires forall i :: 0 <= i < |b| ==> b[i] < |x.graph|
    requires FirstSource(x, a, key, fuel) == FirstSource(x, a, key, fuel + 1)
    requires FirstSource(x, b, key, fuel) == FirstSource(x, b, key, fuel + 1)
    ensures FirstSource(x, a + b, key, fuel) == FirstSource(x, a + b, key, fuel + 1)
  {
    FirstOfConcat(x, a, b, key, fuel);
    FirstOfConcat(x, a, b, key, fuel + 1);
  }

  // ---- A conversion that succeeds has followed all the merges there are ----

  lemma {:induction false} KeysAreStable(x: Context, n: nat, depth: nat, nodes: nat, fuel: nat, key: string)
    requires IsDocument(x) && n < |x.graph| && nodes <= x.maxNodes
    requires ConvertNode(x, n, depth, nodes).Ok? && fuel >= x.maxNodes - nodes
    ensures KeyNode(x, n, key, fuel) == KeyNode(x, n, key, fuel + 1)
    decreases x.maxNodes - nodes, 0, 0
  {
    if x.graph[n].Mapping? {
      var entries := x.graph[n].entries;
      EntriesAreStable(x, OwnKeys(entries).value, entries, depth + 1, nodes + 1, fuel - 1, key);
    }
  }

  lemma {:induction false} EntriesAreStable(
    x: Context, own: set<string>, entries: seq<Entry>, depth: nat, nodes: nat, fuel: nat, key: string)
    requires IsDocument(x) && nodes <= x.maxNodes && depth > 0
    requires forall i :: 0 <= i < |entries| ==> entries[i].value < |x.graph|
    requires ConvertEntries(x, own, entries, depth, nodes).Ok? && fuel >= x.maxNodes - nodes
    ensures FirstSource(x, AllSources(x, entries), key, fuel) == FirstSource(x, AllSources(x, entries), key, fuel + 1)
    decreases x.maxNodes - nodes, 2, |entries|
  {
    if entries != [] {
      var front, last := entries[..|entries| - 1], entries[|entries| - 1];
      EntriesAreStable(x, own, front, depth, nodes, fuel, key);
      if IsMergeKey(last.key) {
        var p := ConvertEntries(x, own, front, depth, nodes).value;
        SourcesAreStable(x, own, SourcesOf(x, last.value), p, depth, fuel, key);
        BothAreStable(x, AllSources(x, front), SourcesOf(x, last.value), key, fuel);
      } else {
        assert AllSources(x, entries) == AllSources(x, front);
      }
    }
  }

  lemma {:induction false} SourcesAreStable(
    x: Context, own: set<string>, sources: seq<nat>, p: Partial, depth: nat, fuel: nat, key: string)
    requires IsDocument(x) && p.nodes <= x.maxNodes && depth > 0
    requires forall i :: 0 <= i < |sources| ==> sources[i] < |x.graph|
    requires MergeSources(x, own, sources, p, depth).Ok? && fuel >= x.maxNodes - p.nodes
    ensures FirstSource(x, sources, key, fuel) == FirstSource(x, sources, key, fuel + 1)
    decreases x.maxNodes - p.nodes, 1, |sources|
  {
    if sources != [] {
      var front := sources[..|sources| - 1];
      SourcesAreStable(x, own, front, p, depth, fuel, key);
      var q := MergeSources(x, own, front, p, depth).value;
      KeysAreStable(x, sources[|sources| - 1], depth - 1, q.nodes, fuel, key);
    }
  }

  // ---- A conversion that succeeds gives what the document means ----

  lemma {:induction false} OwnKeysAreOwn(entries: seq<Entry>, key: string)
    requires OwnKeys(entries).Ok?
    ensures key in OwnKeys(entries).value <==> OwnNode(entries, key).Some?
  {
    if entries != [] {
      OwnKeysAreOwn(entries[..|entries| - 1], key);
    }
  }

  /** The node the key's value is to come from, once these entries and sources have been met. */
  function Origin(x: Context, own: set<string>, entries: seq<Entry>, sources: seq<nat>, key: string, fuel: nat)
    : (r: Option<nat>)
    requires IsDocument(x)
    requires forall i :: 0 <= i < |entries| ==> entries[i].value < |x.graph|
    requires forall i :: 0 <= i < |sources| ==> sources[i] < |x.graph|
    ensures r.Some? ==> r.value < |x.graph|
  {
    if key in own then OwnNode(entries, key) else FirstSource(x, sources, key, fuel)
  }

  /** The members collected so far: a member for each key that has an origin, and what it means. */
  ghost predicate Collected(
    x: Context, own: set<string>, entries: seq<Entry>, sources: seq<nat>, fuel: nat, p: Partial)
    requires IsDocument(x)
    requires forall i :: 0 <= i < |entries| ==> entries[i].value < |x.graph|
    requires forall i :: 0 <= i < |sources| ==> sources[i] < |x.graph|
  {
    && DistinctKeys(p.members)
    && (forall key :: HasKey(p.members, key) <==> Origin(x, own, entries, sources, key, fuel).Some?)
    && (forall key :: key in p.merged <==> key !in own && HasKey(p.members, key))
    && (forall i :: 0 <= i < |p.members| ==> MemberMeans(x, own, entries, sources, fuel, p.members[i]))
  }

  ghost predicate MemberMeans(
    x: Context, own: set<string>, entries: seq<Entry>, sources: seq<nat>, fuel: nat, m: Member)
    requires IsDocument(x)
    requires forall i :: 0 <= i < |entries| ==> entries[i].value < |x.graph|
    requires forall i :: 0 <= i < |sources| ==> sources[i] < |x.graph|
  {
    && Origin(x, own, entries, sources, m.key, fuel).Some?
    && Means(x, fuel + 1, Origin(x, own, entries, sources, m.key, fuel).value, m.value)
  }

  lemma HasKeyOfAppend(members: seq<Member>, m: Member, key: string)
    ensures HasKey(members + [m], key) <==> HasKey(members, key) || m.key == key
  {
    var more := members + [m];
    assert more[|members|] == m;
    if i :| 0 <= i < |members| && members[i].key == key {
      assert more[i].key == key;
    }
  }

  /** What merging adds: the members of keys neither own nor merged before. */
  ghost predicate IsMerged(own: set<string>, p: Partial, from: seq<Member>, r: Partial) {
    && DistinctKeys(r.members)
    && (forall key :: HasKey(r.members, key) <==> HasKey(p.members, key) || (key !in own && HasKey(from, key)))
    && (forall key :: key in r.merged <==> key !in own && HasKey(r.members, key))
    && p.members <= r.members
    && (forall i :: |p.members| <= i < |r.members| ==>
          r.members[i] in from && r.members[i].key !in own && !HasKey(p.members, r.members[i].key))
  }

  lemma {:induction false} MergeIs(own: set<string>, p: Partial, from: seq<Member>)
    requires DistinctKeys(p.members)
    requires forall key :: key in p.merged <==> key !in own && HasKey(p.members, key)
    ensures IsMerged(own, p, from, Merge(own, p, from))
  {
    if from != [] {
      var front, m := from[..|from| - 1], from[|from| - 1];
      MergeIs(own, p, front);
      var q := Merge(own, p, front);
      assert from == front + [m];
      forall key ensures HasKey(from, key) <==> HasKey(front, key) || m.key == key {
        HasKeyOfAppend(front, m, key);
      }
      if m.key !in own && m.key !in q.merged {
        forall key ensures HasKey(q.members + [m], key) <==> HasKey(q.members, key) || m.key == key {
          HasKeyOfAppend(q.members, m, key);
        }
      }
    }
  }

  lemma SourceAdds(
    x: Context, own: set<string>, entries: seq<Entry>, sources: seq<nat>, s: nat, fuel: nat,
    p: Partial, from: seq<Member>)
    requires IsDocument(x) && s < |x.graph|
    requires forall i :: 0 <= i < |entries| ==> entries[i].value < |x.graph|
    requires forall i :: 0 <= i < |sources| ==> sources[i] < |x.graph|
    requires Collected(x, own, entries, sources, fuel, p)
    requires forall key :: HasKey(from, key) <==> KeyNode(x, s, key, fuel).Some?
    requires forall m :: m in from ==> KeyNode(x, s, m.key, fuel).Some?
    requires forall m :: m in from ==> Means(x, fuel + 1, KeyNode(x, s, m.key, fuel).value, m.value)
    ensures Collected(x, own, entries, sources + [s], fuel, Merge(own, p, from))
  {
    var r := Merge(own, p, from);
    MergeIs(own, p, from);
    assert (sources + [s])[..|sources|] == sources;
    forall i | 0 <= i < |r.members| ensures MemberMeans(x, own, entries, sources + [s], fuel, r.members[i]) {
      var m := r.members[i];
      if i < |p.members| {
        assert MemberMeans(x, own, entries, sources, fuel, p.members[i]);
      } else {
        assert FirstSource(x, sources, m.key, fuel).None? by {
          assert Origin(x, own, entries, sources, m.key, fuel).None?;
        }
      }
    }
  }

  lemma AppendLast(done: seq<nat>, sources: seq<nat>)
    requires sources != []
    ensures done + sources == done + sources[..|sources| - 1] + [sources[|sources| - 1]]
  {
  }

  lemma {:induction false} SourcesCollect(
    x: Context, own: set<string>, entries: seq<Entry>, done: seq<nat>, sources: seq<nat>,
    p: Partial, depth: nat, fuel: nat)
    requires IsDocument(x) && p.nodes <= x.maxNodes && depth > 0
    requires forall i :: 0 <= i < |entries| ==> entries[i].value < |x.graph|
    requires forall i :: 0 <= i < |done| ==> done[i] < |x.graph|
    requires forall i :: 0 <= i < |sources| ==> sources[i] < |x.graph|
    requires MergeSources(x, own, sources, p, depth).Ok? && fuel >= x.maxNodes - p.nodes
    requires Collected(x, own, entries, done, fuel, p)
    ensures Collected(x, own, entries, done + sources, fuel, MergeSources(x, own, sources, p, depth).value)
    decreases x.maxNodes - p.nodes, 1, |sources|
  {
    if sources == [] {
      assert done + sources == done;
    } else {
      var front, s := sources[..|sources| - 1], sources[|sources| - 1];
      SourcesCollect(x, own, entries, done, front, p, depth, fuel);
      var q := MergeSources(x, own, front, p, depth).value;
      var from := ConvertNode(x, s, depth - 1, q.nodes).value;
      SourceMeans(x, s, depth - 1, q.nodes, fuel);
      SourceAdds(x, own, entries, done + front, s, fuel, q.(nodes := from.nodes), from.value.members);
      AppendLast(done, sources);
    }
  }

  /** A merge source's members, and where they come from. */
  lemma {:induction false} SourceMeans(x: Context, s: nat, depth: nat, nodes: nat, fuel: nat)
    requires IsDocument(x) && s < |x.graph| && x.graph[s].Mapping? && nodes <= x.maxNodes
    requires ConvertNode(x, s, depth, nodes).Ok? && fuel >= x.maxNodes - nodes
    ensures var from := ConvertNode(x, s, depth, nodes).value.value.members;
      && (forall key :: HasKey(from, key) <==> KeyNode(x, s, key, fuel).Some?)
      && (forall m :: m in from ==> KeyNode(x, s, m.key, fuel).Some?)
      && (forall m :: m in from ==> Means(x, fuel + 1, KeyNode(x, s, m.key, fuel).value, m.value))
    decreases x.maxNodes - nodes, 0, 1
  {
    var v := ConvertNode(x, s, depth, nodes).value.value;
    NodeMeans(x, s, depth, nodes, fuel);
    NodeMeans(x, s, depth, nodes, fuel + 1);
    forall m | m in v.members
      ensures KeyNode(x, s, m.key, fuel).Some? && Means(x, fuel + 1, KeyNode(x, s, m.key, fuel).value, m.value)
    {
      KeysAreStable(x, s, depth, nodes, fuel, m.key);
    }
  }

  /** Entries that set the same keys, and sources that are the same. */
  lemma SameOrigins(
    x: Context, own: set<string>, a: seq<Entry>, b: seq<Entry>, sources: seq<nat>, fuel: nat, p: Partial)
    requires IsDocument(x)
    requires forall i :: 0 <= i < |a| ==> a[i].value < |x.graph|
    requires forall i :: 0 <= i < |b| ==> b[i].value < |x.graph|
    requires forall i :: 0 <= i < |sources| ==> sources[i] < |x.graph|
    requires forall key :: OwnNode(a, key) == OwnNode(b, key)
    requires Collected(x, own, a, sources, fuel, p)
    ensures Collected(x, own, b, sources, fuel, p)
  {
    forall key ensures Origin(x, own, a, sources, key, fuel) == Origin(x, own, b, sources, key, fuel) {
    }
    forall i | 0 <= i < |p.members| ensures MemberMeans(x, own, b, sources, fuel, p.members[i]) {
      assert MemberMeans(x, own, a, sources, fuel, p.members[i]);
    }
  }

  /** An entry of the mapping's own adds its member. */
  lemma OwnAdds(
    x: Context, own: set<string>, front: seq<Entry>, last: Entry, sources: seq<nat>, fuel: nat,
    p: Partial, c: Converted)
    requires IsDocument(x) && last.value < |x.graph|
    requires forall i :: 0 <= i < |front| ==> front[i].value < |x.graph|
    requires forall i :: 0 <= i < |sources| ==> sources[i] < |x.graph|
    requires last.key.ScalarKey? && !IsMergeKey(last.key) && last.key.text in own && OwnNode(front, last.key.text).None?
    requires Collected(x, own, front, sources, fuel, p) && Means(x, fuel + 1, last.value, c.value)
    ensures Collected(x, own, front + [last], sources, fuel,
                      p.(members := p.members + [Member(last.key.text, c.value)], nodes := c.nodes))
  {
    var entries, m := front + [last], Member(last.key.text, c.value);
    var members := p.members + [m];
    assert entries[..|front|] == front;
    forall key ensures OwnNode(entries, key) == if key == m.key then Some(last.value) else OwnNode(front, key) {
    }
    assert !HasKey(p.members, m.key) by {
      assert Origin(x, own, front, sources, m.key, fuel).None?;
    }
    forall key ensures HasKey(members, key) <==> HasKey(p.members, key) || m.key == key {
      HasKeyOfAppend(p.members, m, key);
    }
    forall i | 0 <= i < |members| ensures MemberMeans(x, own, entries, sources, fuel, members[i]) {
      if i < |p.members| {
        assert MemberMeans(x, own, front, sources, fuel, p.members[i]);
        assert HasKey(p.members, p.members[i].key);
      }
    }
  }

  lemma {:induction false} EntriesCollect(
    x: Context, own: set<string>, entries: seq<Entry>, depth: nat, nodes: nat, fuel: nat)
    requires IsDocument(x) && nodes <= x.maxNodes && depth > 0
    requires forall i :: 0 <= i < |entries| ==> entries[i].value < |x.graph|
    requires ConvertEntries(x, own, entries, depth, nodes).Ok? && fuel >= x.maxNodes - nodes
    requires OwnKeys(entries).Ok? && OwnKeys(entries).value <= own
    ensures Collected(x, own, entries, AllSources(x, entries), fuel,
                      ConvertEntries(x, own, entries, depth, nodes).value)
    decreases x.maxNodes - nodes, 2, |entries|
  {
    if entries != [] {
      var front, last := entries[..|entries| - 1], entries[|entries| - 1];
      EntriesCollect(x, own, front, depth, nodes, fuel);
      var p := ConvertEntries(x, own, front, depth, nodes).value;
      if IsMergeKey(last.key) {
        SameOrigins(x, own, front, entries, AllSources(x, front), fuel, p);
        SourcesCollect(x, own, entries, AllSources(x, front), SourcesOf(x, last.value), p, depth, fuel);
      } else {
        var c := ConvertNode(x, last.value, depth, p.nodes).value;
        NodeMeans(x, last.value, depth, p.nodes, fuel + 1);
        OwnKeysAreOwn(front, last.key.text);
        OwnAdds(x, own, front, last, AllSources(x, front), fuel, p, c);
        assert entries == front + [last] && AllSources(x, entries) == AllSources(x, front);
      }
    }
  }

  lemma {:induction false} ItemsMean(x: Context, items: seq<nat>, depth: nat, nodes: nat, fuel: nat)
    requires IsDocument(x) && nodes <= x.maxNodes
    requires forall i :: 0 <= i < |items| ==> items[i] < |x.graph|
    requires ConvertItems(x, items, depth, nodes).Ok? && fuel >= x.maxNodes - nodes
    ensures var elems := ConvertItems(x, items, depth, nodes).value.value.elems;
            |elems| == |items| && forall i :: 0 <= i < |items| ==> Means(x, fuel, items[i], elems[i])
    decreases x.maxNodes - nodes, 1, |items|
  {
    if items != [] {
      var front := items[..|items| - 1];
      ItemsMean(x, front, depth, nodes, fuel);
      var before := ConvertItems(x, front, depth, nodes).value;
      NodeMeans(x, items[|items| - 1], depth, before.nodes, fuel);
    }
  }

  /**
   A conversion that succeeds gives what the document means: lists item by item, and
   each mapping with distinct keys, its own winning over merged ones and an earlier
   merge source over a later one.
  */
  lemma {:induction false} NodeMeans(x: Context, n: nat, depth: nat, nodes: nat, fuel: nat)
    requires IsDocument(x) && n < |x.graph| && nodes <= x.maxNodes
    requires ConvertNode(x, n, depth, nodes).Ok? && fuel >= x.maxNodes - nodes
    ensures Means(x, fuel, n, ConvertNode(x, n, depth, nodes).value.value)
    decreases x.maxNodes - nodes, 0, 0
  {
    match x.graph[n]
    case Sequence(items) => ItemsMean(x, items, depth + 1, nodes + 1, fuel);
    case Mapping(entries) =>
      var own := OwnKeys(entries).value;
      EntriesCollect(x, own, entries, depth + 1, nodes + 1, fuel - 1);
      MappingMeans(x, n, fuel, ConvertEntries(x, own, entries, depth + 1, nodes + 1).value);
    case _ =>
  }

  lemma MappingMeans(x: Context, n: nat, fuel: nat, p: Partial)
    requires IsDocument(x) && n < |x.graph| && x.graph[n].Mapping? && fuel > 0
    requires OwnKeys(x.graph[n].entries).Ok?
    requires Collected(x, OwnKeys(x.graph[n].entries).value, x.graph[n].entries, AllSources(x, x.graph[n].entries),
                       fuel - 1, p)
    ensures Means(x, fuel, n, Object(p.members))
  {
    var entries := x.graph[n].entries;
    var own := OwnKeys(entries).value;
    forall key ensures KeyNode(x, n, key, fuel) == Origin(x, own, entries, AllSources(x, entries), key, fuel - 1) {
      OwnKeysAreOwn(entries, key);
    }
    forall i | 0 <= i < |p.members|
      ensures KeyNode(x, n, p.members[i].key, fuel).Some?
      ensures Means(x, fuel, KeyNode(x, n, p.members[i].key, fuel).value, p.members[i].value)
    {
      assert MemberMeans(x, own, entries, AllSources(x, entries), fuel - 1, p.members[i]);
    }
  }
}
