/** The topology diff stream (internal/streaming/diff.go) and a client that replays it. */
module TopoDiff {
  import opened Reals

  datatype Node = Node(id: string, load: real, lastSeen: int)

  datatype Edge = Edge(source: string, target: string, weight: real, callRate: real)

  datatype Snapshot = Snapshot(nodes: seq<Node>, edges: seq<Edge>)

  datatype Diff = Diff(
    addedNodes: seq<Node>, removedNodeIds: seq<string>, updatedNodes: seq<Node>,
    addedEdges: seq<Edge>, removedEdgeKeys: seq<string>, updatedEdges: seq<Edge>,
    isFull: bool)

  const NO_DIFF := Diff([], [], [], [], [], [], false)

  function NodeKey(): Node -> string {
    (n: Node) => n.id
  }

  function EdgeKey(): Edge -> string {
    (e: Edge) => e.source + ":" + e.target
  }

  function Load(): Node -> real {
    (n: Node) => n.load
  }

  function Weight(): Edge -> real {
    (e: Edge) => e.weight
  }

  function FullDiff(curr: Snapshot): Diff {
    Diff(curr.nodes, [], [], curr.edges, [], [], true)
  }

  /** Entering `items` into a map one after the other: the last one of a key wins. */
  function Enter<T>(m: map<string, T>, items: seq<T>, key: T -> string): map<string, T> {
    if items == [] then m
    else Enter(m, items[..|items| - 1], key)[key(items[|items| - 1]) := items[|items| - 1]]
  }

  function ByKey<T>(items: seq<T>, key: T -> string): map<string, T> {
    Enter(map[], items, key)
  }

  predicate WellKeyed<T(!new)>(m: map<string, T>, key: T -> string) {
    forall k <- m :: key(m[k]) == k
  }

  lemma {:induction false} EnterWellKeyed<T(!new)>(m: map<string, T>, items: seq<T>, key: T -> string)
    requires WellKeyed(m, key)
    ensures WellKeyed(Enter(m, items, key), key)
  {
    if items != [] {
      EnterWellKeyed(m, items[..|items| - 1], key);
    }
  }

  // ---------------------------------------------------------------------------------------
  // Comparing two maps
  // ---------------------------------------------------------------------------------------

  function AddedKeys<T>(prev: map<string, T>, curr: map<string, T>): set<string> {
    set k <- curr | k !in prev
  }

  function RemovedKeys<T>(prev: map<string, T>, curr: map<string, T>): set<string> {
    set k <- prev | k !in curr
  }

  /** Keys of both whose value changed by more than 2%. */
  function UpdatedKeys<T>(prev: map<string, T>, curr: map<string, T>, value: T -> real): set<string> {
    set k <- curr | k in prev && Abs(value(curr[k]) - value(prev[k])) > 0.02
  }

  /** `items` are the values of `m` at `keys`, each once, in some order. */
  ghost predicate Lists<T(!new)>(items: seq<T>, m: map<string, T>, keys: set<string>, key: T -> string) {
    && |items| == |keys| && keys <= m.Keys
    && (forall i | 0 <= i < |items| :: key(items[i]) in keys && m[key(items[i])] == items[i])
    && (forall k <- keys :: m[k] in items)
  }

  /** `ids` are the members of `keys`, each once, in some order. */
  ghost predicate Names(ids: seq<string>, keys: set<string>) {
    |ids| == |keys| && forall k :: k in ids <==> k in keys
  }

  lemma ListsStep<T(!new)>(items: seq<T>, m: map<string, T>, keys: set<string>, todo: set<string>,
                           key: T -> string, k: string)
    requires Lists(items, m, keys - todo, key) && WellKeyed(m, key) && k in m && k in todo
    ensures Lists(if k in keys then items + [m[k]] else items, m, keys - (todo - {k}), key)
  {
    if k in keys {
      assert keys - (todo - {k}) == keys - todo + {k};
      assert m[k] in items + [m[k]];
    } else {
      assert keys - (todo - {k}) == keys - todo;
    }
  }

  lemma NamesStep(ids: seq<string>, keys: set<string>, todo: set<string>, k: string)
    requires Names(ids, keys - todo) && k in todo
    ensures Names(if k in keys then ids + [k] else ids, keys - (todo - {k}))
  {
    if k in keys {
      assert keys - (todo - {k}) == keys - todo + {k};
    } else {
      assert keys - (todo - {k}) == keys - todo;
    }
  }

  lemma AllDone(keys: set<string>, todo: set<string>)
    ensures keys <= todo ==> keys - todo == {}
    ensures todo == {} ==> keys - todo == keys
  {
  }

  method Compare<T(!new)>(prev: map<string, T>, curr: map<string, T>, key: T -> string, value: T -> real)
    returns (added: seq<T>, updated: seq<T>, removed: seq<string>)
    requires WellKeyed(curr, key)
    ensures Lists(added, curr, AddedKeys(prev, curr), key)
    ensures Lists(updated, curr, UpdatedKeys(prev, curr, value), key)
    ensures Names(removed, RemovedKeys(prev, curr))
  {
    added, updated := [], [];
    ghost var adds, updates := AddedKeys(prev, curr), UpdatedKeys(prev, curr, value);
    var todo := curr.Keys;
    AllDone(adds, todo);
    AllDone(updates, todo);
    while todo != {}
      invariant todo <= curr.Keys
      invariant Lists(added, curr, adds - todo, key)
      invariant Lists(updated, curr, updates - todo, key)
      decreases todo
    {
      var k :| k in todo;
      ListsStep(added, curr, adds, todo, key, k);
      ListsStep(updated, curr, updates, todo, key, k);
      if k !in prev {
        added := added + [curr[k]];
      } else if Abs(value(curr[k]) - value(prev[k])) > 0.02 {
        updated := updated + [curr[k]];
      }
      todo := todo - {k};
    }
    AllDone(adds, todo);
    AllDone(updates, todo);
    removed := Gone(prev, curr);
  }

  method Gone<T>(prev: map<string, T>, curr: map<string, T>) returns (removed: seq<string>)
    ensures Names(removed, RemovedKeys(prev, curr))
  {
    removed := [];
    ghost var gone := RemovedKeys(prev, curr);
    var todo := prev.Keys;
    AllDone(gone, todo);
    while todo != {}
      invariant todo <= prev.Keys && Names(removed, gone - todo)
      decreases todo
    {
      var k :| k in todo;
      NamesStep(removed, gone, todo, k);
      if k !in curr {
        removed := removed + [k];
      }
      todo := todo - {k};
    }
    AllDone(gone, todo);
  }

  // ---------------------------------------------------------------------------------------
  // The diff
  // ---------------------------------------------------------------------------------------

  function NodesOf(s: Snapshot): map<string, Node> {
    ByKey(s.nodes, NodeKey())
  }

  function EdgesOf(s: Snapshot): map<string, Edge> {
    ByKey(s.edges, EdgeKey())
  }

  /** How many nodes appeared, disappeared or changed. */
  function Changes(prev: Snapshot, curr: Snapshot): nat {
    var p, c := NodesOf(prev), NodesOf(curr);
    |AddedKeys(p, c)| + |RemovedKeys(p, c)| + |UpdatedKeys(p, c, Load())|
  }

  predicate NeedsFull(prev: Snapshot, curr: Snapshot) {
    prev.nodes == [] || Changes(prev, curr) > |curr.nodes| / 2
  }

  /** The keys that appeared, disappeared or changed their value by more than 2%. */
  function ChangedKeys<T>(prev: map<string, T>, curr: map<string, T>, value: T -> real): set<string> {
    set k | k in prev.Keys + curr.Keys && (k !in prev || k !in curr || Abs(value(curr[k]) - value(prev[k])) > 0.02)
  }

  lemma ChangedAreThree<T>(prev: map<string, T>, curr: map<string, T>, value: T -> real)
    ensures ChangedKeys(prev, curr, value)
         == AddedKeys(prev, curr) + RemovedKeys(prev, curr) + UpdatedKeys(prev, curr, value)
    ensures |ChangedKeys(prev, curr, value)|
         == |AddedKeys(prev, curr)| + |RemovedKeys(prev, curr)| + |UpdatedKeys(prev, curr, value)|
  {
    var added, removed, updated := AddedKeys(prev, curr), RemovedKeys(prev, curr), UpdatedKeys(prev, curr, value);
    assert added !! removed && added + removed !! updated;
  }

  function ChangedIds(prev: Snapshot, curr: Snapshot): set<string> {
    ChangedKeys(NodesOf(prev), NodesOf(curr), Load())
  }

  function ChangedEdges(prev: Snapshot, curr: Snapshot): set<string> {
    ChangedKeys(EdgesOf(prev), EdgesOf(curr), Weight())
  }

  ghost predicate IsIncremental(prev: Snapshot, curr: Snapshot, d: Diff) {
    && !d.isFull
    && Lists(d.addedNodes, NodesOf(curr), AddedKeys(NodesOf(prev), NodesOf(curr)), NodeKey())
    && Lists(d.updatedNodes, NodesOf(curr), UpdatedKeys(NodesOf(prev), NodesOf(curr), Load()), NodeKey())
    && Names(d.removedNodeIds, RemovedKeys(NodesOf(prev), NodesOf(curr)))
    && Lists(d.addedEdges, EdgesOf(curr), AddedKeys(EdgesOf(prev), EdgesOf(curr)), EdgeKey())
    && Lists(d.updatedEdges, EdgesOf(curr), UpdatedKeys(EdgesOf(prev), EdgesOf(curr), Weight()), EdgeKey())
    && Names(d.removedEdgeKeys, RemovedKeys(EdgesOf(prev), EdgesOf(curr)))
  }

  ghost predicate IsDiff(prev: Snapshot, curr: Snapshot, d: Diff) {
    if NeedsFull(prev, curr) then d == FullDiff(curr) else IsIncremental(prev, curr, d)
  }

  /** A full diff is sent exactly when nothing was known, or more than half of the nodes changed. */
  lemma FullIffMostChanged(prev: Snapshot, curr: Snapshot, d: Diff)
    requires IsDiff(prev, curr, d)
    ensures d.isFull <==> prev.nodes == [] || 2 * |ChangedIds(prev, curr)| > |curr.nodes|
  {
    ChangedAreThree(NodesOf(prev), NodesOf(curr), Load());
  }

  /** The three lists of a comparison are empty exactly when no key changed. */
  lemma EmptyLists<T(!new)>(prev: map<string, T>, curr: map<string, T>, key: T -> string, value: T -> real,
                            added: seq<T>, updated: seq<T>, removed: seq<string>)
    requires Lists(added, curr, AddedKeys(prev, curr), key)
    requires Lists(updated, curr, UpdatedKeys(prev, curr, value), key)
    requires Names(removed, RemovedKeys(prev, curr))
    ensures added == [] && updated == [] && removed == [] <==> ChangedKeys(prev, curr, value) == {}
  {
    ChangedAreThree(prev, curr, value);
  }

  /** The diff is empty exactly when something was known and nothing has changed since. */
  lemma EmptyIffUnchanged(prev: Snapshot, curr: Snapshot, d: Diff)
    requires IsDiff(prev, curr, d)
    ensures d == NO_DIFF <==> prev.nodes != [] && ChangedIds(prev, curr) == {} && ChangedEdges(prev, curr) == {}
  {
    FullIffMostChanged(prev, curr, d);
    if !d.isFull {
      EmptyLists(NodesOf(prev), NodesOf(curr), NodeKey(), Load(), d.addedNodes, d.updatedNodes, d.removedNodeIds);
      EmptyLists(EdgesOf(prev), EdgesOf(curr), EdgeKey(), Weight(), d.addedEdges, d.updatedEdges, d.removedEdgeKeys);
    }
  }

  method Lookup<T(!new)>(items: seq<T>, key: T -> string) returns (m: map<string, T>)
    ensures m == ByKey(items, key) && WellKeyed(m, key)
  {
    m := map[];
    for i := 0 to |items|
      invariant m == ByKey(items[..i], key)
    {
      assert items[..i + 1][..i] == items[..i];
      m := m[key(items[i]) := items[i]];
    }
    assert items[..|items|] == items;
    EnterWellKeyed(map[], items, key);
  }

  method ComputeTopologyDiff(prev: Snapshot, curr: Snapshot) returns (d: Diff)
    ensures IsDiff(prev, curr, d)
  {
    if |prev.nodes| == 0 {
      return FullDiff(curr);
    }
    var prevNodes := Lookup(prev.nodes, NodeKey());
    var currNodes := Lookup(curr.nodes, NodeKey());
    var addedNodes, updatedNodes, removedNodes := Compare(prevNodes, currNodes, NodeKey(), Load());
    var prevEdges := Lookup(prev.edges, EdgeKey());
    var currEdges := Lookup(curr.edges, EdgeKey());
    var addedEdges, updatedEdges, removedEdges := Compare(prevEdges, currEdges, EdgeKey(), Weight());
    var totalChanges := |addedNodes| + |removedNodes| + |updatedNodes|;
    if totalChanges > |curr.nodes| / 2 {
      return FullDiff(curr);
    }
    d := Diff(addedNodes, removedNodes, updatedNodes, addedEdges, removedEdges, updatedEdges, false);
  }

  // ---------------------------------------------------------------------------------------
  // A client that replays the stream
  // ---------------------------------------------------------------------------------------

  datatype Client = Client(nodes: map<string, Node>, edges: map<string, Edge>)

  function Without<T>(m: map<string, T>, ids: seq<string>): map<string, T> {
    map k <- m | k !in ids :: m[k]
  }

  function Patch<T>(m: map<string, T>, added: seq<T>, updated: seq<T>, removed: seq<string>,
                    key: T -> string): map<string, T> {
    Without(Enter(Enter(m, added, key), updated, key), removed)
  }

  function Replay(c: Client, d: Diff): Client {
    if d.isFull then Client(ByKey(d.addedNodes, NodeKey()), ByKey(d.addedEdges, EdgeKey()))
    else Client(Patch(c.nodes, d.addedNodes, d.updatedNodes, d.removedNodeIds, NodeKey()),
                Patch(c.edges, d.addedEdges, d.updatedEdges, d.removedEdgeKeys, EdgeKey()))
  }

  lemma {:induction false} EnterIs<T(!new)>(m: map<string, T>, items: seq<T>, key: T -> string, k: string)
    ensures k in Enter(m, items, key) <==> k in m || exists i :: 0 <= i < |items| && key(items[i]) == k
    ensures k in Enter(m, items, key) ==>
        (exists i :: 0 <= i < |items| && key(items[i]) == k && Enter(m, items, key)[k] == items[i])
        || (k in m && Enter(m, items, key)[k] == m[k] && forall i | 0 <= i < |items| :: key(items[i]) != k)
  {
    if items != [] {
      var n := |items| - 1;
      EnterIs(m, items[..n], key, k);
      if key(items[n]) != k {
        assert forall i | 0 <= i < n :: items[..n][i] == items[i];
      }
    }
  }

  /** Entering listed items sets exactly the listed keys. */
  lemma EnterLists<T(!new)>(m: map<string, T>, items: seq<T>, curr: map<string, T>, keys: set<string>,
                            key: T -> string, k: string)
    requires Lists(items, curr, keys, key) && WellKeyed(curr, key)
    ensures k in Enter(m, items, key) <==> k in m || k in keys
    ensures k in Enter(m, items, key) ==> Enter(m, items, key)[k] == if k in keys then curr[k] else m[k]
  {
    EnterIs(m, items, key, k);
    if k in keys {
      assert curr[k] in items;
    }
  }

  /** How far the replayed map may be from the true one after `n` incremental diffs. */
  ghost predicate Close<T(!new)>(mine: map<string, T>, truth: map<string, T>, value: T -> real, n: nat) {
    mine.Keys == truth.Keys && forall k <- truth :: Abs(value(mine[k]) - value(truth[k])) <= 0.02 * n as real
  }

  lemma PatchKeepsClose<T(!new)>(mine: map<string, T>, prev: map<string, T>, curr: map<string, T>, key: T -> string,
                                 value: T -> real, n: nat, added: seq<T>, updated: seq<T>, removed: seq<string>)
    requires Close(mine, prev, value, n) && WellKeyed(curr, key)
    requires Lists(added, curr, AddedKeys(prev, curr), key)
    requires Lists(updated, curr, UpdatedKeys(prev, curr, value), key)
    requires Names(removed, RemovedKeys(prev, curr))
    ensures Close(Patch(mine, added, updated, removed, key), curr, value, n + 1)
  {
    var one := Enter(mine, added, key);
    var two := Enter(one, updated, key);
    var out := Patch(mine, added, updated, removed, key);
    forall k
      ensures k in out <==> k in curr
      ensures k in curr ==> Abs(value(out[k]) - value(curr[k])) <= 0.02 * (n + 1) as real
    {
      EnterLists(mine, added, curr, AddedKeys(prev, curr), key, k);
      EnterLists(one, updated, curr, UpdatedKeys(prev, curr, value), key, k);
      assert k in removed <==> k in RemovedKeys(prev, curr);
    }
  }

  /** What the server has sent last, what the client has, and the incremental diffs since the last
      full one. */
  datatype Stream = Stream(sent: Snapshot, client: Client, incremental: nat)

  const START := Stream(Snapshot([], []), Client(map[], map[]), 0)

  ghost predicate InStep(s: Stream) {
    && Close(s.client.nodes, NodesOf(s.sent), Load(), s.incremental)
    && Close(s.client.edges, EdgesOf(s.sent), Weight(), s.incremental)
  }

  /** One tick: with a snapshot, a diff against the last one sent goes out; a skipped tick sends an
      empty diff and keeps the last snapshot. */
  datatype Tick = Diffed(curr: Snapshot, d: Diff) | Skipped

  ghost predicate Allowed(s: Stream, t: Tick) {
    t.Diffed? ==> IsDiff(s.sent, t.curr, t.d)
  }

  function Next(s: Stream, t: Tick): Stream {
    match t
    case Skipped => s.(client := Replay(s.client, NO_DIFF))
    case Diffed(curr, d) => Stream(curr, Replay(s.client, d), if d.isFull then 0 else s.incremental + 1)
  }

  lemma TickKeepsInStep(s: Stream, t: Tick)
    requires InStep(s) && Allowed(s, t)
    ensures InStep(Next(s, t))
  {
    match t
    case Skipped =>
      assert Patch(s.client.nodes, [], [], [], NodeKey()) == s.client.nodes;
      assert Patch(s.client.edges, [], [], [], EdgeKey()) == s.client.edges;
    case Diffed(curr, d) =>
      if !NeedsFull(s.sent, curr) {
        EnterWellKeyed(map[], curr.nodes, NodeKey());
        EnterWellKeyed(map[], curr.edges, EdgeKey());
        PatchKeepsClose(s.client.nodes, NodesOf(s.sent), NodesOf(curr), NodeKey(), Load(), s.incremental,
                        d.addedNodes, d.updatedNodes, d.removedNodeIds);
        PatchKeepsClose(s.client.edges, EdgesOf(s.sent), EdgesOf(curr), EdgeKey(), Weight(), s.incremental,
                        d.addedEdges, d.updatedEdges, d.removedEdgeKeys);
      }
  }

  ghost predicate AllAllowed(s: Stream, ticks: seq<Tick>)
    decreases |ticks|
  {
    ticks == [] || (Allowed(s, ticks[0]) && AllAllowed(Next(s, ticks[0]), ticks[1..]))
  }

  function After(s: Stream, ticks: seq<Tick>): Stream
    decreases |ticks|
  {
    if ticks == [] then s else After(Next(s, ticks[0]), ticks[1..])
  }

  lemma {:induction false} StreamKeepsInStep(s: Stream, ticks: seq<Tick>)
    requires InStep(s) && AllAllowed(s, ticks)
    ensures InStep(After(s, ticks))
    decreases |ticks|
  {
    if ticks != [] {
      TickKeepsInStep(s, ticks[0]);
      StreamKeepsInStep(Next(s, ticks[0]), ticks[1..]);
    }
  }

  /** After any stream of ticks the client has exactly the node and edge keys last sent, and every
      load and weight is off by at most 0.02 per incremental diff since the last full one. */
  lemma ClientInStep(ticks: seq<Tick>)
    requires AllAllowed(START, ticks)
    ensures WithinDrift(After(START, ticks))
  {
    StreamKeepsInStep(START, ticks);
    InStepMeans(After(START, ticks));
  }

  ghost predicate WithinDrift(s: Stream) {
    && s.client.nodes.Keys == NodesOf(s.sent).Keys && s.client.edges.Keys == EdgesOf(s.sent).Keys
    && (forall k <- s.client.nodes ::
          Abs(s.client.nodes[k].load - NodesOf(s.sent)[k].load) <= 0.02 * s.incremental as real)
    && (forall k <- s.client.edges ::
          Abs(s.client.edges[k].weight - EdgesOf(s.sent)[k].weight) <= 0.02 * s.incremental as real)
  }

  lemma InStepMeans(s: Stream)
    requires InStep(s)
    ensures WithinDrift(s)
  {
  }

  // ---------------------------------------------------------------------------------------
  // Edge keys
  // ---------------------------------------------------------------------------------------

  predicate SameEnds(e: Edge, f: Edge) {
    e.source == f.source && e.target == f.target
  }

  /** The source of `f` is that of `e`, a colon and more; what more there is, followed by a colon,
      is how the target of `e` begins. */
  predicate Overlap(e: Edge, f: Edge) {
    var n := |e.source|;
    && n < |f.source| && f.source[..n + 1] == e.source + ":"
    && e.target == f.source[n + 1..] + ":" + f.target
  }

  lemma OverlapShares(e: Edge, f: Edge)
    requires Overlap(e, f)
    ensures EdgeKey()(e) == EdgeKey()(f) && !SameEnds(e, f)
  {
    var u := f.source[|e.source| + 1..];
    assert f.source == e.source + ":" + u;
    assert e.source + ":" + (u + ":" + f.target) == e.source + ":" + u + ":" + f.target;
  }

  lemma SharedKeyOverlaps(e: Edge, f: Edge)
    requires EdgeKey()(e) == EdgeKey()(f) && |e.source| < |f.source|
    ensures Overlap(e, f)
  {
    var k, n := EdgeKey()(e), |e.source|;
    assert f.source == k[..|f.source|] && e.source == k[..n] && k[n] == ':';
    assert k[n + 1..] == e.target && k[|f.source|] == ':' && k[|f.source| + 1..] == f.target;
    assert k[n + 1..] == k[n + 1..|f.source|] + [k[|f.source|]] + k[|f.source| + 1..];
  }

  /** Exactly when two edges have the same key. */
  lemma KeysCollideIff(e: Edge, f: Edge)
    ensures EdgeKey()(e) == EdgeKey()(f) <==> SameEnds(e, f) || Overlap(e, f) || Overlap(f, e)
  {
    if EdgeKey()(e) == EdgeKey()(f) {
      var k := EdgeKey()(e);
      if |e.source| < |f.source| {
        SharedKeyOverlaps(e, f);
      } else if |f.source| < |e.source| {
        SharedKeyOverlaps(f, e);
      } else {
        assert e.source == k[..|e.source|] && f.source == k[..|e.source|];
        assert e.target == k[|e.source| + 1..] && f.target == k[|e.source| + 1..];
      }
    }
    if Overlap(e, f) {
      OverlapShares(e, f);
    }
    if Overlap(f, e) {
      OverlapShares(f, e);
    }
  }

  /** Edges from services without a colon in their ID have a key of their own. */
  lemma EdgeKeyInjective(e: Edge, f: Edge)
    requires ':' !in e.source && ':' !in f.source && EdgeKey()(e) == EdgeKey()(f)
    ensures SameEnds(e, f)
  {
    KeysCollideIff(e, f);
    if Overlap(e, f) {
      OverlapHasColon(e, f);
    }
    if Overlap(f, e) {
      OverlapHasColon(f, e);
    }
  }

  lemma OverlapHasColon(e: Edge, f: Edge)
    requires Overlap(e, f)
    ensures ':' in f.source
  {
    assert f.source[..|e.source| + 1][|e.source|] == ':';
  }

  function Between(s: string, t: string): Edge {
    Edge(s, t, 0.0, 0.0)
  }

  /** What can be checked of a set of service IDs before any edge is drawn. */
  predicate NoOverlaps(ids: set<string>) {
    forall s, t, s', t' | s in ids && t in ids && s' in ids && t' in ids ::
      !Overlap(Between(s, t), Between(s', t'))
  }

  predicate KeysAreUnique(ids: set<string>) {
    forall s, t, s', t' | s in ids && t in ids && s' in ids && t' in ids ::
      EdgeKey()(Between(s, t)) == EdgeKey()(Between(s', t')) ==> s == s' && t == t'
  }

  /** Among the services of a set every edge has its own key if and only if no two edges overlap. */
  lemma UniqueKeysIff(ids: set<string>)
    ensures KeysAreUnique(ids) <==> NoOverlaps(ids)
  {
    forall s, t, s', t' | s in ids && t in ids && s' in ids && t' in ids
      ensures NoOverlaps(ids) && EdgeKey()(Between(s, t)) == EdgeKey()(Between(s', t')) ==> s == s' && t == t'
      ensures KeysAreUnique(ids) ==> !Overlap(Between(s, t), Between(s', t'))
    {
      KeysCollideIff(Between(s, t), Between(s', t'));
      if Overlap(Between(s, t), Between(s', t')) {
        OverlapShares(Between(s, t), Between(s', t'));
      }
    }
  }

  predicate DifferentEnds(edges: seq<Edge>) {
    forall i, j | 0 <= i < j < |edges| :: !SameEnds(edges[i], edges[j])
  }

  /** The lookup map knows the edge. */
  predicate IsKnown(m: map<string, Edge>, e: Edge) {
    EdgeKey()(e) in m && m[EdgeKey()(e)] == e
  }

  lemma {:induction false} EnterKnows(edges: seq<Edge>, i: nat)
    requires i < |edges| && forall j | 0 <= j < |edges| && j != i :: EdgeKey()(edges[j]) != EdgeKey()(edges[i])
    ensures IsKnown(ByKey(edges, EdgeKey()), edges[i])
  {
    var n := |edges| - 1;
    if i < n {
      EnterKnows(edges[..n], i);
    }
  }

  /** The diff knows all the edges of a snapshot if and only if no two of them overlap. */
  lemma AllEdgesKnownIff(edges: seq<Edge>)
    requires DifferentEnds(edges)
    ensures (forall i | 0 <= i < |edges| :: IsKnown(ByKey(edges, EdgeKey()), edges[i]))
       <==> forall i, j | 0 <= i < |edges| && 0 <= j < |edges| :: !Overlap(edges[i], edges[j])
  {
    if i, j :| 0 <= i < |edges| && 0 <= j < |edges| && Overlap(edges[i], edges[j]) {
      OverlapShares(edges[i], edges[j]);
      assert !IsKnown(ByKey(edges, EdgeKey()), edges[i]) || !IsKnown(ByKey(edges, EdgeKey()), edges[j]);
    } else {
      forall i | 0 <= i < |edges|
        ensures IsKnown(ByKey(edges, EdgeKey()), edges[i])
      {
        forall j | 0 <= j < |edges| && j != i
          ensures EdgeKey()(edges[j]) != EdgeKey()(edges[i])
        {
          KeysCollideIff(edges[i], edges[j]);
        }
        EnterKnows(edges, i);
      }
    }
  }

  /** Colons are legal in service IDs, and then two edges can overlap: of two such edges the diff
      only knows the one listed last. */
  lemma ColonsCollide(e: Edge, f: Edge)
    requires e.source == "a:b" && e.target == "c" && f.source == "a" && f.target == "b:c"
    ensures Overlap(f, e) && !KeysAreUnique({"a", "b:c", "a:b", "c"})
    ensures EdgesOf(Snapshot([], [e, f])) == map["a:b:c" := f]
  {
    assert e.source[..2] == f.source + ":" && e.source[2..] == "b" && "b" + ":" + e.target == f.target;
    OverlapShares(f, e);
    assert EdgeKey()(Between("a:b", "c")) == EdgeKey()(Between("a", "b:c"));
    var k := "a:b:c";
    assert "a:b" + ":" + "c" == k && "a" + ":" + "b:c" == k;
    assert [e, f][..1] == [e] && [e][..0] == [];
    var none: map<string, Edge> := map[];
    assert Enter(none, [], EdgeKey()) == none;
    assert Enter(none, [e], EdgeKey()) == none[k := e];
    assert Enter(none, [e, f], EdgeKey()) == none[k := e][k := f];
  }
}
