/** Two graph walks: the layered search `reachCount` (internal/modelling/topology_sensitivity.go) and
    the backtracking search `upstreamDepth` (internal/modelling/network.go). */
module Graphs {

  type Node = string

  /** Neighbours by node; a node without an entry has none. */
  type Adjacency = map<Node, seq<Node>>

  function Neighbours(adj: Adjacency, n: Node): seq<Node> {
    if n in adj then adj[n] else []
  }

  /** A walk along edges. */
  predicate IsWalk(adj: Adjacency, p: seq<Node>) {
    p != [] && forall i | 0 <= i < |p| - 1 :: p[i + 1] in Neighbours(adj, p[i])
  }

  /** `n` can be reached from `start` in at most `hops` hops. */
  ghost predicate WithinHops(adj: Adjacency, start: Node, n: Node, hops: int) {
    exists p :: IsWalk(adj, p) && p[0] == start && p[|p| - 1] == n && |p| - 1 <= hops
  }

  // ---------------------------------------------------------------------------------------
  // reachCount
  // ---------------------------------------------------------------------------------------

  lemma WalkSnoc(adj: Adjacency, p: seq<Node>, n: Node)
    requires IsWalk(adj, p) && n in Neighbours(adj, p[|p| - 1])
    ensures IsWalk(adj, p + [n])
  {
  }

  lemma StartWithin(adj: Adjacency, start: Node, hops: nat)
    ensures WithinHops(adj, start, start, hops)
  {
    assert IsWalk(adj, [start]);
  }

  lemma OneMoreHop(adj: Adjacency, start: Node, n: Node, m: Node, hops: int)
    requires WithinHops(adj, start, n, hops) && m in Neighbours(adj, n)
    ensures WithinHops(adj, start, m, hops + 1)
  {
    var p :| IsWalk(adj, p) && p[0] == start && p[|p| - 1] == n && |p| - 1 <= hops;
    WalkSnoc(adj, p, m);
    assert (p + [m])[0] == start && (p + [m])[|p|] == m;
  }

  lemma LastHop(adj: Adjacency, start: Node, m: Node, hops: int) returns (n: Node)
    requires WithinHops(adj, start, m, hops) && m != start
    ensures WithinHops(adj, start, n, hops - 1) && m in Neighbours(adj, n)
  {
    var p :| IsWalk(adj, p) && p[0] == start && p[|p| - 1] == m && |p| - 1 <= hops;
    var q := p[..|p| - 1];
    n := q[|q| - 1];
    forall i | 0 <= i < |q| - 1
      ensures q[i + 1] in Neighbours(adj, q[i])
    {
      assert p[i + 1] in Neighbours(adj, p[i]);
    }
    assert p[|p| - 2 + 1] in Neighbours(adj, p[|p| - 2]);
  }

  lemma MoreHops(adj: Adjacency, start: Node, n: Node, hops: int, more: int)
    requires WithinHops(adj, start, n, hops) && hops <= more
    ensures WithinHops(adj, start, n, more)
  {
    var p :| IsWalk(adj, p) && p[0] == start && p[|p| - 1] == n && |p| - 1 <= hops;
  }

  /** Between two layers: `visited` is exactly what lies within `depth` hops, and every neighbour of
      a visited node is visited, except perhaps those of the nodes in `queue`. */
  ghost predicate Layered(adj: Adjacency, start: Node, depth: nat, visited: set<Node>, queue: seq<Node>) {
    && (forall n :: n in visited <==> WithinHops(adj, start, n, depth))
    && (forall n <- queue :: n in visited)
    && (forall n, m | n in visited && n !in queue && m in Neighbours(adj, n) :: m in visited)
  }

  /** While a layer is expanded: `fresh` joins the visited nodes and is the next layer. */
  ghost predicate Expanding(adj: Adjacency, before: set<Node>, queue: seq<Node>, i: nat, j: nat,
                            visited: set<Node>, next: seq<Node>)
    requires i < |queue| ==> j <= |Neighbours(adj, queue[i])|
  {
    && (forall n :: n in visited <==> n in before || n in next)
    && (forall n <- next :: n !in before && exists k :: 0 <= k < |queue| && n in Neighbours(adj, queue[k]))
    && (forall k, m | 0 <= k < i && k < |queue| && m in Neighbours(adj, queue[k]) :: m in visited)
    && (i < |queue| ==> forall l | 0 <= l < j :: Neighbours(adj, queue[i])[l] in visited)
  }

  method ExpandLayer(adj: Adjacency, before: set<Node>, queue: seq<Node>) returns (visited: set<Node>, next: seq<Node>)
    ensures Expanding(adj, before, queue, |queue|, 0, visited, next)
  {
    visited, next := before, [];
    for i := 0 to |queue|
      invariant Expanding(adj, before, queue, i, 0, visited, next)
    {
      var nbs := Neighbours(adj, queue[i]);
      for j := 0 to |nbs|
        invariant Expanding(adj, before, queue, i, j, visited, next)
      {
        if nbs[j] !in visited {
          visited, next := visited + {nbs[j]}, next + [nbs[j]];
        }
      }
    }
  }

  lemma NextLayer(adj: Adjacency, start: Node, depth: nat, before: set<Node>, queue: seq<Node>,
                  visited: set<Node>, next: seq<Node>)
    requires Layered(adj, start, depth, before, queue)
    requires Expanding(adj, before, queue, |queue|, 0, visited, next)
    ensures Layered(adj, start, depth + 1, visited, next)
  {
    forall n
      ensures n in visited <==> WithinHops(adj, start, n, depth + 1)
    {
      if n in before {
        MoreHops(adj, start, n, depth, depth + 1);
      } else if n in next {
        var k :| 0 <= k < |queue| && n in Neighbours(adj, queue[k]);
        OneMoreHop(adj, start, queue[k], n, depth);
      } else if WithinHops(adj, start, n, depth + 1) {
        StartWithin(adj, start, depth);
        var m := LastHop(adj, start, n, depth + 1);
      }
    }
  }

  lemma NothingFurther(adj: Adjacency, start: Node, depth: nat, visited: set<Node>, n: Node, hops: int)
    requires Layered(adj, start, depth, visited, []) && WithinHops(adj, start, n, hops)
    ensures n in visited
    decreases hops
  {
    StartWithin(adj, start, depth);
    if n != start {
      var m := LastHop(adj, start, n, hops);
      var p :| IsWalk(adj, p) && p[0] == start && p[|p| - 1] == m && |p| - 1 <= hops - 1;
      NothingFurther(adj, start, depth, visited, m, hops - 1);
    }
  }

  /** `reached` is what lies within `maxDepth` hops of `start`, except `start` itself. */
  ghost predicate IsReach(adj: Adjacency, start: Node, maxDepth: int, reached: set<Node>) {
    forall n :: n in reached <==> n != start && WithinHops(adj, start, n, maxDepth)
  }

  /** The number of nodes other than `start` within `maxDepth` hops of it. */
  method ReachCount(start: Node, adj: Adjacency, maxDepth: int) returns (count: nat)
    ensures exists reached :: IsReach(adj, start, maxDepth, reached) && count == |reached|
  {
    var visited, queue, depth: nat := {start}, [start], 0;
    LayerZero(adj, start);
    while |queue| > 0 && depth < maxDepth
      invariant Layered(adj, start, depth, visited, queue) && start in visited
      invariant depth == 0 || depth <= maxDepth
      invariant depth == 0 ==> visited == {start}
      decreases maxDepth - depth
    {
      var visited', next := ExpandLayer(adj, visited, queue);
      NextLayer(adj, start, depth, visited, queue, visited', next);
      visited, queue, depth := visited', next, depth + 1;
    }
    count := |visited| - 1;
    ghost var reached := visited - {start};
    forall n
      ensures n in reached <==> n != start && WithinHops(adj, start, n, maxDepth)
    {
      if n in visited && depth <= maxDepth {
        MoreHops(adj, start, n, depth, maxDepth);
      }
      if WithinHops(adj, start, n, maxDepth) && n != start {
        if queue == [] {
          NothingFurther(adj, start, depth, visited, n, maxDepth);
        } else {
          MoreHops(adj, start, n, maxDepth, depth);
        }
      }
    }
    assert IsReach(adj, start, maxDepth, reached);
  }

  lemma LayerZero(adj: Adjacency, start: Node)
    ensures Layered(adj, start, 0, {start}, [start])
  {
    forall n
      ensures n in {start} <==> WithinHops(adj, start, n, 0)
    {
      if n == start {
        StartWithin(adj, start, 0);
      }
    }
  }

  // ---------------------------------------------------------------------------------------
  // upstreamDepth
  // ---------------------------------------------------------------------------------------

  /** The visited map the recursive calls share. */
  class Marks {
    var nodes: set<Node>

    constructor ()
      ensures nodes == {}
    {
      nodes := {};
    }
  }

  /** A chain of callers from `node`: at most `hops` hops, and all nodes but the last are unmarked and
      distinct. */
  predicate IsChain(callers: Adjacency, c: seq<Node>, node: Node, marked: set<Node>, hops: int) {
    && IsWalk(callers, c) && c[0] == node && |c| - 1 <= hops
    && (forall i | 0 <= i < |c| - 1 :: c[i] !in marked)
    && (forall i, j | 0 <= i < j < |c| - 1 :: c[i] != c[j])
  }

  /** The longest such chain has `n` hops. */
  ghost predicate LongestChain(callers: Adjacency, node: Node, marked: set<Node>, hops: int, n: int) {
    && (exists c :: IsChain(callers, c, node, marked, hops) && |c| - 1 == n)
    && (forall c | IsChain(callers, c, node, marked, hops) :: |c| - 1 <= n)
  }

  function Budget(depth: int, maxDepth: int): (hops: nat) {
    if maxDepth <= depth then 0 else maxDepth - depth
  }

  lemma ChainCons(callers: Adjacency, node: Node, s: Node, marked: set<Node>, hops: int, c: seq<Node>)
    requires node !in marked && s in Neighbours(callers, node)
    requires IsChain(callers, c, s, marked + {node}, hops - 1)
    ensures IsChain(callers, [node] + c, node, marked, hops)
  {
    var d := [node] + c;
    forall i | 0 <= i < |d| - 1
      ensures d[i + 1] in Neighbours(callers, d[i])
    {
      if i > 0 {
        assert c[i - 1 + 1] in Neighbours(callers, c[i - 1]);
      }
    }
  }

  lemma ChainTail(callers: Adjacency, node: Node, marked: set<Node>, hops: int, c: seq<Node>)
    requires IsChain(callers, c, node, marked, hops) && 1 < |c|
    ensures c[1] in Neighbours(callers, node)
    ensures IsChain(callers, c[1..], c[1], marked + {node}, hops - 1)
  {
    assert c[0 + 1] in Neighbours(callers, c[0]);
    var d := c[1..];
    forall i | 0 <= i < |d| - 1
      ensures d[i + 1] in Neighbours(callers, d[i])
    {
      assert c[i + 1 + 1] in Neighbours(callers, c[i + 1]);
    }
  }

  lemma NoHop(callers: Adjacency, node: Node, marked: set<Node>, hops: nat)
    requires hops == 0 || node in marked
    ensures LongestChain(callers, node, marked, hops, 0)
  {
    assert IsChain(callers, [node], node, marked, hops);
  }

  /** In the loop over the callers of `node`: `n` hops are possible, and the first `k` callers allow
      no more. */
  ghost predicate BestSoFar(callers: Adjacency, node: Node, marked: set<Node>, hops: nat, k: nat, n: int)
    requires k <= |Neighbours(callers, node)|
  {
    && 0 <= n && (exists c :: IsChain(callers, c, node, marked, hops) && |c| - 1 == n)
    && (forall j, c | 0 <= j < k
          && IsChain(callers, c, Neighbours(callers, node)[j], marked + {node}, hops - 1) :: |c| <= n)
  }

  lemma BestStep(callers: Adjacency, node: Node, marked: set<Node>, hops: nat, k: nat, n: int, m: int)
    requires k < |Neighbours(callers, node)| && BestSoFar(callers, node, marked, hops, k, n) && node !in marked
    requires LongestChain(callers, Neighbours(callers, node)[k], marked + {node}, hops - 1, m)
    ensures BestSoFar(callers, node, marked, hops, k + 1, if m + 1 > n then m + 1 else n)
  {
    if m + 1 > n {
      var s := Neighbours(callers, node)[k];
      var c :| IsChain(callers, c, s, marked + {node}, hops - 1) && |c| - 1 == m;
      ChainCons(callers, node, s, marked, hops, c);
    }
  }

  lemma BestIsLongest(callers: Adjacency, node: Node, marked: set<Node>, hops: nat, n: int)
    requires BestSoFar(callers, node, marked, hops, |Neighbours(callers, node)|, n)
    ensures LongestChain(callers, node, marked, hops, n)
  {
    forall c | IsChain(callers, c, node, marked, hops)
      ensures |c| - 1 <= n
    {
      if 1 < |c| {
        ChainTail(callers, node, marked, hops, c);
        var j :| 0 <= j < |Neighbours(callers, node)| && Neighbours(callers, node)[j] == c[1];
        assert IsChain(callers, c[1..], Neighbours(callers, node)[j], marked + {node}, hops - 1);
      }
    }
  }

  /** The marks come back as they were, and the result counts the hops of the longest chain. */
  method UpstreamDepth(node: Node, callers: Adjacency, visited: Marks, depth: int, maxDepth: int) returns (d: int)
    modifies visited
    ensures visited.nodes == old(visited.nodes)
    ensures LongestChain(callers, node, old(visited.nodes), Budget(depth, maxDepth), d - depth)
    decreases Budget(depth, maxDepth)
  {
    ghost var marked := visited.nodes;
    if depth >= maxDepth || node in visited.nodes {
      NoHop(callers, node, marked, Budget(depth, maxDepth));
      return depth;
    }
    visited.nodes := visited.nodes + {node};
    var best := depth;
    var nbs := Neighbours(callers, node);
    ghost var hops := Budget(depth, maxDepth);
    assert IsChain(callers, [node], node, marked, hops);
    for k := 0 to |nbs|
      invariant visited.nodes == marked + {node}
      invariant BestSoFar(callers, node, marked, hops, k, best - depth)
    {
      var e := UpstreamDepth(nbs[k], callers, visited, depth + 1, maxDepth);
      BestStep(callers, node, marked, hops, k, best - depth, e - (depth + 1));
      if e > best {
        best := e;
      }
    }
    BestIsLongest(callers, node, marked, hops, best - depth);
    visited.nodes := visited.nodes - {node};
    d := best;
  }
}
