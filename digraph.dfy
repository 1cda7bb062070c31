/** A directed graph with string labels, kept the way an insertion-ordered
    graph library keeps it: nodes in the order they were first added, edges
    in the order they were first added, no duplicate node and no duplicate
    edge. Besides the update operations it defines degrees, successor lists,
    walks, bounded reachability and a computable cycle test that is proved to
    agree with "the graph has a closed walk" and "the graph has a simple cycle". */
module Digraph {
  import opened Seqs

  datatype Graph = Graph(nodes: seq<string>, edges: seq<(string, string)>)

  /** Nodes and edges are each listed once, and both ends of every edge are nodes. */
  predicate Valid(g: Graph) {
    && NoDup(g.nodes)
    && NoDup(g.edges)
    && (forall e :: e in g.edges ==> e.0 in g.nodes && e.1 in g.nodes)
  }

  const Empty: Graph := Graph([], [])

  /** Adding a node that is already present changes nothing. */
  function AddNode(g: Graph, n: string): (r: Graph)
    requires Valid(g)
    ensures Valid(r)
    ensures r.edges == g.edges
    ensures r.nodes == if n in g.nodes then g.nodes else g.nodes + [n]
  {
    if n in g.nodes then g else Graph(g.nodes + [n], g.edges)
  }

  /** Adding an edge first adds its missing endpoints, source before target;
      an edge that is already present is not added again. */
  function AddEdge(g: Graph, u: string, v: string): (r: Graph)
    requires Valid(g)
    ensures Valid(r)
    ensures r.nodes == AddNode(AddNode(g, u), v).nodes
    ensures r.edges == if (u, v) in g.edges then g.edges else g.edges + [(u, v)]
    ensures (u, v) in r.edges
  {
    var h := AddNode(AddNode(g, u), v);
    if (u, v) in h.edges then h else Graph(h.nodes, h.edges + [(u, v)])
  }

  /** The targets of the edges leaving n, in the order those edges were added. */
  function Targets(edges: seq<(string, string)>, n: string): (r: seq<string>)
    ensures |r| <= |edges|
    ensures forall x :: x in r <==> (n, x) in edges
    decreases |edges|
  {
    if |edges| == 0 then []
    else
      var rest := Targets(edges[1..], n);
      assert forall x :: (n, x) in edges <==> (n, x) == edges[0] || (n, x) in edges[1..];
      if edges[0].0 == n then [edges[0].1] + rest else rest
  }

  /** The sources of the edges entering n, in the order those edges were added. */
  function Sources(edges: seq<(string, string)>, n: string): (r: seq<string>)
    ensures |r| <= |edges|
    ensures forall x :: x in r <==> (x, n) in edges
    decreases |edges|
  {
    if |edges| == 0 then []
    else
      var rest := Sources(edges[1..], n);
      assert forall x :: (x, n) in edges <==> (x, n) == edges[0] || (x, n) in edges[1..];
      if edges[0].1 == n then [edges[0].0] + rest else rest
  }

  function Successors(g: Graph, n: string): seq<string> { Targets(g.edges, n) }
  function Predecessors(g: Graph, n: string): seq<string> { Sources(g.edges, n) }

  /** Out-degree and in-degree count edges, so a self-loop adds one to each. */
  function OutDegree(g: Graph, n: string): nat { |Successors(g, n)| }
  function InDegree(g: Graph, n: string): nat { |Predecessors(g, n)| }

  /** Total degree, as the graph library counts it. */
  function Degree(g: Graph, n: string): nat { InDegree(g, n) + OutDegree(g, n) }

  /** A degree is zero exactly when no edge has n at the corresponding end. */
  lemma DegreeZero(g: Graph, n: string)
    ensures OutDegree(g, n) == 0 <==> forall x :: (n, x) !in g.edges
    ensures InDegree(g, n) == 0 <==> forall x :: (x, n) !in g.edges
  {
    if OutDegree(g, n) > 0 {
      assert Successors(g, n)[0] in Successors(g, n);
    }
    if InDegree(g, n) > 0 {
      assert Predecessors(g, n)[0] in Predecessors(g, n);
    }
  }

  /** A node with a count: one entry of a degree listing. */
  datatype NodeCount = NodeCount(node: string, count: nat)

  function CountKey(x: NodeCount): real { x.count as real }

  /** (node, in-degree) per node, in node order. */
  function InDegrees(g: Graph): seq<NodeCount> {
    seq(|g.nodes|, i requires 0 <= i < |g.nodes| => NodeCount(g.nodes[i], InDegree(g, g.nodes[i])))
  }

  /** (node, out-degree) per node, in node order. */
  function OutDegrees(g: Graph): seq<NodeCount> {
    seq(|g.nodes|, i requires 0 <= i < |g.nodes| => NodeCount(g.nodes[i], OutDegree(g, g.nodes[i])))
  }

  /** The degree listings hold exactly the graph's nodes with their degrees. */
  lemma DegreeCounts(g: Graph, x: NodeCount)
    ensures x in InDegrees(g) <==> x.node in g.nodes && x.count == InDegree(g, x.node)
    ensures x in OutDegrees(g) <==> x.node in g.nodes && x.count == OutDegree(g, x.node)
  {
    if x.node in g.nodes {
      var i :| 0 <= i < |g.nodes| && g.nodes[i] == x.node;
      assert InDegrees(g)[i].node == x.node && OutDegrees(g)[i].node == x.node;
    }
  }

  /** The edges whose source is in `sources`, listed per source in node order:
      the order in which the graph library enumerates edges. */
  function EdgesBySource(g: Graph, sources: seq<string>): (r: seq<(string, string)>)
    ensures forall e :: e in r <==> e.0 in sources && e in g.edges
    decreases |sources|
  {
    if |sources| == 0 then []
    else
      var here := seq(|Successors(g, sources[0])|, i requires 0 <= i < |Successors(g, sources[0])| =>
        (sources[0], Successors(g, sources[0])[i]));
      assert forall e :: e in here <==> e.0 == sources[0] && e in g.edges by {
        forall e: (string, string) | e.0 == sources[0] && e in g.edges ensures e in here {
          var i :| 0 <= i < |Successors(g, sources[0])| && Successors(g, sources[0])[i] == e.1;
          assert here[i] == e;
        }
      }
      here + EdgesBySource(g, sources[1..])
  }

  lemma {:induction false} TargetsNoDup(edges: seq<(string, string)>, n: string)
    requires NoDup(edges)
    ensures NoDup(Targets(edges, n))
    decreases |edges|
  {
    if |edges| > 0 {
      assert NoDup(edges[1..]) by {
        forall i, j | 0 <= i < j < |edges[1..]| ensures edges[1..][i] != edges[1..][j] {
          assert edges[1..][i] == edges[i + 1] && edges[1..][j] == edges[j + 1];
        }
      }
      TargetsNoDup(edges[1..], n);
      if edges[0].0 == n {
        assert edges[0] !in edges[1..];
      }
    }
  }

  lemma {:induction false} SourcesNoDup(edges: seq<(string, string)>, n: string)
    requires NoDup(edges)
    ensures NoDup(Sources(edges, n))
    decreases |edges|
  {
    if |edges| > 0 {
      assert NoDup(edges[1..]) by {
        forall i, j | 0 <= i < j < |edges[1..]| ensures edges[1..][i] != edges[1..][j] {
          assert edges[1..][i] == edges[i + 1] && edges[1..][j] == edges[j + 1];
        }
      }
      SourcesNoDup(edges[1..], n);
      if edges[0].1 == n {
        assert edges[0] !in edges[1..];
      }
    }
  }

  /** Two duplicate-free listings of the same edges give every node the
      same in-degree and out-degree. */
  lemma SameEdgesSameDegrees(a: seq<(string, string)>, b: seq<(string, string)>, n: string)
    requires NoDup(a) && NoDup(b) && forall e :: e in a <==> e in b
    ensures |Targets(a, n)| == |Targets(b, n)|
    ensures |Sources(a, n)| == |Sources(b, n)|
  {
    TargetsNoDup(a, n);
    TargetsNoDup(b, n);
    SourcesNoDup(a, n);
    SourcesNoDup(b, n);
    assert ToSet(Targets(a, n)) == ToSet(Targets(b, n));
    assert ToSet(Sources(a, n)) == ToSet(Sources(b, n));
    NoDupCard(Targets(a, n));
    NoDupCard(Targets(b, n));
    NoDupCard(Sources(a, n));
    NoDupCard(Sources(b, n));
  }

  /** Listing the edges source by source repeats none of them. */
  lemma {:induction false} EdgesBySourceNoDup(g: Graph, sources: seq<string>)
    requires NoDup(g.edges) && NoDup(sources)
    ensures NoDup(EdgesBySource(g, sources))
    decreases |sources|
  {
    if |sources| > 0 {
      var succ := Successors(g, sources[0]);
      var here := seq(|succ|, i requires 0 <= i < |succ| => (sources[0], succ[i]));
      var rest := EdgesBySource(g, sources[1..]);
      assert NoDup(sources[1..]) by {
        forall i, j | 0 <= i < j < |sources[1..]| ensures sources[1..][i] != sources[1..][j] {
          assert sources[1..][i] == sources[i + 1] && sources[1..][j] == sources[j + 1];
        }
      }
      EdgesBySourceNoDup(g, sources[1..]);
      TargetsNoDup(g.edges, sources[0]);
      assert EdgesBySource(g, sources) == here + rest;
      assert sources[0] !in sources[1..];
      forall i, j | 0 <= i < j < |here + rest| ensures (here + rest)[i] != (here + rest)[j] {
        if j < |here| {
          assert succ[i] != succ[j];
        } else if i < |here| {
          assert (here + rest)[j] in rest;
        }
      }
    }
  }

  // ---------------------------------------------------------------------
  // Walks and cycles

  /** A walk: a non-empty node sequence in which each node is followed by one
      of its successors. It has |w| - 1 edges. */
  predicate IsWalk(g: Graph, w: seq<string>) {
    && |w| >= 1
    && (forall i :: 0 <= i < |w| ==> w[i] in g.nodes)
    && (forall i :: 0 <= i < |w| - 1 ==> (w[i], w[i + 1]) in g.edges)
  }

  /** A closed walk has at least one edge and ends where it starts. */
  predicate IsClosedWalk(g: Graph, w: seq<string>) {
    IsWalk(g, w) && |w| >= 2 && w[0] == w[|w| - 1]
  }

  /** A simple cycle: a closed walk that visits no node twice before returning. */
  predicate IsSimpleCycle(g: Graph, w: seq<string>) {
    IsClosedWalk(g, w) && NoDup(w[..|w| - 1])
  }

  ghost predicate HasCycle(g: Graph) {
    exists w :: IsClosedWalk(g, w)
  }

  /** One step: every node an edge leads to from a node of S. */
  function Step(g: Graph, S: set<string>): set<string> {
    set e | e in g.edges && e.0 in S :: e.1
  }

  /** The nodes reachable from src by a walk of 1 to k edges. */
  function ReachWithin(g: Graph, src: string, k: nat): set<string>
    decreases k
  {
    if k == 0 then {} else Step(g, {src} + ReachWithin(g, src, k - 1))
  }

  /** Every node in ReachWithin is the end of a walk of at most k edges. */
  lemma {:induction false} ReachSound(g: Graph, src: string, k: nat, y: string) returns (w: seq<string>)
    requires Valid(g)
    requires y in ReachWithin(g, src, k)
    ensures IsWalk(g, w) && 2 <= |w| <= k + 1
    ensures w[0] == src && w[|w| - 1] == y
    decreases k
  {
    var e :| e in g.edges && e.0 in {src} + ReachWithin(g, src, k - 1) && e.1 == y;
    if e.0 == src {
      w := [src, y];
    } else {
      var w0 := ReachSound(g, src, k - 1, e.0);
      w := w0 + [y];
      assert forall i :: 0 <= i < |w| - 1 ==> (w[i], w[i + 1]) in g.edges by {
        forall i | 0 <= i < |w| - 1 ensures (w[i], w[i + 1]) in g.edges {
          if i < |w0| - 1 {
            assert w[i] == w0[i] && w[i + 1] == w0[i + 1];
          } else {
            assert w[i] == e.0 && w[i + 1] == y;
          }
        }
      }
    }
  }

  /** The end of every walk of at most k edges is in ReachWithin. */
  lemma {:induction false} ReachComplete(g: Graph, w: seq<string>, k: nat)
    requires IsWalk(g, w) && 2 <= |w| <= k + 1
    ensures w[|w| - 1] in ReachWithin(g, w[0], k)
    decreases |w|
  {
    var x, y := w[|w| - 2], w[|w| - 1];
    assert (x, y) in g.edges;
    if |w| == 2 {
      assert x in {w[0]} + ReachWithin(g, w[0], k - 1);
    } else {
      var p := w[..|w| - 1];
      assert IsWalk(g, p) by {
        forall i | 0 <= i < |p| - 1 ensures (p[i], p[i + 1]) in g.edges {
          assert p[i] == w[i] && p[i + 1] == w[i + 1];
        }
      }
      ReachComplete(g, p, k - 1);
      assert x in {w[0]} + ReachWithin(g, w[0], k - 1);
    }
  }

  /** Cutting the loop w[i+1..j] out of a walk whose nodes i and j coincide
      leaves a walk with the same ends. */
  lemma CutLoop(g: Graph, w: seq<string>, i: nat, j: nat) returns (w': seq<string>)
    requires IsWalk(g, w) && i < j < |w| && w[i] == w[j]
    ensures w' == w[..i + 1] + w[j + 1..]
    ensures IsWalk(g, w') && |w'| == |w| - (j - i)
    ensures w'[0] == w[0] && w'[|w'| - 1] == w[|w| - 1]
  {
    w' := w[..i + 1] + w[j + 1..];
    forall k | 0 <= k < |w'| - 1 ensures (w'[k], w'[k + 1]) in g.edges {
      if k < i {
        assert w'[k] == w[k] && w'[k + 1] == w[k + 1];
      } else if k == i {
        assert w'[k] == w[j] && w'[k + 1] == w[j + 1];
      } else {
        assert w'[k] == w[k + j - i] && w'[k + 1] == w[k + 1 + j - i];
      }
    }
    assert forall k :: 0 <= k < |w'| ==> w'[k] in g.nodes by {
      forall k | 0 <= k < |w'| ensures w'[k] in g.nodes {
        if k <= i { assert w'[k] == w[k]; } else { assert w'[k] == w[k + j - i]; }
      }
    }
  }

  /** Every closed walk can be shortened to a simple cycle through its first node. */
  lemma {:induction false} ShortenToSimple(g: Graph, w: seq<string>) returns (c: seq<string>)
    requires IsClosedWalk(g, w)
    ensures IsSimpleCycle(g, c) && c[0] == w[0] && |c| <= |w|
    decreases |w|
  {
    var body := w[..|w| - 1];
    if NoDup(body) {
      c := w;
    } else {
      var i, j :| 0 <= i < j < |body| && body[i] == body[j];
      var w' := CutLoop(g, w, i, j);
      c := ShortenToSimple(g, w');
    }
  }

  /** A simple cycle has at most as many edges as the graph has nodes. */
  lemma SimpleCycleBound(g: Graph, c: seq<string>)
    requires IsSimpleCycle(g, c)
    ensures |c| - 1 <= |g.nodes|
  {
    var body := c[..|c| - 1];
    NoDupCard(body);
    var inner, all := ToSet(body), ToSet(g.nodes);
    assert inner <= all by {
      forall x | x in inner ensures x in all {
        var i :| 0 <= i < |body| && body[i] == x;
        assert c[i] == x;
      }
    }
    assert all == inner + (all - inner);
    ToSetCard(g.nodes);
  }

  /** n lies on a closed walk of at most k edges (computable). */
  predicate OnCycleWithin(g: Graph, n: string, k: nat) {
    n in ReachWithin(g, n, k)
  }

  /** n is the first node of a simple cycle with at most k edges. */
  ghost predicate OnSimpleCycleWithin(g: Graph, n: string, k: nat) {
    exists c :: IsSimpleCycle(g, c) && c[0] == n && |c| <= k + 1
  }

  /** The computable test is exact: a node lies on a closed walk of at most k
      edges iff it lies on a simple cycle of at most k edges. */
  lemma OnCycleWithinIff(g: Graph, n: string, k: nat)
    requires Valid(g)
    ensures OnCycleWithin(g, n, k) <==> OnSimpleCycleWithin(g, n, k)
  {
    if OnCycleWithin(g, n, k) {
      var w := ReachSound(g, n, k, n);
      var c := ShortenToSimple(g, w);
      assert IsSimpleCycle(g, c) && c[0] == n && |c| <= k + 1;
    }
    if OnSimpleCycleWithin(g, n, k) {
      var c :| IsSimpleCycle(g, c) && c[0] == n && |c| <= k + 1;
      ReachComplete(g, c, k);
    }
  }

  /** Cycle test over the whole graph: some node is on a closed walk of at most
      |nodes| edges. */
  predicate CycleDetected(g: Graph) {
    exists n :: n in g.nodes && OnCycleWithin(g, n, |g.nodes|)
  }

  /** The bounded test finds every cycle: it holds iff the graph has a closed
      walk of any length. */
  lemma CycleDetectedIff(g: Graph)
    requires Valid(g)
    ensures CycleDetected(g) <==> HasCycle(g)
  {
    if CycleDetected(g) {
      var n :| n in g.nodes && OnCycleWithin(g, n, |g.nodes|);
      var w := ReachSound(g, n, |g.nodes|, n);
      assert IsClosedWalk(g, w);
    }
    if HasCycle(g) {
      var w :| IsClosedWalk(g, w);
      var c := ShortenToSimple(g, w);
      SimpleCycleBound(g, c);
      ReachComplete(g, c, |g.nodes|);
      assert c[0] in g.nodes;
    }
  }

  /** A self-loop is a cycle of one edge. */
  lemma SelfLoopOnCycle(g: Graph, n: string, k: nat)
    requires Valid(g) && (n, n) in g.edges && k >= 1
    ensures OnCycleWithin(g, n, k)
  {
    ReachComplete(g, [n, n], k);
  }
}
