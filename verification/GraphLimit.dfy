/** Cutting an insight graph down to a number of nodes. */
module GraphLimit {
  import opened Sorting
  import opened InsightGraph

  const DEFAULT_LIMIT: nat := 180
  const MAX_LIMIT: nat := 500

  datatype Stats = Stats(totalInsights: nat, returnedInsights: nat, returnedEdges: nat)

  datatype Graph = Graph(nodes: seq<Node>, edges: seq<Edge>, stats: Stats)

  function Effective(limit: int): nat {
    if limit <= 0 then DEFAULT_LIMIT else if limit > MAX_LIMIT then MAX_LIMIT else limit
  }

  function NodeIDs(nodes: seq<Node>): set<string> {
    set n | n in nodes :: n.id
  }

  function Joining(edges: seq<Edge>, ids: set<string>): seq<Edge> {
    if edges == [] then []
    else
      var rest := Joining(edges[..|edges| - 1], ids);
      var e := edges[|edges| - 1];
      if e.source in ids && e.target in ids then rest + [e] else rest
  }

  function TotalOf(graph: Graph): nat {
    if graph.stats.totalInsights == 0 then |graph.nodes| else graph.stats.totalInsights
  }

  /** What is left of `graph` at a limit between 1 and 500. */
  function Cut(graph: Graph, limit: nat): Graph {
    var nodes := if |graph.nodes| > limit then graph.nodes[..limit] else graph.nodes;
    var edges := if |graph.nodes| > limit then Joining(graph.edges, NodeIDs(nodes)) else graph.edges;
    Graph(nodes, edges, Stats(TotalOf(graph), |nodes|, |edges|))
  }

  method LimitInsightGraphResponse(graph: Graph, limit: int) returns (limited: Graph)
    ensures limited == Cut(graph, Effective(limit))
  {
    var effective := limit;
    if effective <= 0 {
      effective := DEFAULT_LIMIT;
    }
    if effective > MAX_LIMIT {
      effective := MAX_LIMIT;
    }
    var nodes, edges, total := graph.nodes, graph.edges, graph.stats.totalInsights;
    if total == 0 {
      total := |nodes|;
    }
    if |nodes| > effective {
      nodes := nodes[..effective];
      var allowed: set<string> := {};
      for i := 0 to |nodes|
        invariant allowed == NodeIDs(nodes[..i])
      {
        assert nodes[..i + 1] == nodes[..i] + [nodes[i]];
        allowed := allowed + {nodes[i].id};
      }
      assert nodes[..|nodes|] == nodes;
      var filteredEdges: seq<Edge> := [];
      for i := 0 to |edges|
        invariant filteredEdges == Joining(edges[..i], allowed)
      {
        assert edges[..i + 1][..i] == edges[..i];
        if edges[i].source in allowed && edges[i].target in allowed {
          filteredEdges := filteredEdges + [edges[i]];
        }
      }
      assert edges[..|edges|] == edges;
      edges := filteredEdges;
    }
    limited := Graph(nodes, edges, Stats(total, |nodes|, |edges|));
  }

  lemma {:induction false} JoiningTwice(edges: seq<Edge>, outer: set<string>, inner: set<string>)
    requires inner <= outer
    ensures Joining(Joining(edges, outer), inner) == Joining(edges, inner)
  {
    if edges != [] {
      var init, e := edges[..|edges| - 1], edges[|edges| - 1];
      JoiningTwice(init, outer, inner);
      assert (Joining(init, outer) + [e])[..|Joining(init, outer)|] == Joining(init, outer);
    }
  }

  /** Cutting to `a` and then to `b` is cutting to the smaller of the two. */
  lemma CutTwice(graph: Graph, a: nat, b: nat)
    ensures Cut(Cut(graph, a), b) == Cut(graph, if a <= b then a else b)
  {
    var once := Cut(graph, a);
    if |graph.nodes| > a && b < a {
      assert graph.nodes[..a][..b] == graph.nodes[..b];
      assert NodeIDs(graph.nodes[..b]) <= NodeIDs(graph.nodes[..a]) by {
        assert forall n :: n in graph.nodes[..b] ==> n in graph.nodes[..a];
      }
      JoiningTwice(graph.edges, NodeIDs(graph.nodes[..a]), NodeIDs(graph.nodes[..b]));
    }
  }

  /** Limits that come in any form compose the same way. */
  lemma LimitsCompose(graph: Graph, a: int, b: int)
    ensures Cut(Cut(graph, Effective(a)), Effective(b)) ==
      Cut(graph, if Effective(a) <= Effective(b) then Effective(a) else Effective(b))
  {
    CutTwice(graph, Effective(a), Effective(b));
  }

  ghost predicate EdgesJoinNodes(graph: Graph) {
    forall e :: e in graph.edges ==> e.source in NodeIDs(graph.nodes) && e.target in NodeIDs(graph.nodes)
  }

  lemma {:induction false} JoiningMembers(edges: seq<Edge>, ids: set<string>)
    ensures forall e :: e in Joining(edges, ids) <==> e in edges && e.source in ids && e.target in ids
  {
    if edges != [] {
      var init := edges[..|edges| - 1];
      JoiningMembers(init, ids);
      assert edges == init + [edges[|edges| - 1]];
    }
  }

  lemma {:induction false} JoiningDegree(edges: seq<Edge>, ids: set<string>, node: string)
    ensures Degree(Joining(edges, ids), node) <= Degree(edges, node)
  {
    if edges != [] {
      var init, e := edges[..|edges| - 1], edges[|edges| - 1];
      JoiningDegree(init, ids, node);
      DegreeAppend(Joining(init, ids), e);
    }
  }

  /** A cut graph keeps its edges on its nodes, raises no degree, and keeps every edge whose
      two ends survive. */
  lemma CutIsClosed(graph: Graph, limit: nat, node: string)
    requires EdgesJoinNodes(graph)
    ensures EdgesJoinNodes(Cut(graph, limit))
    ensures Degree(Cut(graph, limit).edges, node) <= Degree(graph.edges, node)
    ensures var ids := NodeIDs(Cut(graph, limit).nodes);
      forall e :: e in graph.edges && e.source in ids && e.target in ids ==> e in Cut(graph, limit).edges
  {
    if |graph.nodes| > limit {
      JoiningMembers(graph.edges, NodeIDs(graph.nodes[..limit]));
      JoiningDegree(graph.edges, NodeIDs(graph.nodes[..limit]), node);
    }
  }

  lemma {:induction false} JoiningCounts(edges: seq<Edge>, ids: set<string>, e: Edge)
    ensures multiset(Joining(edges, ids))[e] == if e.source in ids && e.target in ids then multiset(edges)[e] else 0
  {
    if edges != [] {
      JoiningCounts(edges[..|edges| - 1], ids, e);
      assert edges == edges[..|edges| - 1] + [edges[|edges| - 1]];
    }
  }

  lemma {:induction false} JoiningOrdered(leq: (Edge, Edge) -> bool, edges: seq<Edge>, ids: set<string>)
    requires Ordered(leq, edges)
    ensures Ordered(leq, Joining(edges, ids))
  {
    if edges != [] {
      var n := |edges| - 1;
      JoiningOrdered(leq, edges[..n], ids);
      JoiningMembers(edges[..n], ids);
      var rest := Joining(edges[..n], ids);
      forall k | 0 <= k < |rest| ensures leq(rest[k], edges[n]) {
        assert rest[k] in rest;
        var m :| 0 <= m < n && edges[m] == rest[k];
      }
    }
  }

  /** What is left of a graph for a limit in any form: the first nodes, as many as the limit, which is 180
      by default and 500 at most; of a graph that was cut the edges between these nodes, as often as
      they were there and in the same order, and all edges otherwise; and the total that was reported
      before, or the number of nodes if none was. */
  lemma CutExactly(graph: Graph, limit: int, most: nat, cut: Graph, leq: (Edge, Edge) -> bool, e: Edge)
    requires most == if limit <= 0 then 180 else if limit > 500 then 500 else limit
    requires cut == Cut(graph, Effective(limit))
    ensures |cut.nodes| == if |graph.nodes| <= most then |graph.nodes| else most
    ensures forall k :: 0 <= k < |cut.nodes| ==> cut.nodes[k] == graph.nodes[k]
    ensures |graph.nodes| <= most ==> cut.edges == graph.edges
    ensures |graph.nodes| > most ==>
      multiset(cut.edges)[e] == if e.source in NodeIDs(cut.nodes) && e.target in NodeIDs(cut.nodes) then multiset(graph.edges)[e] else 0
    ensures Ordered(leq, graph.edges) ==> Ordered(leq, cut.edges)
    ensures cut.stats.returnedInsights == |cut.nodes| && cut.stats.returnedEdges == |cut.edges|
    ensures cut.stats.totalInsights == if graph.stats.totalInsights > 0 then graph.stats.totalInsights else |graph.nodes|
  {
    JoiningCounts(graph.edges, NodeIDs(cut.nodes), e);
    if Ordered(leq, graph.edges) {
      JoiningOrdered(leq, graph.edges, NodeIDs(cut.nodes));
    }
  }
}
