/** A list of nodes in which one ID occurs twice, for which the edges that are built exceed the
    degree cap. */
module RepeatedNodeID {
  import opened Text
  import opened Sorting
  import opened InsightGraph
  import opened GreedySelection
  import opened InsightGraphEdges

  // ---------------------------------------------------------------- the greedy pass

  /** Six edges to a hub and an edge of the hub to itself that ranks last. */
  ghost predicate Wheel(wheel: seq<Edge>, hub: string) {
    && |wheel| == 7 && UniqueIDs(wheel) && wheel[6].source == wheel[6].target == hub
    && (forall k :: 0 <= k < 6 ==> wheel[k].target == hub && wheel[k].source != hub && EdgeLess(wheel[k], wheel[6]))
    && (forall i, k :: 0 <= i < k < 6 ==> wheel[i].source != wheel[k].source)
  }

  lemma {:induction false} SizeOfIDs(edges: seq<Edge>)
    requires UniqueIDs(edges)
    ensures |EdgeIDs(edges)| == |edges|
  {
    if edges != [] {
      var init, last := edges[..|edges| - 1], edges[|edges| - 1];
      SizeOfIDs(init);
      assert edges == init + [last];
      assert EdgeIDs(edges) == EdgeIDs(init) + {last.id};
      assert last.id !in EdgeIDs(init);
    }
  }

  lemma LoopIsLast(ranked: seq<Edge>, wheel: seq<Edge>, hub: string)
    requires Wheel(wheel, hub) && UniqueIDs(ranked) && Ordered(EdgeLeq, ranked)
    requires forall e :: e in ranked <==> e in wheel
    ensures |ranked| == 7 && ranked[6] == wheel[6]
  {
    SizeOfIDs(ranked);
    SizeOfIDs(wheel);
    assert EdgeIDs(ranked) == EdgeIDs(wheel);
    assert wheel[6] in ranked;
    var m :| 0 <= m < 7 && ranked[m] == wheel[6];
    assert ranked[6] in wheel;
    assert m < 6 ==> EdgeLeq(ranked[m], ranked[6]);
  }

  lemma RankedSpoke(ranked: seq<Edge>, wheel: seq<Edge>, hub: string, i: nat)
    requires Wheel(wheel, hub) && UniqueIDs(ranked) && |ranked| == 7 && ranked[6] == wheel[6] && i < 6
    requires forall e :: e in ranked <==> e in wheel
    ensures ranked[i].target == hub && ranked[i].source != hub
    ensures exists k :: 0 <= k < 6 && ranked[i] == wheel[k]
  {
    assert ranked[i] in wheel && ranked[i].id != ranked[6].id;
    var k :| 0 <= k < 7 && ranked[i] == wheel[k];
  }

  lemma SpokesAreStar(ranked: seq<Edge>, wheel: seq<Edge>, hub: string, spokes: seq<Edge>)
    requires Wheel(wheel, hub) && UniqueIDs(ranked) && |ranked| == 7 && ranked[6] == wheel[6] && spokes == ranked[..6]
    requires forall e :: e in ranked <==> e in wheel
    ensures forall e :: e in spokes ==> e.target == hub && e.source != hub
    ensures forall i, j :: 0 <= i < j < |spokes| ==> spokes[i].source != spokes[j].source
  {
    forall i | 0 <= i < 6 ensures spokes[i].target == hub && spokes[i].source != hub {
      RankedSpoke(ranked, wheel, hub, i);
    }
    forall i, j | 0 <= i < j < 6 ensures spokes[i].source != spokes[j].source {
      RankedSpoke(ranked, wheel, hub, i);
      RankedSpoke(ranked, wheel, hub, j);
      assert ranked[i].id != ranked[j].id;
    }
  }

  lemma WheelOverflows(ranked: seq<Edge>, wheel: seq<Edge>, hub: string)
    requires Wheel(wheel, hub) && UniqueIDs(ranked) && Ordered(EdgeLeq, ranked)
    requires forall e :: e in ranked <==> e in wheel
    ensures Degree(Kept(ranked), hub) == MAX_DEGREE + 1
  {
    LoopIsLast(ranked, wheel, hub);
    var spokes := ranked[..6];
    SpokesAreStar(ranked, wheel, hub, spokes);
    StarKept(spokes, hub);
    KeptStep(ranked, 6);
    assert ranked[..7] == ranked;
    DegreeAppend(spokes, ranked[6]);
  }

  // ---------------------------------------------------------------- the links

  lemma FoldedDigit(v: string)
    requires |v| == 1 && '0' <= v[0] <= '9'
    ensures !Blank(v) && Lower(Trim(v)) == v
  {
    assert TrimLeft(v) == v && TrimRight(v) == v;
    assert Lower(v) == [v[0]] + Lower(v[1..]);
  }

  ghost predicate Digits(values: seq<string>) {
    forall k :: 0 <= k < |values| ==> |values[k]| == 1 && '0' <= values[k][0] <= '9'
  }

  lemma FoldedDigits(values: seq<string>)
    requires Digits(values)
    ensures forall v :: v in Folded(values) <==> v in values
  {
    forall v | v in values ensures !Blank(v) && Lower(Trim(v)) == v {
      FoldedDigit(v);
    }
  }

  const SAME_SOURCE := Link(SameCapture, "Same source", 3.0)

  /** Nodes that can have nothing but captures in common. */
  function Capturing(id: string, captures: seq<string>): Node {
    Node(id, captures, [], "", "")
  }

  lemma CapturesLink(left: Node, right: Node)
    requires left == Capturing(left.id, left.captureIDs) && right == Capturing(right.id, right.captureIDs)
    requires Digits(left.captureIDs) && Digits(right.captureIDs)
    ensures EdgeReason(left, right) ==
      if exists v :: v in left.captureIDs && v in right.captureIDs then SAME_SOURCE else NoLink
  {
    FirstSharedMeaning(left.captureIDs, right.captureIDs);
    FirstSharedMeaning([], []);
    FoldedDigits(left.captureIDs);
    FoldedDigits(right.captureIDs);
    assert Blank("");
    if v :| v in left.captureIDs && v in right.captureIDs {
      assert v in Folded(left.captureIDs) && v in Folded(right.captureIDs);
    }
  }

  // ---------------------------------------------------------------- the candidates

  /** Two nodes with the hub's ID and all captures, and six nodes of other IDs with one of them each. */
  ghost predicate Twins(nodes: seq<Node>, hub: string, ids: seq<string>, captures: seq<string>) {
    && |nodes| == 8 && |ids| == |captures| == 6 && Digits(captures)
    && (forall i, k :: 0 <= i < k < 6 ==> captures[i] != captures[k] && ids[i] != ids[k])
    && (forall k :: 0 <= k < 6 ==> OrderedPair(hub, ids[k]) == (ids[k], hub) && ids[k] != hub)
    && (forall l :: 0 <= l < 8 ==> nodes[l] == if l < 2 then Capturing(hub, captures) else Capturing(ids[l - 2], [captures[l - 2]]))
  }

  function HubEdge(source: string, hub: string): Edge {
    Edge(source + "::" + hub, source, hub, SameCapture, "Same source", 3.0)
  }

  lemma EdgeOfTwins(nodes: seq<Node>, hub: string, ids: seq<string>, captures: seq<string>, l: nat, r: nat)
    requires Twins(nodes, hub, ids, captures) && l < r < 8
    ensures Linked(EdgeReason, nodes, l, r) <==> l <= 1
    ensures l <= 1 ==> PairEdge(EdgeReason, nodes, l, r) == HubEdge(if r == 1 then hub else ids[r - 2], hub)
  {
    CapturesLink(nodes[l], nodes[r]);
    if l <= 1 {
      var v := captures[if r == 1 then 0 else r - 2];
      assert v in nodes[l].captureIDs && v in nodes[r].captureIDs;
    }
  }

  ghost predicate HubEdges(wheel: seq<Edge>, hub: string, ids: seq<string>) {
    |ids| == 6 && |wheel| == 7 && forall k :: 0 <= k < 7 ==> wheel[k] == HubEdge(if k == 6 then hub else ids[k], hub)
  }

  lemma SameEnd(a: string, b: string, hub: string)
    ensures HubEdge(a, hub).id == HubEdge(b, hub).id ==> a == b
  {
    if HubEdge(a, hub).id == HubEdge(b, hub).id {
      assert |a| == |b|;
      assert HubEdge(a, hub).id[..|a|] == a && HubEdge(b, hub).id[..|b|] == b;
    }
  }

  lemma HubEdgesAreWheel(wheel: seq<Edge>, nodes: seq<Node>, hub: string, ids: seq<string>, captures: seq<string>)
    requires Twins(nodes, hub, ids, captures) && HubEdges(wheel, hub, ids)
    ensures Wheel(wheel, hub)
  {
    forall i, k | 0 <= i < k < 7 ensures wheel[i].id != wheel[k].id {
      SameEnd(wheel[i].source, wheel[k].source, hub);
    }
    forall k | 0 <= k < 6 ensures EdgeLess(wheel[k], wheel[6]) {
      StringLeqTotal(ids[k], hub);
    }
  }

  lemma CandidatesOfTwins(wheel: seq<Edge>, nodes: seq<Node>, hub: string, ids: seq<string>, captures: seq<string>)
    requires Twins(nodes, hub, ids, captures) && HubEdges(wheel, hub, ids)
    ensures forall e :: e in RankedCandidates(nodes) <==> e in wheel
  {
    RankedCandidatesFacts(nodes);
    CandidatesExact(nodes);
    forall e | e in RankedCandidates(nodes) ensures e in wheel {
      CandidateIsHubEdge(e, wheel, nodes, hub, ids, captures);
    }
    forall k | 0 <= k < 7 ensures wheel[k] in RankedCandidates(nodes) {
      var r := if k == 6 then 1 else k + 2;
      EdgeOfTwins(nodes, hub, ids, captures, 0, r);
      assert PairEdge(EdgeReason, nodes, 0, r).id == PairID(nodes, 0, r);
      assert PairID(nodes, 0, r) in EdgeIDs(Candidates(nodes));
      var e :| e in Candidates(nodes) && e.id == wheel[k].id;
      CandidateIsHubEdge(e, wheel, nodes, hub, ids, captures);
      SameEnd(e.source, wheel[k].source, hub);
    }
  }

  lemma CandidateIsHubEdge(e: Edge, wheel: seq<Edge>, nodes: seq<Node>, hub: string, ids: seq<string>, captures: seq<string>)
    requires Twins(nodes, hub, ids, captures) && HubEdges(wheel, hub, ids) && e in Candidates(nodes)
    ensures e in wheel && e == HubEdge(e.source, hub)
  {
    CandidatesExact(nodes);
    var l: nat, r: nat :| LinkedPairEdge(EdgeReason, nodes, e, l, r);
    EdgeOfTwins(nodes, hub, ids, captures, l, r);
    assert e == wheel[if r == 1 then 6 else r - 2];
  }

  lemma WheelOf(ids: seq<string>, hub: string) returns (wheel: seq<Edge>)
    requires |ids| == 6
    ensures HubEdges(wheel, hub, ids)
  {
    wheel := seq(7, k requires 0 <= k < 7 => HubEdge(if k == 6 then hub else ids[k], hub));
  }

  /** So what is built gives the hub eight ends. */
  lemma TwinsOverflow(nodes: seq<Node>, hub: string, ids: seq<string>, captures: seq<string>)
    requires Twins(nodes, hub, ids, captures)
    ensures Degree(Kept(RankedCandidates(nodes)), hub) == MAX_DEGREE + 1
  {
    var wheel := WheelOf(ids, hub);
    RankedCandidatesFacts(nodes);
    HubEdgesAreWheel(wheel, nodes, hub, ids, captures);
    CandidatesOfTwins(wheel, nodes, hub, ids, captures);
    WheelOverflows(RankedCandidates(nodes), wheel, hub);
  }

  /** Eight nodes of seven IDs. */
  lemma RepeatedIDOverflows(hub: Node, nodes: seq<Node>)
    requires hub == Capturing("v", ["1", "2", "3", "4", "5", "6"])
    requires nodes == [hub, hub, Capturing("a", ["1"]), Capturing("b", ["2"]), Capturing("c", ["3"]), Capturing("d", ["4"]),
                       Capturing("e", ["5"]), Capturing("f", ["6"])]
    ensures Degree(Kept(RankedCandidates(nodes)), "v") == 8
  {
    var ids: seq<string>, captures: seq<string> := ["a", "b", "c", "d", "e", "f"], ["1", "2", "3", "4", "5", "6"];
    forall k | 0 <= k < 6 ensures OrderedPair("v", ids[k]) == (ids[k], "v") && ids[k] != "v" {
      LetterBeforeV(ids[k]);
    }
    TwinsOverflow(nodes, "v", ids, captures);
  }

  lemma LetterBeforeV(id: string)
    requires |id| == 1 && id[0] < 'v'
    ensures OrderedPair("v", id) == (id, "v") && id != "v"
  {
    assert "v"[0] == 'v';
  }
}
