/** From nodes to edges: the candidates are exactly the linked pairs, one for each edge ID,
    and the edges returned for a list of nodes carry the guarantees of the greedy pass. */
module InsightGraphEdges {
  import opened Text
  import opened Sorting
  import opened InsightGraph
  import opened GreedySelection

  // ---------------------------------------------------------------- the candidates

  lemma {:induction false} FirstByIDUnique(edges: seq<Edge>)
    ensures UniqueIDs(FirstByID(edges))
    ensures EdgeIDs(FirstByID(edges)) == EdgeIDs(edges)
  {
    if edges != [] {
      var init, e := edges[..|edges| - 1], edges[|edges| - 1];
      FirstByIDUnique(init);
      assert edges == init + [e];
      FirstByIDStep(init, e);
      assert EdgeIDs(edges) == EdgeIDs(init) + {e.id};
      if e.id !in EdgeIDs(FirstByID(init)) {
        OneMoreID(FirstByID(init), e);
      }
    }
  }

  lemma OneMoreID(edges: seq<Edge>, e: Edge)
    requires UniqueIDs(edges) && e.id !in EdgeIDs(edges)
    ensures UniqueIDs(edges + [e])
  {
    forall k | 0 <= k < |edges| ensures edges[k].id in EdgeIDs(edges) {
    }
  }

  /** What is kept of each ID is its first edge. */
  lemma {:induction false} FirstByIDIsFirst(edges: seq<Edge>, e: Edge)
    requires e in FirstByID(edges)
    ensures exists k :: 0 <= k < |edges| && edges[k] == e && forall m :: 0 <= m < k ==> edges[m].id != e.id
  {
    var n := |edges| - 1;
    if e in FirstByID(edges[..n]) {
      FirstByIDIsFirst(edges[..n], e);
      var k :| 0 <= k < n && edges[..n][k] == e && forall m :: 0 <= m < k ==> edges[..n][m].id != e.id;
      assert edges[k] == e && forall m :: 0 <= m < k ==> edges[m] == edges[..n][m];
    } else {
      FirstByIDUnique(edges[..n]);
      assert e.id !in EdgeIDs(edges[..n]);
      assert forall m :: 0 <= m < n ==> edges[m] in edges[..n];
    }
  }

  ghost predicate LinkedPairEdge(judge: Judge, nodes: seq<Node>, e: Edge, l: nat, r: nat) {
    l < r < |nodes| && Linked(judge, nodes, l, r) && e == PairEdge(judge, nodes, l, r)
  }

  lemma {:induction false} RowEdgesExact(judge: Judge, nodes: seq<Node>, l: nat, upTo: nat)
    requires l < upTo <= |nodes|
    ensures forall e :: e in RowEdges(judge, nodes, l, upTo) ==> exists r: nat :: LinkedPairEdge(judge, nodes, e, l, r)
    ensures forall r: nat :: l < r < upTo && Linked(judge, nodes, l, r) ==> PairEdge(judge, nodes, l, r) in RowEdges(judge, nodes, l, upTo)
    decreases upTo
  {
    if upTo > l + 1 {
      RowEdgesExact(judge, nodes, l, upTo - 1);
      if Linked(judge, nodes, l, upTo - 1) {
        assert LinkedPairEdge(judge, nodes, PairEdge(judge, nodes, l, upTo - 1), l, upTo - 1);
      }
    }
  }

  lemma {:induction false} PairEdgesExact(judge: Judge, nodes: seq<Node>, upTo: nat)
    requires upTo <= |nodes|
    ensures forall e :: e in PairEdges(judge, nodes, upTo) ==> exists l: nat, r: nat :: LinkedPairEdge(judge, nodes, e, l, r)
    ensures forall l: nat, r: nat :: l < upTo && l < r < |nodes| && Linked(judge, nodes, l, r) ==>
      PairEdge(judge, nodes, l, r) in PairEdges(judge, nodes, upTo)
  {
    if upTo > 0 {
      PairEdgesExact(judge, nodes, upTo - 1);
      RowEdgesExact(judge, nodes, upTo - 1, |nodes|);
    }
  }

  /** The candidates are edges of linked pairs, one for each edge ID that a linked pair has. */
  lemma CandidatesExact(nodes: seq<Node>)
    ensures UniqueIDs(Candidates(nodes))
    ensures forall e :: e in Candidates(nodes) ==> exists l: nat, r: nat :: LinkedPairEdge(EdgeReason, nodes, e, l, r)
    ensures forall l: nat, r: nat :: l < r < |nodes| && Linked(EdgeReason, nodes, l, r) ==>
      PairID(nodes, l, r) in EdgeIDs(Candidates(nodes))
  {
    var all := PairEdges(EdgeReason, nodes, |nodes|);
    PairEdgesExact(EdgeReason, nodes, |nodes|);
    FirstByIDUnique(all);
    forall e | e in Candidates(nodes) ensures exists l: nat, r: nat :: LinkedPairEdge(EdgeReason, nodes, e, l, r) {
      FirstByIDIsFirst(all, e);
      assert e in all;
    }
    forall l: nat, r: nat | l < r < |nodes| && Linked(EdgeReason, nodes, l, r) ensures PairID(nodes, l, r) in EdgeIDs(Candidates(nodes)) {
      assert PairEdge(EdgeReason, nodes, l, r) in all;
    }
  }

  // ---------------------------------------------------------------- edge IDs

  /** IDs that can be joined with "::" without loss. */
  ghost predicate CleanID(id: string) {
    Index(id, "::") == -1 && (id == "" || id[|id| - 1] != ':')
  }

  ghost predicate DistinctIDs(nodes: seq<Node>) {
    forall i, j :: 0 <= i < j < |nodes| ==> nodes[i].id != nodes[j].id
  }

  lemma SeparatorAt(s: string, t: string)
    requires CleanID(s)
    ensures Index(s + "::" + t, "::") == |s|
  {
    var joined := s + "::" + t;
    IndexExact(s, "::");
    IndexExact(joined, "::");
    assert Occurs(joined, "::", |s|);
    forall k: nat | k < |s| ensures !Occurs(joined, "::", k) {
      TwoColons(joined, k);
      assert joined[k] == s[k];
      if k + 1 < |s| {
        TwoColons(s, k);
        assert joined[k + 1] == s[k + 1];
      }
    }
  }

  lemma TwoColons(s: string, k: nat)
    requires k + 1 < |s|
    ensures Occurs(s, "::", k) <==> s[k] == ':' && s[k + 1] == ':'
  {
    assert s[k..k + 2] == [s[k], s[k + 1]];
  }

  predicate EndsWithColon(s: string) {
    s != "" && s[|s| - 1] == ':'
  }

  /** Where the first separator of a joined ID is, if the left part holds none. */
  lemma FirstSeparator(s: string, t: string)
    requires Index(s, "::") == -1
    ensures Index(s + "::" + t, "::") == if EndsWithColon(s) then |s| - 1 else |s|
  {
    if EndsWithColon(s) {
      EarlySeparator(s, t);
    } else {
      SeparatorAt(s, t);
    }
  }

  lemma EarlySeparator(s: string, t: string)
    requires Index(s, "::") == -1 && EndsWithColon(s)
    ensures Index(s + "::" + t, "::") == |s| - 1
  {
    var joined := s + "::" + t;
    IndexExact(s, "::");
    IndexExact(joined, "::");
    TwoColons(joined, |s| - 1);
    forall k: nat | k < |s| - 1 ensures !Occurs(joined, "::", k) {
      TwoColons(joined, k);
      TwoColons(s, k);
      assert joined[k] == s[k] && joined[k + 1] == s[k + 1];
    }
  }

  /** One pair of IDs is the other with a colon moved across the separator. */
  predicate ColonMoved(p: (string, string), q: (string, string)) {
    p.0 == q.0 + ":" && q.1 == ":" + p.1
  }

  /** Exactly when two joined IDs are equal, if their left parts hold no separator. */
  lemma JoinsEqualExactly(p: (string, string), q: (string, string))
    requires Index(p.0, "::") == -1 && Index(q.0, "::") == -1
    ensures p.0 + "::" + p.1 == q.0 + "::" + q.1 <==> p == q || ColonMoved(p, q) || ColonMoved(q, p)
  {
    FirstSeparator(p.0, p.1);
    FirstSeparator(q.0, q.1);
    if p.0 + "::" + p.1 == q.0 + "::" + q.1 {
      if |p.0| > |q.0| {
        LongerJoin(p, q);
      } else if |q.0| > |p.0| {
        LongerJoin(q, p);
      } else {
        var id := p.0 + "::" + p.1;
        assert id[..|p.0|] == p.0 && id[|p.0| + 2..] == p.1;
        assert id[..|q.0|] == q.0 && id[|q.0| + 2..] == q.1;
      }
    }
    if ColonMoved(p, q) {
      assert q.0 + ":" + "::" + p.1 == q.0 + "::" + (":" + p.1);
    }
    if ColonMoved(q, p) {
      assert p.0 + ":" + "::" + q.1 == p.0 + "::" + (":" + q.1);
    }
  }

  lemma LongerJoin(p: (string, string), q: (string, string))
    requires p.0 + "::" + p.1 == q.0 + "::" + q.1 && |p.0| == |q.0| + 1 && EndsWithColon(p.0)
    ensures ColonMoved(p, q)
  {
    var id := p.0 + "::" + p.1;
    assert id[..|p.0|] == p.0 && id[..|q.0|] == q.0;
    assert p.0 == p.0[..|q.0|] + ":";
    assert id[|q.0| + 2..] == q.1;
    assert q.1[0] == id[|q.0| + 2] && q.1[1..] == id[|q.0| + 3..] == p.1;
  }

  lemma SameOrderedPair(nodes: seq<Node>, l: nat, r: nat, l': nat, r': nat)
    requires DistinctIDs(nodes) && l < r < |nodes| && l' < r' < |nodes|
    requires OrderedPair(nodes[l].id, nodes[r].id) == OrderedPair(nodes[l'].id, nodes[r'].id)
    ensures l == l' && r == r'
  {
  }

  /** Two pairs of nodes with distinct IDs that hold no separator share an edge ID if and only if they
      are one pair, or their ordered IDs differ by a colon on the one or the other side of the
      separator. */
  lemma PairIDsEqualExactly(nodes: seq<Node>, l: nat, r: nat, l': nat, r': nat)
    requires DistinctIDs(nodes) && forall n :: n in nodes ==> Index(n.id, "::") == -1
    requires l < r < |nodes| && l' < r' < |nodes|
    ensures var p, q := OrderedPair(nodes[l].id, nodes[r].id), OrderedPair(nodes[l'].id, nodes[r'].id);
      PairID(nodes, l, r) == PairID(nodes, l', r') <==> (l == l' && r == r') || ColonMoved(p, q) || ColonMoved(q, p)
  {
    assert nodes[l] in nodes && nodes[r] in nodes && nodes[l'] in nodes && nodes[r'] in nodes;
    var p, q := OrderedPair(nodes[l].id, nodes[r].id), OrderedPair(nodes[l'].id, nodes[r'].id);
    JoinsEqualExactly(p, q);
    if p == q {
      SameOrderedPair(nodes, l, r, l', r');
    }
  }

  /** Distinct clean node IDs give every linked pair an edge ID of its own. */
  lemma PairIDInjective(nodes: seq<Node>, l: nat, r: nat, l': nat, r': nat)
    requires DistinctIDs(nodes) && forall n :: n in nodes ==> CleanID(n.id)
    requires l < r < |nodes| && l' < r' < |nodes|
    requires PairID(nodes, l, r) == PairID(nodes, l', r')
    ensures l == l' && r == r'
  {
    PairIDsEqualExactly(nodes, l, r, l', r');
  }

  lemma NoTwoColons(s: string)
    requires forall k :: 0 <= k < |s| - 1 ==> s[k] != ':' || s[k + 1] != ':'
    ensures Index(s, "::") == -1
  {
    IndexExact(s, "::");
    var k := Index(s, "::");
    if k >= 0 {
      TwoColons(s, k);
    }
  }

  const COLLIDING_IDS := ["0:", "1", "0", ":1"]

  /** Without that condition two pairs of distinct nodes can share an edge ID, although no
      node ID holds the separator. */
  lemma PairIDCollision(nodes: seq<Node>)
    requires |nodes| == 4 && forall i :: 0 <= i < 4 ==> nodes[i].id == COLLIDING_IDS[i]
    ensures DistinctIDs(nodes) && forall i :: 0 <= i < 4 ==> Index(nodes[i].id, "::") == -1
    ensures PairID(nodes, 0, 1) == PairID(nodes, 2, 3)
  {
    CollidingJoins();
    forall i | 0 <= i < 4 ensures Index(nodes[i].id, "::") == -1 {
      NoTwoColons(nodes[i].id);
    }
  }

  lemma CollidingJoins()
    ensures OrderedPair("0:", "1") == ("0:", "1") && OrderedPair("0", ":1") == ("0", ":1")
    ensures "0:" + "::" + "1" == "0" + "::" + ":1"
  {
  }

  // ---------------------------------------------------------------- the returned edges

  lemma RankedCandidatesFacts(nodes: seq<Node>)
    ensures UniqueIDs(RankedCandidates(nodes))
    ensures Ordered(EdgeLeq, RankedCandidates(nodes))
    ensures forall e :: e in RankedCandidates(nodes) <==> e in Candidates(nodes)
    ensures forall e :: e in RankedCandidates(nodes) ==> e.weight >= 1.0
  {
    var candidates := Candidates(nodes);
    CandidatesExact(nodes);
    EdgeLeqTotalPreorder();
    StableSortOrdered(EdgeLeq, candidates);
    SameElements(candidates, RankedCandidates(nodes));
    UniqueIDsPermuted(candidates, RankedCandidates(nodes));
    forall e | e in candidates ensures e.weight >= 1.0 {
      CandidateWeight(nodes, e);
    }
  }

  lemma CandidateWeight(nodes: seq<Node>, e: Edge)
    requires exists l: nat, r: nat :: LinkedPairEdge(EdgeReason, nodes, e, l, r)
    ensures e.weight >= 1.0
  {
  }

  lemma {:induction false} UniqueIDsPermuted(a: seq<Edge>, b: seq<Edge>)
    requires UniqueIDs(a) && multiset(a) == multiset(b)
    ensures UniqueIDs(b)
  {
    SameElements(a, b);
    forall i, j | 0 <= i < j < |b| ensures b[i].id != b[j].id {
      if b[i].id == b[j].id {
        assert b[i] in a && b[j] in a;
        var k :| 0 <= k < |a| && a[k] == b[i];
        var m :| 0 <= m < |a| && a[m] == b[j];
        assert k == m;
        OnceOnly(a, b[i]);
        Twice(b, i, j);
      }
    }
  }

  lemma {:induction false} OnceOnly(a: seq<Edge>, e: Edge)
    requires UniqueIDs(a)
    ensures multiset(a)[e] <= 1
  {
    if a != [] {
      var n := |a| - 1;
      OnceOnly(a[..n], e);
      assert a == a[..n] + [a[n]];
      if a[n] == e {
        assert e !in a[..n];
      }
    }
  }

  lemma Twice(b: seq<Edge>, i: nat, j: nat)
    requires i < j < |b| && b[i] == b[j]
    ensures multiset(b)[b[i]] >= 2
  {
    assert b == b[..j] + [b[j]] + b[j + 1..];
    assert b[i] in b[..j];
  }

  /** Everything the returned edges promise, for every list of nodes. */
  lemma ReturnedEdges(nodes: seq<Node>)
    ensures var kept := Kept(RankedCandidates(nodes));
      && |kept| <= 650
      && UniqueIDs(kept)
      && Ordered(EdgeLeq, kept)
      && (forall e :: e in kept ==> e in Candidates(nodes))
      && (DistinctIDs(nodes) ==> forall node :: Degree(kept, node) <= 7)
  {
    var ranked := RankedCandidates(nodes);
    RankedCandidatesFacts(nodes);
    KeptCaps(ranked, "");
    KeptSubset(ranked);
    KeptOrderedAndUnique(ranked);
    if DistinctIDs(nodes) {
      CandidatesExact(nodes);
      forall e | e in ranked ensures !SelfLoop(e) {
        var l: nat, r: nat :| LinkedPairEdge(EdgeReason, nodes, e, l, r);
        assert nodes[l].id != nodes[r].id;
      }
      forall node ensures Degree(Kept(ranked), node) <= MAX_DEGREE {
        DegreeCap(ranked, node);
      }
    }
  }

  // ---------------------------------------------------------------- strong links first

  /** Links by captures are the strongest, then come topics, domains and types. */
  function Strength(reason: Reason): nat {
    match reason
    case SameCapture => 3
    case SharedTopic => 2
    case SharedDomain => 1
    case SharedType => 0
  }

  /** The nodes have in common what the reason says. */
  ghost predicate Share(left: Node, right: Node, reason: Reason) {
    match reason
    case SameCapture => Common(left.captureIDs, right.captureIDs)
    case SharedTopic => Common(left.topics, right.topics)
    case SharedDomain => Common([left.domain], [right.domain])
    case SharedType => Common([left.kind], [right.kind])
  }

  /** The edge joins the nodes for the strongest reason that they share, with its weight. */
  ghost predicate JoinsFor(left: Node, right: Node, e: Edge) {
    && ((e.source == left.id && e.target == right.id) || (e.source == right.id && e.target == left.id))
    && StringLeq(e.source, e.target) && e.id == e.source + "::" + e.target
    && LinksFor(left, right, e.reason, e.caption, e.weight)
  }

  /** The link is for the strongest reason that the nodes share, with its weight, and captioned as the
      left node spells what they share, with the least of shared topics. */
  ghost predicate LinksFor(left: Node, right: Node, reason: Reason, caption: string, weight: real) {
    && Share(left, right, reason)
    && (forall other :: Share(left, right, other) ==> Strength(other) <= Strength(reason))
    && match reason
       case SameCapture => caption == "Same source" && weight == 3.0
       case SharedTopic => LeastShared(left.topics, right.topics, caption) && weight == 2.4
       case SharedDomain => caption == Trim(left.domain) && weight == 1.4
       case SharedType => caption == Trim(left.kind) && weight == 1.0
  }

  ghost predicate LeastShared(left: seq<string>, right: seq<string>, x: string) {
    SharedSpelling(left, right, x) && forall y :: SharedSpelling(left, right, y) ==> StringLeq(x, y)
  }

  lemma TopicMeans(left: Node, right: Node)
    requires EdgeReason(left, right).Link? && EdgeReason(left, right).reason == SharedTopic
    ensures LeastShared(left.topics, right.topics, EdgeReason(left, right).caption)
  {
    var first := FirstShared(left.topics, right.topics);
    forall y | SharedSpelling(left.topics, right.topics, y) ensures StringLeq(first, y) {
      FirstSharedIsLeast(left.topics, right.topics, y);
    }
    FirstSharedIsLeast(left.topics, right.topics, first);
  }

  lemma LinkMeans(left: Node, right: Node)
    requires EdgeReason(left, right).Link?
    ensures var link := EdgeReason(left, right); LinksFor(left, right, link.reason, link.caption, link.weight)
  {
    var link := EdgeReason(left, right);
    EdgeReasonExact(left, right);
    if link.reason == SharedTopic {
      TopicMeans(left, right);
    }
    StrongestIsFirst(left, right, link.reason);
  }

  /** The first of these that the nodes share is the strongest. */
  lemma StrongestIsFirst(left: Node, right: Node, reason: Reason)
    requires Share(left, right, reason)
    requires Share(left, right, SameCapture) ==> reason == SameCapture
    requires Share(left, right, SharedTopic) ==> reason == SameCapture || reason == SharedTopic
    requires Share(left, right, SharedDomain) ==> reason != SharedType
    ensures forall other :: Share(left, right, other) ==> Strength(other) <= Strength(reason)
  {
    forall other | Share(left, right, other) ensures Strength(other) <= Strength(reason) {
      match other
      case SameCapture => case SharedTopic => case SharedDomain => case SharedType =>
    }
  }

  lemma PairEdgeMeans(nodes: seq<Node>, e: Edge, l: nat, r: nat)
    requires LinkedPairEdge(EdgeReason, nodes, e, l, r)
    ensures JoinsFor(nodes[l], nodes[r], e)
  {
    LinkMeans(nodes[l], nodes[r]);
    StringLeqTotal(nodes[l].id, nodes[r].id);
  }

  lemma CandidateMeans(nodes: seq<Node>, e: Edge) returns (l: nat, r: nat)
    requires e in Candidates(nodes)
    ensures l < r < |nodes| && JoinsFor(nodes[l], nodes[r], e)
  {
    CandidatesExact(nodes);
    l, r :| LinkedPairEdge(EdgeReason, nodes, e, l, r);
    PairEdgeMeans(nodes, e, l, r);
  }

  /** `a` may stand before `b`: it is for a stronger reason, or for the same one and not later by
      caption, source and target. */
  ghost predicate MayPrecede(a: Edge, b: Edge) {
    Strength(a.reason) > Strength(b.reason)
    || (a.reason == b.reason && StringLeq(a.caption, b.caption)
        && (a.caption == b.caption ==> StringLeq(a.source, b.source) && (a.source == b.source ==> StringLeq(a.target, b.target))))
  }

  lemma OrderMeans(nodes: seq<Node>, a: Edge, b: Edge)
    requires a in Candidates(nodes) && b in Candidates(nodes) && EdgeLeq(a, b)
    ensures MayPrecede(a, b)
  {
    var l, r := CandidateMeans(nodes, a);
    var m, n := CandidateMeans(nodes, b);
    StringLeqTotal(a.caption, b.caption);
    StringLeqTotal(a.source, b.source);
    StringLeqTotal(a.target, b.target);
  }

  /** Every returned edge joins two nodes for the strongest reason they share, and the edges come by
      strength. */
  lemma StrongLinksFirst(nodes: seq<Node>)
    ensures var kept := Kept(RankedCandidates(nodes));
      && (forall i, j :: 0 <= i < j < |kept| ==> MayPrecede(kept[i], kept[j]))
      && (forall e :: e in kept ==> exists l, r :: 0 <= l < r < |nodes| && JoinsFor(nodes[l], nodes[r], e))
  {
    var kept := Kept(RankedCandidates(nodes));
    ReturnedEdges(nodes);
    forall i, j | 0 <= i < j < |kept| ensures MayPrecede(kept[i], kept[j]) {
      OrderMeans(nodes, kept[i], kept[j]);
    }
    forall e | e in kept ensures exists l, r :: 0 <= l < r < |nodes| && JoinsFor(nodes[l], nodes[r], e) {
      var l, r := CandidateMeans(nodes, e);
    }
  }

  /** The first `n` returned edges, none of them for a weaker reason than `e`, reach the cap of 650 or
      fill an end of `e`. */
  ghost predicate CrowdedOut(kept: seq<Edge>, n: nat, e: Edge) {
    && n <= |kept| && (forall k :: 0 <= k < n ==> MayPrecede(kept[k], e))
    && (n == 650 || Degree(kept[..n], e.source) >= 7 || Degree(kept[..n], e.target) >= 7)
  }

  lemma RankedBefore(nodes: seq<Node>, ranked: seq<Edge>, i: nat, x: Edge)
    requires ranked == RankedCandidates(nodes) && i < |ranked| && x in ranked[..i]
    ensures MayPrecede(x, ranked[i])
  {
    RankedCandidatesFacts(nodes);
    var m :| 0 <= m < i && ranked[m] == x;
    assert ranked[m] in ranked && ranked[i] in ranked && EdgeLeq(ranked[m], ranked[i]);
    OrderMeans(nodes, ranked[m], ranked[i]);
  }

  /** A linked pair's edge is left out only if returned edges that are as strong or stronger leave no
      room for it: no weaker link ever takes the place of a stronger one. */
  lemma OnlyStrongCrowdOut(nodes: seq<Node>, e: Edge)
    requires e in Candidates(nodes) && e !in Kept(RankedCandidates(nodes))
    ensures exists n: nat :: CrowdedOut(Kept(RankedCandidates(nodes)), n, e)
  {
    var ranked := RankedCandidates(nodes);
    RankedCandidatesFacts(nodes);
    assert e in ranked;
    var i :| 0 <= i < |ranked| && ranked[i] == e;
    CrowdedOutAt(nodes, ranked, i, Kept(ranked), Kept(ranked[..i]));
  }

  lemma CrowdedOutAt(nodes: seq<Node>, ranked: seq<Edge>, i: nat, kept: seq<Edge>, before: seq<Edge>)
    requires ranked == RankedCandidates(nodes) && i < |ranked| && kept == Kept(ranked) && before == Kept(ranked[..i]) && ranked[i] !in kept
    ensures CrowdedOut(kept, |before|, ranked[i])
  {
    DroppedOnlyWhenFull(ranked, i);
    KeptSubset(ranked[..i]);
    forall k | 0 <= k < |before| ensures MayPrecede(kept[k], ranked[i]) {
      assert kept[k] == before[k] && before[k] in before;
      RankedBefore(nodes, ranked, i, before[k]);
    }
    assert kept[..|before|] == before;
  }

  /** No selection of linked pairs within the caps has more than twice the returned weight. */
  lemma ReturnedWeight(nodes: seq<Node>, pick: seq<bool>)
    requires |pick| == |RankedCandidates(nodes)|
    requires |Select(RankedCandidates(nodes), pick)| <= MAX_EDGES
    requires forall node :: Degree(Select(RankedCandidates(nodes), pick), node) <= MAX_DEGREE
    ensures Weight(Select(RankedCandidates(nodes), pick)) <= 2.0 * Weight(Kept(RankedCandidates(nodes)))
  {
    RankedCandidatesFacts(nodes);
    HalfOfAnyWeight(RankedCandidates(nodes), pick);
  }
}
