/** The insight graph: which pairs of insights are linked, and which links are kept. */
module InsightGraph {
  import opened Text
  import opened Sorting

  const MAX_EDGES: nat := 650
  const MAX_DEGREE: nat := 7

  /** The parts of a node that decide its edges. */
  datatype Node = Node(id: string, captureIDs: seq<string>, topics: seq<string>, domain: string, kind: string)

  datatype Reason = SameCapture | SharedTopic | SharedDomain | SharedType

  datatype Link = NoLink | Link(reason: Reason, caption: string, weight: real)

  datatype Edge = Edge(id: string, source: string, target: string, reason: Reason, caption: string, weight: real)

  // ---------------------------------------------------------------- linking two nodes

  /** The display form of every value, by its folded form; the last one wins. */
  function Displays(values: seq<string>): map<string, string> {
    if values == [] then map[]
    else
      var rest := Displays(values[..|values| - 1]);
      var trimmed := Trim(values[|values| - 1]);
      if trimmed == "" then rest else rest[Lower(trimmed) := trimmed]
  }

  function Matches(displays: map<string, string>, values: seq<string>): seq<string> {
    if values == [] then []
    else
      var rest := Matches(displays, values[..|values| - 1]);
      var trimmed := Trim(values[|values| - 1]);
      if trimmed != "" && Lower(trimmed) in displays then rest + [displays[Lower(trimmed)]] else rest
  }

  function FirstShared(left: seq<string>, right: seq<string>): string {
    var matches := StableSort(StringLeq, Matches(Displays(left), right));
    if matches == [] then "" else matches[0]
  }

  /** The values that are not blank, up to surrounding space and case. */
  function Folded(values: seq<string>): set<string> {
    set v | v in values && !Blank(v) :: Lower(Trim(v))
  }

  method FirstSharedGraphValue(left: seq<string>, right: seq<string>) returns (shared: string)
    ensures shared == FirstShared(left, right)
  {
    var seen: map<string, string> := map[];
    for i := 0 to |left|
      invariant seen == Displays(left[..i])
    {
      assert left[..i + 1][..i] == left[..i];
      var trimmed := Trim(left[i]);
      if trimmed == "" {
        continue;
      }
      seen := seen[Lower(trimmed) := trimmed];
    }
    assert left[..|left|] == left;
    var matches: seq<string> := [];
    for j := 0 to |right|
      invariant matches == Matches(seen, right[..j])
    {
      assert right[..j + 1][..j] == right[..j];
      var trimmed := Trim(right[j]);
      if trimmed == "" {
        continue;
      }
      if Lower(trimmed) in seen {
        matches := matches + [seen[Lower(trimmed)]];
      }
    }
    assert right[..|right|] == right;
    matches := StableSort(StringLeq, matches);
    if |matches| == 0 {
      return "";
    }
    return matches[0];
  }

  lemma {:induction false} DisplaysMeaning(values: seq<string>)
    ensures Displays(values).Keys == Folded(values)
    ensures forall key :: key in Displays(values) ==> Displays(values)[key] != ""
  {
    if values != [] {
      var init, last := values[..|values| - 1], values[|values| - 1];
      DisplaysMeaning(init);
      assert values == init + [last];
      FoldedAppend(init, last);
    }
  }

  lemma FoldedAppend(init: seq<string>, last: string)
    ensures Folded(init + [last]) == Folded(init) + (if Blank(last) then {} else {Lower(Trim(last))})
  {
  }

  lemma {:induction false} MatchesMeaning(displays: map<string, string>, values: seq<string>)
    requires forall key :: key in displays ==> displays[key] != ""
    ensures forall m :: m in Matches(displays, values) ==> m != ""
    ensures Matches(displays, values) == [] <==> Folded(values) !! displays.Keys
  {
    if values != [] {
      var init, last := values[..|values| - 1], values[|values| - 1];
      MatchesMeaning(displays, init);
      assert values == init + [last];
      FoldedAppend(init, last);
      var folded := Lower(Trim(last));
      if Blank(last) {
        assert Matches(displays, values) == Matches(displays, init);
      } else if folded in displays {
        assert folded in Folded(values);
      } else {
        assert Matches(displays, values) == Matches(displays, init);
      }
    }
  }

  /** A shared value is reported exactly when there is one. */
  lemma FirstSharedMeaning(left: seq<string>, right: seq<string>)
    ensures FirstShared(left, right) == "" <==> Folded(left) !! Folded(right)
  {
    DisplaysMeaning(left);
    MatchesMeaning(Displays(left), right);
    var matches := Matches(Displays(left), right);
    var ranked := StableSort(StringLeq, matches);
    SameElements(matches, ranked);
    if ranked != [] {
      assert ranked[0] in matches;
    }
  }

  lemma {:induction false} DisplaysAreOwn(values: seq<string>)
    ensures forall key :: key in Displays(values) ==>
      Lower(Displays(values)[key]) == key && exists v :: v in values && Displays(values)[key] == Trim(v)
  {
    if values != [] {
      var init, last := values[..|values| - 1], values[|values| - 1];
      DisplaysAreOwn(init);
      assert forall v :: v in init ==> v in values;
      assert last in values;
    }
  }

  lemma {:induction false} MatchesAreShared(displays: map<string, string>, values: seq<string>, m: string)
    requires m in Matches(displays, values)
    requires forall key :: key in displays ==> Lower(displays[key]) == key
    ensures Lower(m) in displays && displays[Lower(m)] == m && Lower(m) in Folded(values)
  {
    var init, last := values[..|values| - 1], values[|values| - 1];
    assert values == init + [last];
    FoldedAppend(init, last);
    if m in Matches(displays, init) {
      MatchesAreShared(displays, init, m);
    }
  }

  /** What is reported is spelled as in the left list, and the right list has it up to case and space. */
  lemma FirstSharedIsShared(left: seq<string>, right: seq<string>)
    requires FirstShared(left, right) != ""
    ensures Lower(FirstShared(left, right)) in Folded(left) * Folded(right)
    ensures exists v :: v in left && FirstShared(left, right) == Trim(v)
  {
    var matches := Matches(Displays(left), right);
    SameElements(matches, StableSort(StringLeq, matches));
    DisplaysMeaning(left);
    DisplaysAreOwn(left);
    MatchesAreShared(Displays(left), right, FirstShared(left, right));
  }

  /** `x` is how the list spells one of its values: of several spellings the last one counts. */
  ghost predicate SpelledAt(values: seq<string>, i: nat, x: string) {
    && i < |values| && !Blank(values[i]) && x == Trim(values[i])
    && forall j :: i < j < |values| && !Blank(values[j]) ==> Lower(Trim(values[j])) != Lower(x)
  }

  ghost predicate Spells(values: seq<string>, x: string) {
    exists i: nat :: SpelledAt(values, i, x)
  }

  lemma SpellsMore(init: seq<string>, last: string, x: string)
    ensures Spells(init + [last], x) <==>
      if !Blank(last) && Lower(Trim(last)) == Lower(x) then x == Trim(last) else Spells(init, x)
  {
    var values := init + [last];
    if !Blank(last) && Lower(Trim(last)) == Lower(x) {
      assert x == Trim(last) ==> SpelledAt(values, |init|, x);
    } else {
      assert forall j {:trigger init[j]} {:trigger values[j]} :: 0 <= j < |init| ==> values[j] == init[j];
      assert values[|init|] == last;
      forall i: nat ensures SpelledAt(values, i, x) <==> SpelledAt(init, i, x) {
      }
    }
  }

  lemma {:induction false} DisplaysExact(values: seq<string>, x: string)
    ensures Lower(x) in Displays(values) && Displays(values)[Lower(x)] == x <==> Spells(values, x)
  {
    if values != [] {
      var init, last := values[..|values| - 1], values[|values| - 1];
      DisplaysExact(init, x);
      assert values == init + [last];
      SpellsMore(init, last, x);
    }
  }

  lemma {:induction false} MatchesHave(displays: map<string, string>, values: seq<string>, x: string)
    requires Lower(x) in displays && displays[Lower(x)] == x && Lower(x) in Folded(values)
    ensures x in Matches(displays, values)
  {
    var init, last := values[..|values| - 1], values[|values| - 1];
    assert values == init + [last];
    FoldedAppend(init, last);
    if Lower(x) in Folded(init) {
      MatchesHave(displays, init, x);
    }
  }

  /** A candidate for the caption: a spelling of the left list that the right list has up to case. */
  ghost predicate SharedSpelling(left: seq<string>, right: seq<string>, x: string) {
    Spells(left, x) && Lower(x) in Folded(right)
  }

  /** What is reported is the least of these. */
  lemma FirstSharedIsLeast(left: seq<string>, right: seq<string>, x: string)
    requires FirstShared(left, right) != ""
    ensures SharedSpelling(left, right, FirstShared(left, right))
    ensures SharedSpelling(left, right, x) ==> StringLeq(FirstShared(left, right), x)
  {
    var displays := Displays(left);
    var matches := Matches(displays, right);
    var sorted := StableSort(StringLeq, matches);
    var first := FirstShared(left, right);
    SameElements(matches, sorted);
    StringOrder();
    StableSortOrdered(StringLeq, matches);
    DisplaysAreOwn(left);
    MatchesAreShared(displays, right, first);
    DisplaysExact(left, first);
    if SharedSpelling(left, right, x) {
      DisplaysExact(left, x);
      MatchesHave(displays, right, x);
      var k :| 0 <= k < |sorted| && sorted[k] == x;
      StringLeqTotal(x, x);
      assert k > 0 ==> StringLeq(sorted[0], sorted[k]);
    }
  }

  lemma StringOrder()
    ensures TotalPreorder(StringLeq)
  {
    forall a: string, b: string ensures StringLeq(a, b) || StringLeq(b, a) {
      StringLeqTotal(a, b);
    }
    forall a: string, b: string, c: string | StringLeq(a, b) && StringLeq(b, c) ensures StringLeq(a, c) {
      StringLeqTransitive(a, b, c);
    }
  }

  lemma FirstSharedSymmetric(left: seq<string>, right: seq<string>)
    ensures FirstShared(left, right) != "" <==> FirstShared(right, left) != ""
  {
    FirstSharedMeaning(left, right);
    FirstSharedMeaning(right, left);
  }

  /** `strings.EqualFold` of the two trimmed values, when the left one is not blank. */
  predicate SameField(left: string, right: string) {
    !Blank(left) && Lower(Trim(left)) == Lower(Trim(right))
  }

  function EdgeReason(left: Node, right: Node): Link {
    var capture := FirstShared(left.captureIDs, right.captureIDs);
    var topic := FirstShared(left.topics, right.topics);
    if capture != "" then Link(SameCapture, "Same source", 3.0)
    else if topic != "" then Link(SharedTopic, topic, 2.4)
    else if SameField(left.domain, right.domain) then Link(SharedDomain, Trim(left.domain), 1.4)
    else if SameField(left.kind, right.kind) then Link(SharedType, Trim(left.kind), 1.0)
    else NoLink
  }

  method InsightGraphEdgeReason(left: Node, right: Node) returns (link: Link)
    ensures link == EdgeReason(left, right)
  {
    var shared := FirstSharedGraphValue(left.captureIDs, right.captureIDs);
    if shared != "" {
      return Link(SameCapture, "Same source", 3.0);
    }
    shared := FirstSharedGraphValue(left.topics, right.topics);
    if shared != "" {
      return Link(SharedTopic, shared, 2.4);
    }
    if SameField(left.domain, right.domain) {
      return Link(SharedDomain, Trim(left.domain), 1.4);
    }
    if SameField(left.kind, right.kind) {
      return Link(SharedType, Trim(left.kind), 1.0);
    }
    return NoLink;
  }

  lemma SameFieldMeaning(left: string, right: string)
    ensures SameField(left, right) <==> !(Folded([left]) !! Folded([right]))
  {
    FoldedAppend([], left);
    FoldedAppend([], right);
    assert [] + [left] == [left] && [] + [right] == [right];
    if Lower(Trim(left)) == Lower(Trim(right)) {
      assert |Trim(left)| == |Trim(right)|;
    }
  }

  /** Two lists have a value in common, up to case and surrounding space. */
  ghost predicate Common(left: seq<string>, right: seq<string>) {
    !(Folded(left) !! Folded(right))
  }

  /** Why two nodes are linked, how strongly, and with which caption, in terms of what they have in
      common: captures come before topics, these before domains, and these before types. A link by
      topic is captioned with a shared one, as the left node spells it. */
  lemma EdgeReasonExact(left: Node, right: Node)
    ensures var link := EdgeReason(left, right);
      if Common(left.captureIDs, right.captureIDs) then link == Link(SameCapture, "Same source", 3.0)
      else if Common(left.topics, right.topics) then
        && link.Link? && link.reason == SharedTopic && link.weight == 2.4
        && Lower(link.caption) in Folded(left.topics) * Folded(right.topics) && exists v :: v in left.topics && link.caption == Trim(v)
      else if Common([left.domain], [right.domain]) then link == Link(SharedDomain, Trim(left.domain), 1.4)
      else if Common([left.kind], [right.kind]) then link == Link(SharedType, Trim(left.kind), 1.0)
      else link.NoLink?
  {
    FirstSharedMeaning(left.captureIDs, right.captureIDs);
    FirstSharedMeaning(left.topics, right.topics);
    SameFieldMeaning(left.domain, right.domain);
    SameFieldMeaning(left.kind, right.kind);
    if FirstShared(left.topics, right.topics) != "" {
      FirstSharedIsShared(left.topics, right.topics);
    }
  }

  lemma SameFieldSymmetric(left: string, right: string)
    ensures SameField(left, right) <==> SameField(right, left)
  {
    if Lower(Trim(left)) == Lower(Trim(right)) {
      assert |Trim(left)| == |Trim(right)|;
    }
  }

  /** Whether two nodes are linked, why, and how strongly does not depend on which
      comes first; only the spelling of the caption does. */
  lemma EdgeReasonSymmetric(a: Node, b: Node)
    ensures EdgeReason(a, b).NoLink? <==> EdgeReason(b, a).NoLink?
    ensures EdgeReason(a, b).Link? ==>
      EdgeReason(a, b).reason == EdgeReason(b, a).reason && EdgeReason(a, b).weight == EdgeReason(b, a).weight
  {
    FirstSharedSymmetric(a.captureIDs, b.captureIDs);
    FirstSharedSymmetric(a.topics, b.topics);
    SameFieldSymmetric(a.domain, b.domain);
    SameFieldSymmetric(a.kind, b.kind);
  }

  // ---------------------------------------------------------------- candidate edges

  function OrderedPair(left: string, right: string): (string, string) {
    if StringLeq(left, right) then (left, right) else (right, left)
  }

  function PairID(nodes: seq<Node>, l: nat, r: nat): string
    requires l < |nodes| && r < |nodes|
  {
    var pair := OrderedPair(nodes[l].id, nodes[r].id);
    pair.0 + "::" + pair.1
  }

  /** How a pair of nodes is judged; the program uses `EdgeReason`. */
  type Judge = (Node, Node) -> Link

  predicate Linked(judge: Judge, nodes: seq<Node>, l: nat, r: nat)
    requires l < |nodes| && r < |nodes|
  {
    judge(nodes[l], nodes[r]).Link?
  }

  function LinkEdge(link: Link, left: string, right: string): Edge
    requires link.Link?
  {
    var pair := OrderedPair(left, right);
    Edge(pair.0 + "::" + pair.1, pair.0, pair.1, link.reason, link.caption, link.weight)
  }

  function PairEdge(judge: Judge, nodes: seq<Node>, l: nat, r: nat): Edge
    requires l < |nodes| && r < |nodes| && Linked(judge, nodes, l, r)
  {
    LinkEdge(judge(nodes[l], nodes[r]), nodes[l].id, nodes[r].id)
  }

  function EdgeIDs(edges: seq<Edge>): set<string> {
    set e | e in edges :: e.id
  }

  /** The edges of the linked pairs (l, l + 1), ..., (l, upTo - 1). */
  function RowEdges(judge: Judge, nodes: seq<Node>, l: nat, upTo: nat): seq<Edge>
    requires l < upTo <= |nodes|
    decreases upTo
  {
    if upTo == l + 1 then []
    else RowEdges(judge, nodes, l, upTo - 1) + (if Linked(judge, nodes, l, upTo - 1) then [PairEdge(judge, nodes, l, upTo - 1)] else [])
  }

  /** The edges of the linked pairs whose left node comes before `upTo`, in scan order. */
  function PairEdges(judge: Judge, nodes: seq<Node>, upTo: nat): seq<Edge>
    requires upTo <= |nodes|
  {
    if upTo == 0 then [] else PairEdges(judge, nodes, upTo - 1) + RowEdges(judge, nodes, upTo - 1, |nodes|)
  }

  /** The first edge of every ID. */
  function FirstByID(edges: seq<Edge>): seq<Edge> {
    if edges == [] then []
    else
      var first := FirstByID(edges[..|edges| - 1]);
      var e := edges[|edges| - 1];
      if e.id in EdgeIDs(first) then first else first + [e]
  }

  function Candidates(nodes: seq<Node>): seq<Edge> {
    FirstByID(PairEdges(EdgeReason, nodes, |nodes|))
  }

  predicate StringLess(a: string, b: string) {
    a != b && StringLeq(a, b)
  }

  predicate EdgeLess(a: Edge, b: Edge) {
    if a.weight != b.weight then a.weight > b.weight
    else if a.caption != b.caption then StringLess(a.caption, b.caption)
    else if a.source != b.source then StringLess(a.source, b.source)
    else StringLess(a.target, b.target)
  }

  predicate EdgeLeq(a: Edge, b: Edge) {
    !EdgeLess(b, a)
  }

  lemma EdgeLeqTotalPreorder()
    ensures TotalPreorder(EdgeLeq)
  {
    forall a: Edge, b: Edge ensures EdgeLeq(a, b) || EdgeLeq(b, a) {
      StringLeqTotal(a.caption, b.caption);
      StringLeqTotal(a.source, b.source);
      StringLeqTotal(a.target, b.target);
    }
    forall a: Edge, b: Edge, c: Edge | EdgeLeq(a, b) && EdgeLeq(b, c) ensures EdgeLeq(a, c) {
      StringCompare(a.caption, b.caption, c.caption);
      StringCompare(a.source, b.source, c.source);
      StringCompare(a.target, b.target, c.target);
    }
  }

  lemma StringCompare(a: string, b: string, c: string)
    ensures StringLess(a, b) ==> !StringLess(b, a)
    ensures !StringLess(b, a) && !StringLess(c, b) ==> !StringLess(c, a)
    ensures !StringLess(b, a) && !StringLess(a, b) ==> a == b
  {
    StringLeqTotal(a, b);
    StringLeqTotal(b, c);
    StringLeqTotal(a, c);
    if StringLeq(a, b) && StringLeq(b, c) {
      StringLeqTransitive(a, b, c);
    }
  }

  /** The candidates in the order in which the greedy pass sees them. */
  function RankedCandidates(nodes: seq<Node>): seq<Edge> {
    StableSort(EdgeLeq, Candidates(nodes))
  }

  // ---------------------------------------------------------------- the greedy pass

  function EndsAt(e: Edge, node: string): nat {
    (if e.source == node then 1 else 0) + (if e.target == node then 1 else 0)
  }

  /** How many ends of `edges` are at `node`; an edge from a node to itself has two. */
  function Degree(edges: seq<Edge>, node: string): nat {
    if edges == [] then 0
    else
      Degree(edges[..|edges| - 1], node) + EndsAt(edges[|edges| - 1], node)
  }

  predicate Accepts(kept: seq<Edge>, e: Edge) {
    |kept| < MAX_EDGES && Degree(kept, e.source) < MAX_DEGREE && Degree(kept, e.target) < MAX_DEGREE
  }

  /** What the greedy pass keeps of `ranked`. */
  function Kept(ranked: seq<Edge>): seq<Edge> {
    if ranked == [] then []
    else
      var kept := Kept(ranked[..|ranked| - 1]);
      if Accepts(kept, ranked[|ranked| - 1]) then kept + [ranked[|ranked| - 1]] else kept
  }

  lemma KeptStep(ranked: seq<Edge>, k: nat)
    requires k < |ranked|
    ensures Kept(ranked[..k + 1]) ==
      if Accepts(Kept(ranked[..k]), ranked[k]) then Kept(ranked[..k]) + [ranked[k]] else Kept(ranked[..k])
  {
    assert ranked[..k + 1][..k] == ranked[..k];
  }

  function Increment(degrees: map<string, nat>, node: string): map<string, nat> {
    degrees[node := DegreeIn(degrees, node) + 1]
  }

  ghost predicate Tracks(degrees: map<string, nat>, edges: seq<Edge>) {
    forall node :: DegreeIn(degrees, node) == Degree(edges, node)
  }

  lemma TracksStep(degrees: map<string, nat>, edges: seq<Edge>, e: Edge)
    requires Tracks(degrees, edges)
    ensures Tracks(Increment(Increment(degrees, e.source), e.target), edges + [e])
  {
    DegreeAppend(edges, e);
    var after := Increment(Increment(degrees, e.source), e.target);
    forall node ensures DegreeIn(after, node) == Degree(edges + [e], node) {
      assert DegreeIn(degrees, node) == Degree(edges, node);
      assert DegreeIn(after, node) == DegreeIn(degrees, node) + EndsAt(e, node);
    }
  }

  function DegreeIn(degrees: map<string, nat>, node: string): nat {
    if node in degrees then degrees[node] else 0
  }

  lemma FirstByIDStep(edges: seq<Edge>, e: Edge)
    ensures FirstByID(edges + [e]) == if e.id in EdgeIDs(FirstByID(edges)) then FirstByID(edges) else FirstByID(edges) + [e]
    ensures EdgeIDs(FirstByID(edges + [e])) == EdgeIDs(FirstByID(edges)) + {e.id}
  {
    assert (edges + [e])[..|edges|] == edges;
  }

  /** What has been collected when the scan reaches the pair (l, r). */
  function Scanned(judge: Judge, nodes: seq<Node>, l: nat, r: nat): seq<Edge>
    requires l < r <= |nodes|
  {
    FirstByID(PairEdges(judge, nodes, l) + RowEdges(judge, nodes, l, r))
  }

  /** `edges` with the edge of one more pair, unless there is none or its ID is taken. */
  function Extended(edges: seq<Edge>, link: Link, left: string, right: string): seq<Edge> {
    if link.NoLink? || LinkEdge(link, left, right).id in EdgeIDs(edges) then edges
    else edges + [LinkEdge(link, left, right)]
  }

  lemma ScanPair(judge: Judge, nodes: seq<Node>, l: nat, r: nat, link: Link)
    requires l < r < |nodes| && link == judge(nodes[l], nodes[r])
    ensures Scanned(judge, nodes, l, r + 1) ==
      Extended(Scanned(judge, nodes, l, r), link, nodes[l].id, nodes[r].id)
  {
    var above, row := PairEdges(judge, nodes, l), RowEdges(judge, nodes, l, r);
    if Linked(judge, nodes, l, r) {
      var e := PairEdge(judge, nodes, l, r);
      assert above + RowEdges(judge, nodes, l, r + 1) == (above + row) + [e];
      FirstByIDStep(above + row, e);
    } else {
      assert RowEdges(judge, nodes, l, r + 1) == row;
    }
  }

  /** What has been collected from the rows above `l`. */
  function ScannedRows(judge: Judge, nodes: seq<Node>, l: nat): seq<Edge>
    requires l <= |nodes|
  {
    FirstByID(PairEdges(judge, nodes, l))
  }

  lemma ScanRow(judge: Judge, nodes: seq<Node>, l: nat)
    requires l < |nodes|
    ensures Scanned(judge, nodes, l, l + 1) == ScannedRows(judge, nodes, l)
    ensures Scanned(judge, nodes, l, |nodes|) == ScannedRows(judge, nodes, l + 1)
  {
    assert PairEdges(judge, nodes, l) + [] == PairEdges(judge, nodes, l);
  }

  method AddLink(edges0: seq<Edge>, seen0: set<string>, link: Link, left: string, right: string)
    returns (edges: seq<Edge>, seen: set<string>)
    requires seen0 == EdgeIDs(edges0)
    ensures edges == Extended(edges0, link, left, right) && seen == EdgeIDs(edges)
  {
    edges, seen := edges0, seen0;
    if link.NoLink? {
      return;
    }
    var pair := OrderedPair(left, right);
    var id := pair.0 + "::" + pair.1;
    if id in seen {
      return;
    }
    seen := seen + {id};
    edges := edges + [Edge(id, pair.0, pair.1, link.reason, link.caption, link.weight)];
  }

  /** `judge` stands for the program's own judgement. */
  ghost predicate Judges(judge: Judge) {
    forall left, right {:trigger EdgeReason(left, right)} :: judge(left, right) == EdgeReason(left, right)
  }

  /** `scanned` tells what has been collected when the scan of row `l` reaches a node. */
  ghost predicate Scans(scanned: nat -> seq<Edge>, judge: Judge, nodes: seq<Node>, l: nat) {
    forall r: nat {:trigger Scanned(judge, nodes, l, r)} :: l < r <= |nodes| ==> scanned(r) == Scanned(judge, nodes, l, r)
  }

  /** The body of the inner loop: one more pair. */
  method ConsiderPair(ghost judge: Judge, ghost scanned: nat -> seq<Edge>, nodes: seq<Node>, l: nat, r: nat,
                      edges0: seq<Edge>, seen0: set<string>)
    returns (edges: seq<Edge>, seen: set<string>)
    requires l < r < |nodes| && Judges(judge) && Scans(scanned, judge, nodes, l)
    requires edges0 == scanned(r) && seen0 == EdgeIDs(edges0)
    ensures edges == scanned(r + 1) && seen == EdgeIDs(edges)
  {
    var link := InsightGraphEdgeReason(nodes[l], nodes[r]);
    ScanPair(judge, nodes, l, r, link);
    assert edges0 == Scanned(judge, nodes, l, r);
    edges, seen := AddLink(edges0, seen0, link, nodes[l].id, nodes[r].id);
  }

  /** The inner loop: the pairs of one left node. */
  method CollectRow(ghost judge: Judge, ghost scanned: nat -> seq<Edge>, nodes: seq<Node>, leftIndex: nat,
                    edges0: seq<Edge>, seen0: set<string>)
    returns (edges: seq<Edge>, seen: set<string>)
    requires leftIndex < |nodes| && Judges(judge) && Scans(scanned, judge, nodes, leftIndex)
    requires edges0 == scanned(leftIndex + 1) && seen0 == EdgeIDs(edges0)
    ensures edges == scanned(|nodes|) && seen == EdgeIDs(edges)
  {
    edges, seen := edges0, seen0;
    for rightIndex: nat := leftIndex + 1 to |nodes|
      invariant edges == scanned(rightIndex) && seen == EdgeIDs(edges)
    {
      edges, seen := ConsiderPair(judge, scanned, nodes, leftIndex, rightIndex, edges, seen);
    }
  }

  ghost function ScanOf(judge: Judge, nodes: seq<Node>, l: nat): (scanned: nat -> seq<Edge>)
    requires l < |nodes|
    ensures Scans(scanned, judge, nodes, l)
  {
    (r: nat) => if l < r <= |nodes| then Scanned(judge, nodes, l, r) else []
  }

  /** `rows` tells what has been collected from the rows above a node. */
  ghost predicate ScansRows(rows: nat -> seq<Edge>, judge: Judge, nodes: seq<Node>) {
    forall l: nat {:trigger ScannedRows(judge, nodes, l)} :: l <= |nodes| ==> rows(l) == ScannedRows(judge, nodes, l)
  }

  ghost function RowsOf(judge: Judge, nodes: seq<Node>): (rows: nat -> seq<Edge>)
    ensures ScansRows(rows, judge, nodes)
  {
    (l: nat) => if l <= |nodes| then ScannedRows(judge, nodes, l) else []
  }

  /** The body of the outer loop. */
  method CollectNextRow(ghost judge: Judge, ghost rows: nat -> seq<Edge>, nodes: seq<Node>, leftIndex: nat,
                        edges0: seq<Edge>, seen0: set<string>)
    returns (edges: seq<Edge>, seen: set<string>)
    requires leftIndex < |nodes| && Judges(judge) && ScansRows(rows, judge, nodes)
    requires edges0 == rows(leftIndex) && seen0 == EdgeIDs(edges0)
    ensures edges == rows(leftIndex + 1) && seen == EdgeIDs(edges)
  {
    ghost var scanned := ScanOf(judge, nodes, leftIndex);
    RowBounds(judge, rows, scanned, nodes, leftIndex);
    edges, seen := CollectRow(judge, scanned, nodes, leftIndex, edges0, seen0);
  }

  lemma RowBounds(judge: Judge, rows: nat -> seq<Edge>, scanned: nat -> seq<Edge>, nodes: seq<Node>, l: nat)
    requires l < |nodes| && Scans(scanned, judge, nodes, l) && ScansRows(rows, judge, nodes)
    ensures scanned(l + 1) == rows(l) && scanned(|nodes|) == rows(l + 1)
  {
    ScanRow(judge, nodes, l);
  }

  method CollectAll(ghost judge: Judge, ghost rows: nat -> seq<Edge>, nodes: seq<Node>) returns (edges: seq<Edge>)
    requires Judges(judge) && ScansRows(rows, judge, nodes) && rows(0) == []
    ensures edges == rows(|nodes|)
  {
    edges := [];
    var seen: set<string> := {};
    for leftIndex: nat := 0 to |nodes|
      invariant edges == rows(leftIndex) && seen == EdgeIDs(edges)
    {
      edges, seen := CollectNextRow(judge, rows, nodes, leftIndex, edges, seen);
    }
  }

  method CollectEdges(ghost judge: Judge, nodes: seq<Node>) returns (edges: seq<Edge>)
    requires Judges(judge)
    ensures edges == ScannedRows(judge, nodes, |nodes|)
  {
    ghost var rows := RowsOf(judge, nodes);
    assert ScannedRows(judge, nodes, 0) == [];
    edges := CollectAll(judge, rows, nodes);
  }

  method KeepEdges(edges: seq<Edge>) returns (filtered: seq<Edge>)
    ensures filtered == Kept(edges)
  {
    var degrees: map<string, nat> := map[];
    filtered := [];
    for k := 0 to |edges|
      invariant filtered == Kept(edges[..k])
      invariant Tracks(degrees, filtered)
    {
      var edge := edges[k];
      KeptStep(edges, k);
      if |filtered| >= MAX_EDGES {
        KeptFull(edges, k);
        return;
      }
      if DegreeIn(degrees, edge.source) >= MAX_DEGREE || DegreeIn(degrees, edge.target) >= MAX_DEGREE {
        continue;
      }
      TracksStep(degrees, filtered, edge);
      filtered := filtered + [edge];
      degrees := Increment(Increment(degrees, edge.source), edge.target);
    }
    assert edges[..|edges|] == edges;
  }

  method BuildInsightGraphEdges(nodes: seq<Node>) returns (filtered: seq<Edge>)
    ensures filtered == Kept(RankedCandidates(nodes))
  {
    var edges := CollectEdges(EdgeReason, nodes);
    edges := StableSort(EdgeLeq, edges);
    filtered := KeepEdges(edges);
  }

  lemma DegreeAppend(edges: seq<Edge>, e: Edge)
    ensures forall node :: Degree(edges + [e], node) == Degree(edges, node) + EndsAt(e, node)
  {
    assert (edges + [e])[..|edges|] == edges;
  }

  lemma {:induction false} KeptFull(ranked: seq<Edge>, k: nat)
    requires k <= |ranked| && |Kept(ranked[..k])| >= MAX_EDGES
    ensures Kept(ranked) == Kept(ranked[..k])
  {
    if k < |ranked| {
      var n := |ranked| - 1;
      assert ranked[..n][..k] == ranked[..k];
      KeptFull(ranked[..n], k);
    } else {
      assert ranked[..k] == ranked;
    }
  }
}
