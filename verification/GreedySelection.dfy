/** What the greedy pass over the ranked candidates guarantees: caps, maximality, and
    at least half the weight of any selection that respects the same caps. */
module GreedySelection {
  import opened Text
  import opened Sorting
  import opened InsightGraph

  // ---------------------------------------------------------------- caps and maximality

  ghost predicate SelfLoop(e: Edge) {
    e.source == e.target
  }

  lemma {:induction false} KeptCaps(ranked: seq<Edge>, node: string)
    ensures |Kept(ranked)| <= MAX_EDGES
    ensures Degree(Kept(ranked), node) <= MAX_DEGREE + 1
  {
    if ranked != [] {
      var n := |ranked| - 1;
      KeptCaps(ranked[..n], node);
      DegreeAppend(Kept(ranked[..n]), ranked[n]);
    }
  }

  /** `ranked[i]` is an edge of `node` to itself, accepted when `node` had six ends. */
  ghost predicate OverflowsAt(ranked: seq<Edge>, i: nat, node: string)
    requires i < |ranked|
  {
    && ranked[i].source == node && ranked[i].target == node
    && |Kept(ranked[..i])| < MAX_EDGES
    && Degree(Kept(ranked[..i]), node) == MAX_DEGREE - 1
  }

  ghost predicate Overflows(ranked: seq<Edge>, node: string) {
    exists i :: 0 <= i < |ranked| && OverflowsAt(ranked, i, node)
  }

  lemma OverflowsStep(ranked: seq<Edge>, node: string)
    requires |ranked| > 0
    ensures var n := |ranked| - 1;
      Overflows(ranked, node) <==> Overflows(ranked[..n], node) || OverflowsAt(ranked, n, node)
  {
    var n := |ranked| - 1;
    forall i | 0 <= i < n ensures OverflowsAt(ranked[..n], i, node) <==> OverflowsAt(ranked, i, node) {
      assert ranked[..n][..i] == ranked[..i];
    }
  }

  /** A node goes over the degree cap only that way, and then has eight ends. */
  lemma {:induction false} DegreeOverflow(ranked: seq<Edge>, node: string)
    ensures Degree(Kept(ranked), node) > MAX_DEGREE <==> Overflows(ranked, node)
  {
    if ranked != [] {
      var n := |ranked| - 1;
      var kept := Kept(ranked[..n]);
      DegreeOverflow(ranked[..n], node);
      KeptCaps(ranked[..n], node);
      DegreeAppend(kept, ranked[n]);
      OverflowsStep(ranked, node);
      assert Degree(Kept(ranked), node) > MAX_DEGREE <==> Degree(kept, node) > MAX_DEGREE || OverflowsAt(ranked, n, node);
    }
  }

  /** Without edges from a node to itself the degree cap holds everywhere. */
  lemma DegreeCap(ranked: seq<Edge>, node: string)
    requires forall e :: e in ranked ==> !SelfLoop(e)
    ensures Degree(Kept(ranked), node) <= MAX_DEGREE
  {
    DegreeOverflow(ranked, node);
    forall i | 0 <= i < |ranked| ensures !OverflowsAt(ranked, i, node) {
      assert ranked[i] in ranked;
    }
  }

  /** Up to six edges from different nodes to one hub are all kept. */
  lemma {:induction false} StarKept(spokes: seq<Edge>, hub: string)
    requires |spokes| < MAX_DEGREE
    requires forall e :: e in spokes ==> e.target == hub && e.source != hub
    requires forall i, j :: 0 <= i < j < |spokes| ==> spokes[i].source != spokes[j].source
    ensures Kept(spokes) == spokes && Degree(spokes, hub) == |spokes|
    ensures forall node :: node != hub && (forall e :: e in spokes ==> e.source != node) ==> Degree(spokes, node) == 0
  {
    if spokes != [] {
      var n := |spokes| - 1;
      var init, last := spokes[..n], spokes[n];
      assert spokes == init + [last];
      StarKept(init, hub);
      assert Degree(init, last.source) == 0;
      assert Accepts(init, last);
    }
  }

  /** Six neighbours and then an edge of the hub to itself: the hub ends with eight ends. */
  lemma DegreeCapFailsWithSelfLoop()
    ensures exists ranked, node :: Degree(Kept(ranked), node) == MAX_DEGREE + 1
  {
    var a, b, c := Edge("a::v", "a", "v", SharedType, "t", 1.0), Edge("b::v", "b", "v", SharedType, "t", 1.0), Edge("c::v", "c", "v", SharedType, "t", 1.0);
    var d, e, f := Edge("d::v", "d", "v", SharedType, "t", 1.0), Edge("e::v", "e", "v", SharedType, "t", 1.0), Edge("f::v", "f", "v", SharedType, "t", 1.0);
    var loop := Edge("v::v", "v", "v", SharedType, "t", 1.0);
    var spokes := [a, b, c, d, e, f];
    StarKept(spokes, "v");
    assert (spokes + [loop])[..6] == spokes;
    DegreeAppend(spokes, loop);
    assert Degree(Kept(spokes + [loop]), "v") == 8;
  }

  /** A candidate is missing from the result only because, when its turn came, the edge cap
      was reached or one of its ends was already full; and what filled them was kept. */
  lemma {:induction false} DroppedOnlyWhenFull(ranked: seq<Edge>, i: nat)
    requires i < |ranked| && ranked[i] !in Kept(ranked)
    ensures Kept(ranked[..i]) <= Kept(ranked)
    ensures |Kept(ranked[..i])| == MAX_EDGES
      || Degree(Kept(ranked[..i]), ranked[i].source) >= MAX_DEGREE
      || Degree(Kept(ranked[..i]), ranked[i].target) >= MAX_DEGREE
  {
    KeptGrows(ranked, i);
    KeptCaps(ranked[..i], "");
    AcceptedIsKept(ranked, i);
  }

  lemma AcceptedIsKept(ranked: seq<Edge>, i: nat)
    requires i < |ranked|
    ensures Accepts(Kept(ranked[..i]), ranked[i]) ==> ranked[i] in Kept(ranked)
  {
    KeptStep(ranked, i);
    KeptGrows(ranked, i + 1);
    if Accepts(Kept(ranked[..i]), ranked[i]) {
      assert Kept(ranked)[|Kept(ranked[..i])|] == ranked[i];
    }
  }

  lemma {:induction false} KeptGrows(ranked: seq<Edge>, k: nat)
    requires k <= |ranked|
    ensures Kept(ranked[..k]) <= Kept(ranked)
  {
    if k < |ranked| {
      var n := |ranked| - 1;
      assert ranked[..n][..k] == ranked[..k];
      KeptGrows(ranked[..n], k);
    } else {
      assert ranked[..k] == ranked;
    }
  }

  ghost predicate UniqueIDs(edges: seq<Edge>) {
    forall i, j :: 0 <= i < j < |edges| ==> edges[i].id != edges[j].id
  }

  lemma {:induction false} KeptSubset(ranked: seq<Edge>)
    ensures forall e :: e in Kept(ranked) ==> e in ranked
  {
    if ranked != [] {
      var n := |ranked| - 1;
      KeptSubset(ranked[..n]);
      assert ranked == ranked[..n] + [ranked[n]];
    }
  }

  /** What is kept stays in rank order, each ID once. */
  lemma {:induction false} KeptOrderedAndUnique(ranked: seq<Edge>)
    requires UniqueIDs(ranked) && Ordered(EdgeLeq, ranked)
    ensures UniqueIDs(Kept(ranked)) && Ordered(EdgeLeq, Kept(ranked))
  {
    if ranked != [] {
      var n := |ranked| - 1;
      KeptOrderedAndUnique(ranked[..n]);
      KeptSubset(ranked[..n]);
      var kept := Kept(ranked[..n]);
      forall e | e in kept ensures EdgeLeq(e, ranked[n]) && e.id != ranked[n].id {
        assert e in ranked[..n];
      }
      assert Ordered(EdgeLeq, kept + [ranked[n]]);
      assert UniqueIDs(kept + [ranked[n]]);
    }
  }

  // ---------------------------------------------------------------- half of the best weight

  /** The elements of `edges` marked by `pick`: every subset of the candidates is some `pick`. */
  function Select(edges: seq<Edge>, pick: seq<bool>): seq<Edge>
    requires |edges| == |pick|
  {
    if edges == [] then []
    else
      var n := |edges| - 1;
      var rest := Select(edges[..n], pick[..n]);
      if pick[n] then rest + [edges[n]] else rest
  }

  function Weight(edges: seq<Edge>): real {
    if edges == [] then 0.0 else Weight(edges[..|edges| - 1]) + edges[|edges| - 1].weight
  }

  /** How many ends of `e` lie in `nodes`. */
  function EndsIn(e: Edge, nodes: set<string>): nat {
    (if e.source in nodes then 1 else 0) + (if e.target in nodes then 1 else 0)
  }

  function AllEndsIn(edges: seq<Edge>, nodes: set<string>): nat {
    if edges == [] then 0 else AllEndsIn(edges[..|edges| - 1], nodes) + EndsIn(edges[|edges| - 1], nodes)
  }

  lemma AllEndsInAppend(edges: seq<Edge>, e: Edge, nodes: set<string>)
    ensures AllEndsIn(edges + [e], nodes) == AllEndsIn(edges, nodes) + EndsIn(e, nodes)
  {
    assert (edges + [e])[..|edges|] == edges;
  }

  lemma {:induction false} AllEndsInNone(edges: seq<Edge>)
    ensures AllEndsIn(edges, {}) == 0
  {
    if edges != [] {
      AllEndsInNone(edges[..|edges| - 1]);
    }
  }

  lemma {:induction false} AllEndsInSplit(edges: seq<Edge>, nodes: set<string>, node: string)
    requires node in nodes
    ensures AllEndsIn(edges, nodes) == AllEndsIn(edges, nodes - {node}) + Degree(edges, node)
  {
    if edges != [] {
      AllEndsInSplit(edges[..|edges| - 1], nodes, node);
    }
  }

  lemma {:induction false} AllEndsInMonotone(a: seq<Edge>, b: seq<Edge>, nodes: set<string>)
    requires forall node :: node in nodes ==> Degree(a, node) <= Degree(b, node)
    ensures AllEndsIn(a, nodes) <= AllEndsIn(b, nodes)
    decreases nodes
  {
    if nodes == {} {
      AllEndsInNone(a);
    } else {
      var node :| node in nodes;
      AllEndsInMonotone(a, b, nodes - {node});
      AllEndsInSplit(a, nodes, node);
      AllEndsInSplit(b, nodes, node);
    }
  }

  /** Every candidate that is not kept has an end in `full`. */
  ghost predicate Blocks(full: set<string>, edges: seq<Edge>) {
    forall i :: 0 <= i < |edges| && !Accepts(Kept(edges[..i]), edges[i]) ==> EndsIn(edges[i], full) >= 1
  }

  lemma BlocksPrefix(full: set<string>, edges: seq<Edge>)
    requires |edges| > 0 && Blocks(full, edges)
    ensures Blocks(full, edges[..|edges| - 1])
  {
    var init := edges[..|edges| - 1];
    forall i | 0 <= i < |init| && !Accepts(Kept(init[..i]), init[i]) ensures EndsIn(init[i], full) >= 1 {
      assert init[..i] == edges[..i];
    }
  }

  /** Then every picked edge is either kept or has an end in `full`. */
  lemma {:induction false} PickedAreCovered(edges: seq<Edge>, pick: seq<bool>, full: set<string>)
    requires |edges| == |pick| && Blocks(full, edges)
    ensures |Select(edges, pick)| + AllEndsIn(Kept(edges), full) <=
      AllEndsIn(Select(edges, pick), full) + 2 * |Kept(edges)|
  {
    if edges != [] {
      var n := |edges| - 1;
      BlocksPrefix(full, edges);
      PickedAreCovered(edges[..n], pick[..n], full);
      var kept, picked := Kept(edges[..n]), Select(edges[..n], pick[..n]);
      AllEndsInAppend(kept, edges[n], full);
      AllEndsInAppend(picked, edges[n], full);
      assert Accepts(kept, edges[n]) || EndsIn(edges[n], full) >= 1;
    }
  }

  /** The nodes at which the kept edges leave no room. */
  function FullNodes(edges: seq<Edge>): set<string> {
    set e, node | e in edges && node in {e.source, e.target} && Degree(Kept(edges), node) >= MAX_DEGREE :: node
  }

  lemma {:induction false} DegreeGrows(a: seq<Edge>, b: seq<Edge>, node: string)
    requires a <= b
    ensures Degree(a, node) <= Degree(b, node)
  {
    if |a| < |b| {
      assert a <= b[..|b| - 1];
      DegreeGrows(a, b[..|b| - 1], node);
    } else {
      assert a == b;
    }
  }

  lemma FullNodesBlock(edges: seq<Edge>)
    requires |Kept(edges)| < MAX_EDGES
    ensures Blocks(FullNodes(edges), edges)
  {
    forall i | 0 <= i < |edges| && !Accepts(Kept(edges[..i]), edges[i]) ensures EndsIn(edges[i], FullNodes(edges)) >= 1 {
      var e := edges[i];
      KeptGrows(edges, i);
      DegreeGrows(Kept(edges[..i]), Kept(edges), e.source);
      DegreeGrows(Kept(edges[..i]), Kept(edges), e.target);
      assert e in edges && e.source in {e.source, e.target} && e.target in {e.source, e.target};
    }
  }

  /** Against any selection within the caps, the pass keeps at least half as many edges. */
  lemma HalfAsMany(edges: seq<Edge>, pick: seq<bool>)
    requires |edges| == |pick|
    requires |Select(edges, pick)| <= MAX_EDGES
    requires forall node :: Degree(Select(edges, pick), node) <= MAX_DEGREE
    ensures |Select(edges, pick)| <= 2 * |Kept(edges)|
  {
    var kept, picked := Kept(edges), Select(edges, pick);
    if |kept| < MAX_EDGES {
      var full := FullNodes(edges);
      FullNodesBlock(edges);
      PickedAreCovered(edges, pick, full);
      AllEndsInMonotone(picked, kept, full);
    }
  }

  lemma {:induction false} SelectPrefix(edges: seq<Edge>, pick: seq<bool>, k: nat)
    requires |edges| == |pick| && k <= |edges|
    ensures Select(edges[..k], pick[..k]) <= Select(edges, pick)
  {
    if k < |edges| {
      var n := |edges| - 1;
      assert edges[..n][..k] == edges[..k] && pick[..n][..k] == pick[..k];
      SelectPrefix(edges[..n], pick[..n], k);
    } else {
      assert edges[..k] == edges && pick[..k] == pick;
    }
  }

  function Total(steps: seq<int>): int {
    if steps == [] then 0 else Total(steps[..|steps| - 1]) + steps[|steps| - 1]
  }

  function WeightedTotal(steps: seq<int>, weights: seq<real>): real
    requires |steps| == |weights|
  {
    if steps == [] then 0.0
    else
      var n := |steps| - 1;
      WeightedTotal(steps[..n], weights[..n]) + steps[n] as real * weights[n]
  }

  /** Summation by parts: when no prefix of `steps` has a negative total, weighting the steps
      by falling weights gives at least the total times the smallest weight. */
  lemma {:induction false} SummationByParts(steps: seq<int>, weights: seq<real>, w: real)
    requires |steps| == |weights|
    requires forall i :: 0 <= i < |weights| ==> weights[i] >= w
    requires forall i, j :: 0 <= i < j < |weights| ==> weights[i] >= weights[j]
    requires forall k :: 0 <= k <= |steps| ==> Total(steps[..k]) >= 0
    ensures WeightedTotal(steps, weights) >= Total(steps) as real * w
  {
    if steps != [] {
      var n := |steps| - 1;
      forall k | 0 <= k <= n ensures Total(steps[..n][..k]) >= 0 {
        assert steps[..n][..k] == steps[..k];
      }
      SummationByParts(steps[..n], weights[..n], weights[n]);
      assert steps[..|steps|] == steps;
      StepBound(WeightedTotal(steps[..n], weights[..n]), Total(steps[..n]), steps[n], weights[n], w);
    }
  }

  lemma StepBound(total: real, before: int, step: int, last: real, w: real)
    requires before + step >= 0 && w <= last
    requires total >= before as real * last
    ensures total + step as real * last >= (before + step) as real * w
  {
    var after := (before + step) as real;
    assert after * last == before as real * last + step as real * last;
    assert after * last >= after * w;
  }

  /** For each candidate: two if the pass keeps it, less one if it is picked. */
  function Steps(edges: seq<Edge>, pick: seq<bool>): seq<int>
    requires |edges| == |pick|
  {
    if edges == [] then []
    else
      var n := |edges| - 1;
      Steps(edges[..n], pick[..n]) +
      [(if Accepts(Kept(edges[..n]), edges[n]) then 2 else 0) - (if pick[n] then 1 else 0)]
  }

  function Weights(edges: seq<Edge>): (weights: seq<real>)
    ensures |weights| == |edges|
    ensures forall i :: 0 <= i < |edges| ==> weights[i] == edges[i].weight
  {
    if edges == [] then [] else Weights(edges[..|edges| - 1]) + [edges[|edges| - 1].weight]
  }

  lemma {:induction false} StepsCount(edges: seq<Edge>, pick: seq<bool>)
    requires |edges| == |pick|
    ensures |Steps(edges, pick)| == |edges|
    ensures Total(Steps(edges, pick)) == 2 * |Kept(edges)| - |Select(edges, pick)|
  {
    if edges != [] {
      var n := |edges| - 1;
      StepsCount(edges[..n], pick[..n]);
      assert Steps(edges, pick)[..n] == Steps(edges[..n], pick[..n]);
    }
  }

  lemma {:induction false} StepsPrefix(edges: seq<Edge>, pick: seq<bool>, k: nat)
    requires |edges| == |pick| && k <= |edges|
    ensures |Steps(edges, pick)| == |edges|
    ensures Steps(edges, pick)[..k] == Steps(edges[..k], pick[..k])
  {
    StepsCount(edges, pick);
    if k < |edges| {
      var n := |edges| - 1;
      assert edges[..n][..k] == edges[..k] && pick[..n][..k] == pick[..k];
      StepsPrefix(edges[..n], pick[..n], k);
      assert Steps(edges, pick)[..k] == Steps(edges[..n], pick[..n])[..k];
    } else {
      assert edges[..k] == edges && pick[..k] == pick;
    }
  }

  lemma WeightedTotalAppend(steps: seq<int>, weights: seq<real>, step: int, w: real)
    requires |steps| == |weights|
    ensures WeightedTotal(steps + [step], weights + [w]) == WeightedTotal(steps, weights) + step as real * w
  {
    assert (steps + [step])[..|steps|] == steps && (weights + [w])[..|steps|] == weights;
  }

  lemma StepWeight(step: int, accepted: bool, picked: bool, w: real)
    requires step == (if accepted then 2 else 0) - (if picked then 1 else 0)
    ensures step as real * w == (if accepted then 2.0 * w else 0.0) - (if picked then w else 0.0)
  {
    if accepted && picked {
      assert 1 as real * w == w;
    } else if accepted {
      assert 2 as real * w == 2.0 * w;
    } else if picked {
      assert (-1) as real * w == -w;
    }
  }

  lemma WeightStep(edges: seq<Edge>, pick: seq<bool>)
    requires |edges| == |pick| && |edges| > 0
    ensures var n := |edges| - 1;
      && Weight(Kept(edges)) == Weight(Kept(edges[..n])) +
        (if Accepts(Kept(edges[..n]), edges[n]) then edges[n].weight else 0.0)
      && Weight(Select(edges, pick)) == Weight(Select(edges[..n], pick[..n])) + (if pick[n] then edges[n].weight else 0.0)
  {
    var n := |edges| - 1;
    WeightAppend(Kept(edges[..n]), edges[n]);
    WeightAppend(Select(edges[..n], pick[..n]), edges[n]);
  }

  lemma {:induction false} StepsWeigh(edges: seq<Edge>, pick: seq<bool>)
    requires |edges| == |pick|
    ensures |Steps(edges, pick)| == |edges|
    ensures WeightedTotal(Steps(edges, pick), Weights(edges)) == 2.0 * Weight(Kept(edges)) - Weight(Select(edges, pick))
  {
    StepsCount(edges, pick);
    if edges != [] {
      var n := |edges| - 1;
      var w := edges[n].weight;
      StepsWeigh(edges[..n], pick[..n]);
      WeightStep(edges, pick);
      var step := Steps(edges, pick)[n];
      WeightedTotalAppend(Steps(edges[..n], pick[..n]), Weights(edges[..n]), step, w);
      assert Steps(edges, pick) == Steps(edges[..n], pick[..n]) + [step];
      StepWeight(step, Accepts(Kept(edges[..n]), edges[n]), pick[n], w);
    }
  }

  lemma WeightAppend(edges: seq<Edge>, e: Edge)
    ensures Weight(edges + [e]) == Weight(edges) + e.weight
  {
    assert (edges + [e])[..|edges|] == edges;
  }

  lemma HalfAsManyAtEveryPrefix(edges: seq<Edge>, pick: seq<bool>)
    requires |edges| == |pick|
    requires |Select(edges, pick)| <= MAX_EDGES
    requires forall node :: Degree(Select(edges, pick), node) <= MAX_DEGREE
    ensures |Steps(edges, pick)| == |edges|
    ensures forall k :: 0 <= k <= |edges| ==> Total(Steps(edges, pick)[..k]) >= 0
  {
    StepsCount(edges, pick);
    forall k | 0 <= k <= |edges| ensures Total(Steps(edges, pick)[..k]) >= 0 {
      StepsPrefix(edges, pick, k);
      StepsCount(edges[..k], pick[..k]);
      SelectPrefix(edges, pick, k);
      forall node ensures Degree(Select(edges[..k], pick[..k]), node) <= MAX_DEGREE {
        DegreeGrows(Select(edges[..k], pick[..k]), Select(edges, pick), node);
      }
      HalfAsMany(edges[..k], pick[..k]);
    }
  }

  lemma WeightedTotalNonNegative(steps: seq<int>, weights: seq<real>)
    requires |steps| == |weights|
    requires forall i :: 0 <= i < |weights| ==> weights[i] >= 0.0
    requires forall i, j :: 0 <= i < j < |weights| ==> weights[i] >= weights[j]
    requires forall k :: 0 <= k <= |steps| ==> Total(steps[..k]) >= 0
    ensures WeightedTotal(steps, weights) >= 0.0
  {
    SummationByParts(steps, weights, 0.0);
    assert Total(steps) as real * 0.0 == 0.0;
  }

  lemma WeightsFall(ranked: seq<Edge>)
    requires Ordered(EdgeLeq, ranked)
    ensures forall i, j :: 0 <= i < j < |ranked| ==> Weights(ranked)[i] >= Weights(ranked)[j]
  {
    forall i, j | 0 <= i < j < |ranked| ensures Weights(ranked)[i] >= Weights(ranked)[j] {
      assert EdgeLeq(ranked[i], ranked[j]);
    }
  }

  /** No selection within the caps weighs more than twice what the pass keeps. */
  lemma HalfOfAnyWeight(ranked: seq<Edge>, pick: seq<bool>)
    requires |ranked| == |pick|
    requires Ordered(EdgeLeq, ranked)
    requires forall e :: e in ranked ==> e.weight >= 0.0
    requires |Select(ranked, pick)| <= MAX_EDGES
    requires forall node :: Degree(Select(ranked, pick), node) <= MAX_DEGREE
    ensures Weight(Select(ranked, pick)) <= 2.0 * Weight(Kept(ranked))
  {
    HalfAsManyAtEveryPrefix(ranked, pick);
    StepsWeigh(ranked, pick);
    WeightsFall(ranked);
    WeightedTotalNonNegative(Steps(ranked, pick), Weights(ranked));
  }
}
