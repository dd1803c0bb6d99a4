/** One-pass clustering of insights: an insight joins the accumulator that was founded with its
    key, or else the most similar one, or else founds its own. */
module InsightClusters {
  import opened Basics

  /** An insight with the key and the signature that were derived from its texts. */
  datatype Insight = Insight(id: string, key: string, signature: seq<string>)

  datatype Source = Source(id: string, insights: seq<Insight>)

  datatype Member = Member(insight: Insight, sourceID: string)

  // ---------------------------------------------------------------- similarity

  function Tokens(tokens: seq<string>): set<string> {
    set t | t in tokens
  }

  /** The tokens shared by two signatures, as a part of all their tokens. */
  function TokenJaccard(left: seq<string>, right: seq<string>): real {
    if left == [] || right == [] then 0.0
    else
      var a, b := Tokens(left), Tokens(right);
      var union := |a| + |b| - |a * b|;
      if union == 0 then 0.0 else |a * b| as real / union as real
  }

  const THRESHOLD: real := 0.25

  // ---------------------------------------------------------------- groups

  /** An accumulator as a value. */
  datatype Group = Group(key: string, signature: seq<string>, members: seq<Member>, sourceIDs: set<string>)

  function Similarity(groups: seq<Group>, i: nat, signature: seq<string>): real
    requires i < |groups|
  {
    TokenJaccard(signature, groups[i].signature)
  }

  /** The earliest of the groups of the greatest similarity above zero. */
  function Leading(groups: seq<Group>, signature: seq<string>): (i: Option<nat>)
    ensures i.Some? ==> i.value < |groups|
  {
    if groups == [] then None
    else
      var last := |groups| - 1;
      var rest := Leading(groups[..last], signature);
      var score := if rest.None? then 0.0 else Similarity(groups, rest.value, signature);
      if Similarity(groups, last, signature) > score then Some(last) else rest
  }

  function Best(groups: seq<Group>, signature: seq<string>): (i: Option<nat>)
    ensures i.Some? ==> i.value < |groups|
  {
    var leading := Leading(groups, signature);
    if signature == [] || leading.None? || Similarity(groups, leading.value, signature) < THRESHOLD then None
    else leading
  }

  function WithKey(groups: seq<Group>, key: string): (i: Option<nat>)
    ensures i.Some? ==> i.value < |groups| && groups[i.value].key == key
    ensures i.None? ==> forall k :: 0 <= k < |groups| ==> groups[k].key != key
  {
    if groups == [] then None
    else
      var last := |groups| - 1;
      if groups[last].key == key then Some(last) else WithKey(groups[..last], key)
  }

  /** The group an insight joins, if any. */
  function Home(groups: seq<Group>, insight: Insight): (i: Option<nat>)
    ensures i.Some? ==> i.value < |groups|
  {
    if WithKey(groups, insight.key).Some? then WithKey(groups, insight.key) else Best(groups, insight.signature)
  }

  function Joined(g: Group, m: Member): Group {
    g.(members := g.members + [m], sourceIDs := g.sourceIDs + {m.sourceID})
  }

  function Founded(m: Member): Group {
    Group(m.insight.key, m.insight.signature, [m], {m.sourceID})
  }

  function Placed(groups: seq<Group>, m: Member): seq<Group> {
    if m.insight.key == "" then groups
    else
      match Home(groups, m.insight)
      case None => groups + [Founded(m)]
      case Some(i) => groups[i := Joined(groups[i], m)]
  }

  function Clustered(members: seq<Member>): seq<Group> {
    if members == [] then [] else Placed(Clustered(members[..|members| - 1]), members[|members| - 1])
  }

  function Owned(sourceID: string, insights: seq<Insight>): seq<Member> {
    if insights == [] then [] else Owned(sourceID, insights[..|insights| - 1]) + [Member(insights[|insights| - 1], sourceID)]
  }

  /** All insights in the order in which they are met. */
  function Flat(sources: seq<Source>): seq<Member> {
    if sources == [] then []
    else Flat(sources[..|sources| - 1]) + Owned(sources[|sources| - 1].id, sources[|sources| - 1].insights)
  }

  // ---------------------------------------------------------------- the program

  class Accumulator {
    const key: string
    const signature: seq<string>
    var members: seq<Member>
    var sourceIDs: set<string>

    constructor (key: string, signature: seq<string>)
      ensures this.key == key && this.signature == signature && members == [] && sourceIDs == {}
    {
      this.key, this.signature := key, signature;
      members, sourceIDs := [], {};
    }

    ghost function Value(): Group
      reads this
    {
      Group(key, signature, members, sourceIDs)
    }

    method Add(m: Member)
      modifies this
      ensures Value() == Joined(old(Value()), m)
    {
      members, sourceIDs := members + [m], sourceIDs + {m.sourceID};
    }
  }

  /** `groups` is what the accumulators hold. */
  ghost predicate Holds(accumulators: seq<Accumulator>, groups: seq<Group>)
    reads accumulators
  {
    && |accumulators| == |groups|
    && (forall i, j :: 0 <= i < j < |accumulators| ==> accumulators[i] != accumulators[j])
    && (forall i :: 0 <= i < |accumulators| ==> accumulators[i].Value() == groups[i])
  }

  method BestInsightCluster(accumulators: seq<Accumulator>, signature: seq<string>, ghost groups: seq<Group>)
    returns (best: Accumulator?)
    requires Holds(accumulators, groups)
    ensures best == match Best(groups, signature) case None => null case Some(i) => accumulators[i]
  {
    if |signature| == 0 {
      return null;
    }
    best := null;
    var bestScore := 0.0;
    for k := 0 to |accumulators|
      invariant Leading(groups[..k], signature).None? ==> best == null && bestScore == 0.0
      invariant Leading(groups[..k], signature).Some? ==>
        && best == accumulators[Leading(groups[..k], signature).value]
        && bestScore == Similarity(groups, Leading(groups[..k], signature).value, signature)
    {
      assert groups[..k + 1][..k] == groups[..k];
      assert accumulators[k].Value() == groups[k];
      var score := TokenJaccard(signature, accumulators[k].signature);
      if score > bestScore {
        bestScore := score;
        best := accumulators[k];
      }
    }
    assert groups[..|groups|] == groups;
    if bestScore < THRESHOLD {
      return null;
    }
  }

  /** The accumulators by the key they were founded with. */
  ghost predicate Indexed(accumulators: seq<Accumulator>, byKey: map<string, Accumulator>) {
    && (forall i :: 0 <= i < |accumulators| ==> accumulators[i].key in byKey && byKey[accumulators[i].key] == accumulators[i])
    && (forall key :: key in byKey ==> byKey[key] in accumulators && byKey[key].key == key)
  }

  method FindHome(accumulators: seq<Accumulator>, byKey: map<string, Accumulator>, insight: Insight, ghost groups: seq<Group>)
    returns (home: Accumulator?)
    requires Holds(accumulators, groups) && Indexed(accumulators, byKey)
    ensures home == match Home(groups, insight) case None => null case Some(i) => accumulators[i]
  {
    if insight.key in byKey {
      home := byKey[insight.key];
      assert WithKey(groups, insight.key).Some?;
      assert accumulators[WithKey(groups, insight.key).value].Value() == groups[WithKey(groups, insight.key).value];
    } else {
      home := BestInsightCluster(accumulators, insight.signature, groups);
      forall i | 0 <= i < |groups| ensures groups[i].key != insight.key {
        assert accumulators[i].Value() == groups[i];
      }
      assert WithKey(groups, insight.key).None?;
    }
  }

  /** An insight joins the `i`-th accumulator. */
  method Join(accumulators: seq<Accumulator>, accumulator: Accumulator, m: Member, ghost groups: seq<Group>, ghost i: nat)
    requires Holds(accumulators, groups) && i < |groups| && accumulator == accumulators[i]
    modifies accumulator
    ensures Holds(accumulators, groups[i := Joined(groups[i], m)])
  {
    accumulator.Add(m);
  }

  /** An insight founds an accumulator. */
  method Found(accumulators: seq<Accumulator>, byKey: map<string, Accumulator>, m: Member, ghost groups: seq<Group>)
    returns (extended: seq<Accumulator>, index: map<string, Accumulator>)
    requires Holds(accumulators, groups) && Indexed(accumulators, byKey) && WithKey(groups, m.insight.key).None?
    ensures Holds(extended, groups + [Founded(m)]) && Indexed(extended, index)
    ensures forall a :: a in extended ==> a in accumulators || fresh(a)
  {
    var accumulator := new Accumulator(m.insight.key, m.insight.signature);
    accumulator.Add(m);
    extended := accumulators + [accumulator];
    index := byKey[m.insight.key := accumulator];
    forall i | 0 <= i < |accumulators| ensures accumulators[i].key != m.insight.key {
      assert accumulators[i].Value() == groups[i];
    }
  }

  /** One insight is placed. */
  method Place(accumulators: seq<Accumulator>, byKey: map<string, Accumulator>, m: Member, ghost groups: seq<Group>)
    returns (extended: seq<Accumulator>, index: map<string, Accumulator>)
    requires Holds(accumulators, groups) && Indexed(accumulators, byKey)
    modifies accumulators
    ensures Holds(extended, Placed(groups, m)) && Indexed(extended, index)
    ensures forall a :: a in extended ==> a in accumulators || fresh(a)
  {
    extended, index := accumulators, byKey;
    if m.insight.key == "" {
      return;
    }
    var accumulator := FindHome(accumulators, byKey, m.insight, groups);
    if accumulator == null {
      extended, index := Found(accumulators, byKey, m, groups);
    } else {
      Join(accumulators, accumulator, m, groups, Home(groups, m.insight).value);
    }
  }

  method PlaceAll(accumulators: seq<Accumulator>, byKey: map<string, Accumulator>, source: Source, ghost before: seq<Member>)
    returns (extended: seq<Accumulator>, index: map<string, Accumulator>)
    requires Holds(accumulators, Clustered(before)) && Indexed(accumulators, byKey)
    modifies accumulators
    ensures Holds(extended, Clustered(before + Owned(source.id, source.insights))) && Indexed(extended, index)
    ensures forall a :: a in extended ==> a in accumulators || fresh(a)
  {
    extended, index := accumulators, byKey;
    assert before + Owned(source.id, []) == before;
    for j := 0 to |source.insights|
      invariant Holds(extended, Clustered(before + Owned(source.id, source.insights[..j]))) && Indexed(extended, index)
      invariant forall a :: a in extended ==> a in accumulators || fresh(a)
    {
      ghost var seen := before + Owned(source.id, source.insights[..j]);
      assert source.insights[..j + 1][..j] == source.insights[..j];
      var m := Member(source.insights[j], source.id);
      assert before + Owned(source.id, source.insights[..j + 1]) == seen + [m];
      assert (seen + [m])[..|seen|] == seen;
      extended, index := Place(extended, index, m, Clustered(seen));
    }
    assert source.insights[..|source.insights|] == source.insights;
  }

  /** The accumulators that are built from all sources, before those with one insight are dropped. */
  method BuildAccumulators(sources: seq<Source>) returns (accumulators: seq<Accumulator>)
    ensures Holds(accumulators, Clustered(Flat(sources))) && fresh(accumulators)
  {
    accumulators := [];
    var byKey: map<string, Accumulator> := map[];
    for i := 0 to |sources|
      invariant Holds(accumulators, Clustered(Flat(sources[..i]))) && Indexed(accumulators, byKey) && fresh(accumulators)
    {
      assert sources[..i + 1][..i] == sources[..i];
      accumulators, byKey := PlaceAll(accumulators, byKey, sources[i], Flat(sources[..i]));
    }
    assert sources[..|sources|] == sources;
  }

  // ---------------------------------------------------------------- the order of insights

  lemma {:induction false} OwnedExact(sourceID: string, insights: seq<Insight>)
    ensures |Owned(sourceID, insights)| == |insights|
    ensures forall k :: 0 <= k < |insights| ==> Owned(sourceID, insights)[k] == Member(insights[k], sourceID)
  {
    if insights != [] {
      OwnedExact(sourceID, insights[..|insights| - 1]);
    }
  }

  lemma {:induction false} FlatAppend(a: seq<Source>, b: seq<Source>)
    ensures Flat(a + b) == Flat(a) + Flat(b)
  {
    if b == [] {
      assert a + b == a;
    } else {
      assert (a + b)[..|a + b| - 1] == a + b[..|b| - 1];
      FlatAppend(a, b[..|b| - 1]);
    }
  }

  lemma Middle(a: seq<Member>, b: seq<Member>, c: seq<Member>, k: nat)
    requires k < |b|
    ensures |a + b + c| == |a| + |b| + |c| && (a + b + c)[|a| + k] == b[k]
  {
  }

  lemma FlatOne(source: Source)
    ensures Flat([source]) == Owned(source.id, source.insights) && Flat([]) == []
  {
    assert [source][..0] == [];
    assert [] + Owned(source.id, source.insights) == Owned(source.id, source.insights);
  }

  /** All insights are met, source by source and in the order of each source, with the source's ID. */
  lemma FlatExact(before: seq<Source>, source: Source, behind: seq<Source>, k: nat)
    requires k < |source.insights|
    ensures Flat([]) == [] && |Flat(before + [source] + behind)| == |Flat(before)| + |source.insights| + |Flat(behind)|
    ensures Flat(before + [source] + behind)[|Flat(before)| + k] == Member(source.insights[k], source.id)
  {
    FlatAppend(before + [source], behind);
    FlatAppend(before, [source]);
    FlatOne(source);
    OwnedExact(source.id, source.insights);
    Middle(Flat(before), Owned(source.id, source.insights), Flat(behind), k);
  }
}
