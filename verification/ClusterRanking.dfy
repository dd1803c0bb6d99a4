/** From accumulators to clusters: which groups become clusters, how they are scored, and which
    eight are kept. */
module ClusterRanking {
  import opened Basics
  import opened Text
  import opened Sorting
  import opened InsightClusters
  import opened ClusterTheorems

  datatype Cluster = Cluster(key: string, caption: string, insightIDs: seq<string>, score: real)

  const MAX_CLUSTERS: nat := 8

  /** How the caption of a cluster is made from the insight that founded it. */
  type Captions = Insight -> string

  /** The IDs of those that have one. */
  function IDsOf(members: seq<Member>): seq<string> {
    if members == [] then []
    else
      var rest, id := IDsOf(members[..|members| - 1]), members[|members| - 1].insight.id;
      if id == "" then rest else rest + [id]
  }

  /** The number of insights, and one half for each further source. */
  function Score(ids: nat, sources: nat): real {
    ids as real + 0.5 * (sources as real - 1.0)
  }

  /** A group becomes a cluster if two of its insights have an ID. */
  function ClusterOf(caption: Captions, g: Group): Option<Cluster> {
    if |g.members| < 2 || |IDsOf(g.members)| < 2 then None
    else Some(Cluster(g.key, caption(g.members[0].insight), IDsOf(g.members), Score(|IDsOf(g.members)|, |g.sourceIDs|)))
  }

  function WithCluster(clusters: seq<Cluster>, c: Option<Cluster>): seq<Cluster> {
    if c.None? then clusters else clusters + [c.value]
  }

  function ClustersOf(caption: Captions, groups: seq<Group>): seq<Cluster> {
    if groups == [] then []
    else WithCluster(ClustersOf(caption, groups[..|groups| - 1]), ClusterOf(caption, groups[|groups| - 1]))
  }

  predicate ClusterLeq(a: Cluster, b: Cluster) {
    a.score > b.score || (a.score == b.score && StringLeq(a.caption, b.caption))
  }

  /** What is known of a sort that is not stable. */
  ghost predicate Sorts(sort: seq<Cluster> -> seq<Cluster>, clusters: seq<Cluster>) {
    multiset(sort(clusters)) == multiset(clusters) && Ordered(ClusterLeq, sort(clusters))
  }

  /** One accumulator. */
  method MakeCluster(caption: Captions, accumulator: Accumulator, ghost g: Group) returns (cluster: Option<Cluster>)
    requires accumulator.Value() == g
    ensures cluster == ClusterOf(caption, g)
  {
    if |accumulator.members| < 2 {
      return None;
    }
    var insightIDs: seq<string> := [];
    for k := 0 to |accumulator.members|
      invariant insightIDs == IDsOf(accumulator.members[..k])
    {
      assert accumulator.members[..k + 1][..k] == accumulator.members[..k];
      if accumulator.members[k].insight.id == "" {
        continue;
      }
      insightIDs := insightIDs + [accumulator.members[k].insight.id];
    }
    assert accumulator.members[..|accumulator.members|] == accumulator.members;
    if |insightIDs| < 2 {
      return None;
    }
    var sourceDiversityBonus := 0.5 * (|accumulator.sourceIDs| as real - 1.0);
    return Some(Cluster(accumulator.key, caption(accumulator.members[0].insight), insightIDs, |insightIDs| as real + sourceDiversityBonus));
  }

  method MakeClusters(caption: Captions, accumulators: seq<Accumulator>, ghost groups: seq<Group>) returns (clusters: seq<Cluster>)
    requires Holds(accumulators, groups)
    ensures clusters == ClustersOf(caption, groups)
  {
    clusters := [];
    for i := 0 to |accumulators|
      invariant clusters == ClustersOf(caption, groups[..i])
    {
      assert groups[..i + 1][..i] == groups[..i];
      var cluster := MakeCluster(caption, accumulators[i], groups[i]);
      if cluster.Some? {
        clusters := clusters + [cluster.value];
      }
    }
    assert groups[..|groups|] == groups;
  }

  method BuildInsightClusters(caption: Captions, sort: seq<Cluster> -> seq<Cluster>, sources: seq<Source>) returns (clusters: seq<Cluster>)
    ensures clusters == Take(sort(ClustersOf(caption, Clustered(Flat(sources)))), MAX_CLUSTERS)
  {
    var accumulators := BuildAccumulators(sources);
    clusters := MakeClusters(caption, accumulators, Clustered(Flat(sources)));
    clusters := sort(clusters);
    if |clusters| > MAX_CLUSTERS {
      clusters := clusters[..MAX_CLUSTERS];
    }
  }

  // ---------------------------------------------------------------- which clusters there are

  lemma {:induction false} IDsExact(members: seq<Member>, id: string)
    ensures id in IDsOf(members) <==> id != "" && exists m :: m in members && m.insight.id == id
  {
    if members != [] {
      var init, last := members[..|members| - 1], members[|members| - 1];
      IDsExact(init, id);
      assert members == init + [last];
    }
  }

  /** Insight `k` has a key and landed in group `g`. */
  ghost predicate LandsAt(members: seq<Member>, k: nat, g: nat) {
    k < |members| && members[k].insight.key != "" && Landing(members, k) == g
  }

  lemma LandedStep(members: seq<Member>, n: nat, next: nat, g: nat, before: seq<Member>)
    requires n < |members| && next == n + 1 && before == Landed(members, n, g)
    ensures Landed(members, next, g) == if LandsAt(members, n, g) then before + [members[n]] else before
  {
  }

  ghost predicate LandsAs(members: seq<Member>, k: nat, g: nat, m: Member) {
    LandsAt(members, k, g) && members[k] == m
  }

  ghost predicate LandsBefore(members: seq<Member>, n: nat, g: nat, m: Member) {
    exists k: nat :: k < n && LandsAs(members, k, g, m)
  }

  lemma LandsBeforeStep(members: seq<Member>, n: nat, g: nat, m: Member)
    ensures LandsBefore(members, n + 1, g, m) <==> LandsBefore(members, n, g, m) || LandsAs(members, n, g, m)
  {
  }

  lemma {:induction false} LandedExact(members: seq<Member>, n: nat, g: nat, m: Member, landed: seq<Member>)
    requires n <= |members| && landed == Landed(members, n, g)
    ensures m in landed <==> LandsBefore(members, n, g, m)
  {
    if n > 0 {
      var before := Landed(members, n - 1, g);
      LandedExact(members, n - 1, g, m, before);
      LandedStep(members, n - 1, n, g, before);
      LandsBeforeStep(members, n - 1, g, m);
      assert m in before + [members[n - 1]] <==> m in before || m == members[n - 1];
    }
  }

  /** It has this ID as well. */
  ghost predicate Lists(members: seq<Member>, k: nat, g: nat, id: string) {
    LandsAt(members, k, g) && members[k].insight.id == id && id != ""
  }

  /** The IDs of a group. */
  lemma GroupIDsExact(members: seq<Member>, g: nat, id: string)
    requires g < |Clustered(members)|
    ensures id in IDsOf(Clustered(members)[g].members) <==> exists k: nat :: Lists(members, k, g, id)
  {
    ClustersPartition(members, |members|);
    assert members[..|members|] == members;
    IDsExact(Clustered(members)[g].members, id);
    if id in IDsOf(Clustered(members)[g].members) {
      var m :| m in Clustered(members)[g].members && m.insight.id == id;
      LandedExact(members, |members|, g, m, Clustered(members)[g].members);
      var k: nat :| k < |members| && LandsAs(members, k, g, m);
      assert Lists(members, k, g, id);
    }
    if k: nat :| Lists(members, k, g, id) {
      LandedExact(members, |members|, g, members[k], Clustered(members)[g].members);
      assert LandsAs(members, k, g, members[k]);
    }
  }

  /** `c` is the cluster of group `g`. */
  ghost predicate Stands(caption: Captions, groups: seq<Group>, g: nat, c: Cluster) {
    g < |groups| && ClusterOf(caption, groups[g]) == Some(c)
  }

  lemma {:induction false} ClustersStand(caption: Captions, groups: seq<Group>, c: Cluster)
    ensures c in ClustersOf(caption, groups) <==> exists g: nat :: Stands(caption, groups, g, c)
  {
    if groups != [] {
      var n := |groups| - 1;
      ClustersStand(caption, groups[..n], c);
      assert forall g: nat :: g < n ==> (Stands(caption, groups, g, c) <==> Stands(caption, groups[..n], g, c));
      if g: nat :| Stands(caption, groups, g, c) && g < n {
        assert Stands(caption, groups[..n], g, c);
      }
      assert ClusterOf(caption, groups[n]) == Some(c) ==> Stands(caption, groups, n, c);
    }
  }

  ghost predicate DistinctKeys(clusters: seq<Cluster>) {
    forall i, j :: 0 <= i < j < |clusters| ==> clusters[i].key != clusters[j].key
  }

  lemma {:induction false} KeysOfClusters(caption: Captions, groups: seq<Group>)
    requires Apart(groups)
    ensures DistinctKeys(ClustersOf(caption, groups))
  {
    if groups != [] {
      var n := |groups| - 1;
      var rest := ClustersOf(caption, groups[..n]);
      KeysOfClusters(caption, groups[..n]);
      forall i | 0 <= i < |rest| ensures rest[i].key != groups[n].key {
        ClustersStand(caption, groups[..n], rest[i]);
        var g: nat :| Stands(caption, groups[..n], g, rest[i]);
        assert groups[..n][g] == groups[g];
      }
    }
  }

  lemma {:induction false} FewerIDs(members: seq<Member>)
    ensures |IDsOf(members)| <= |members|
  {
    if members != [] {
      FewerIDs(members[..|members| - 1]);
    }
  }

  /** The insights in group `g`, among the first `n`, that have an ID. */
  ghost function Listed(members: seq<Member>, n: nat, g: nat): set<nat> {
    set k: nat | k < n && LandsAt(members, k, g) && members[k].insight.id != ""
  }

  /** The sources of the insights in group `g`, among the first `n`. */
  ghost function SourcesAt(members: seq<Member>, n: nat, g: nat): set<string> {
    set k: nat | k < n && LandsAt(members, k, g) :: members[k].sourceID
  }

  lemma CountsStep(members: seq<Member>, n: nat, next: nat, g: nat)
    requires n < |members| && next == n + 1
    ensures Listed(members, next, g) == Listed(members, n, g) + if LandsAt(members, n, g) && members[n].insight.id != "" then {n} else {}
    ensures SourcesAt(members, next, g) == SourcesAt(members, n, g) + if LandsAt(members, n, g) then {members[n].sourceID} else {}
  {
    if LandsAt(members, n, g) {
      assert members[n].sourceID in SourcesAt(members, next, g);
    }
  }

  lemma IDsMore(members: seq<Member>, m: Member)
    ensures IDsOf(members + [m]) == if m.insight.id == "" then IDsOf(members) else IDsOf(members) + [m.insight.id]
  {
    assert (members + [m])[..|members|] == members;
  }

  ghost predicate Counts(landed: seq<Member>, listed: set<nat>, sources: set<string>) {
    |IDsOf(landed)| == |listed| && SourceIDs(landed) == sources
  }

  lemma CountsMore(landed: seq<Member>, listed: set<nat>, sources: set<string>, m: Member, k: nat)
    requires Counts(landed, listed, sources) && k !in listed
    ensures Counts(landed + [m], listed + if m.insight.id != "" then {k} else {}, sources + {m.sourceID})
  {
    IDsMore(landed, m);
    SourceIDsMore(landed, m);
  }

  lemma {:induction false} LandedCounts(members: seq<Member>, n: nat, g: nat, landed: seq<Member>)
    requires n <= |members| && landed == Landed(members, n, g)
    ensures Counts(landed, Listed(members, n, g), SourcesAt(members, n, g))
  {
    if n > 0 {
      var before := Landed(members, n - 1, g);
      LandedCounts(members, n - 1, g, before);
      LandedStep(members, n - 1, n, g, before);
      CountsStep(members, n - 1, n, g);
      CountsMore(before, Listed(members, n - 1, g), SourcesAt(members, n - 1, g), members[n - 1], n - 1);
    }
  }

  /** Insight `k` founded group `g`: it is the first that landed there. */
  ghost predicate Founds(members: seq<Member>, k: nat, g: nat) {
    LandsAt(members, k, g) && forall j: nat :: j < k ==> !LandsAt(members, j, g)
  }

  lemma {:induction false} FirstLanded(members: seq<Member>, n: nat, g: nat, landed: seq<Member>) returns (k: nat)
    requires n <= |members| && landed == Landed(members, n, g) != []
    ensures Founds(members, k, g) && landed[0] == members[k]
  {
    var before := Landed(members, n - 1, g);
    LandedStep(members, n - 1, n, g, before);
    if before == [] {
      k := n - 1;
      forall j: nat | j < k ensures !LandsAt(members, j, g) {
        LandedExact(members, n - 1, g, members[j], before);
        assert LandsAs(members, j, g, members[j]) <==> LandsAt(members, j, g);
      }
    } else {
      k := FirstLanded(members, n - 1, g, before);
    }
  }

  /** A cluster is of the group with its key: it lists the IDs of the insights that landed there, at
      least two, each once; it scores one for each of them and one half for each further source; and
      its caption is made from the insight that founded the group. */
  ghost predicate ListsGroup(caption: Captions, members: seq<Member>, g: nat, c: Cluster) {
    && g < |Clustered(members)| && Clustered(members)[g].key == c.key
    && (forall id :: id in c.insightIDs <==> exists k: nat :: Lists(members, k, g, id))
    && |c.insightIDs| == |Listed(members, |members|, g)| >= 2
    && 2.0 * c.score == (2 * |Listed(members, |members|, g)| + |SourcesAt(members, |members|, g)| - 1) as real
    && (exists k: nat :: Founds(members, k, g) && c.caption == caption(members[k].insight))
  }

  ghost predicate Lawful(caption: Captions, members: seq<Member>, c: Cluster) {
    exists g: nat :: ListsGroup(caption, members, g, c)
  }

  lemma ClusterIsLawful(caption: Captions, members: seq<Member>, g: nat, c: Cluster)
    requires Stands(caption, Clustered(members), g, c)
    ensures Lawful(caption, members, c)
  {
    forall id ensures id in c.insightIDs <==> exists k: nat :: Lists(members, k, g, id) {
      GroupIDsExact(members, g, id);
    }
    ClustersPartition(members, |members|);
    assert members[..|members|] == members;
    LandedCounts(members, |members|, g, Clustered(members)[g].members);
    var k := FirstLanded(members, |members|, g, Clustered(members)[g].members);
    assert ListsGroup(caption, members, g, c);
  }

  /** The clusters before they are ranked: each is lawful, no two are of one group, and every group
      with two IDs has one. */
  lemma ClustersExact(caption: Captions, members: seq<Member>, clusters: seq<Cluster>, g: nat)
    requires clusters == ClustersOf(caption, Clustered(members)) && g < |Clustered(members)|
    ensures DistinctKeys(clusters) && forall c :: c in clusters ==> Lawful(caption, members, c)
    ensures |IDsOf(Clustered(members)[g].members)| >= 2 <==> exists c :: c in clusters && c.key == Clustered(members)[g].key
  {
    var groups := Clustered(members);
    FoundersApart(members);
    KeysOfClusters(caption, groups);
    forall c | c in clusters ensures Lawful(caption, members, c) {
      ClustersStand(caption, groups, c);
      var h: nat :| Stands(caption, groups, h, c);
      ClusterIsLawful(caption, members, h, c);
    }
    FewerIDs(groups[g].members);
    if |IDsOf(groups[g].members)| >= 2 {
      var c := ClusterOf(caption, groups[g]).value;
      assert Stands(caption, groups, g, c);
      ClustersStand(caption, groups, c);
      assert c in clusters && c.key == groups[g].key;
    }
    if c :| c in clusters && c.key == groups[g].key {
      ClustersStand(caption, groups, c);
      var h: nat :| Stands(caption, groups, h, c);
      assert h == g;
    }
  }

  /** If insight IDs are distinct, no insight is in two clusters. */
  lemma ClustersAreDisjoint(caption: Captions, members: seq<Member>, a: Cluster, b: Cluster, id: string)
    requires forall i, j :: 0 <= i < j < |members| && members[i].insight.id == members[j].insight.id ==> members[i].insight.id == ""
    requires Lawful(caption, members, a) && Lawful(caption, members, b) && a.key != b.key
    ensures id !in a.insightIDs || id !in b.insightIDs
  {
    var g: nat :| ListsGroup(caption, members, g, a);
    var h: nat :| ListsGroup(caption, members, h, b);
  }

  // ---------------------------------------------------------------- the first eight

  /** What is kept are up to eight of the clusters, and none that is left out scores higher than one
      that is kept, whatever the sort does with ties. */
  lemma TopClusters(clusters: seq<Cluster>, sort: seq<Cluster> -> seq<Cluster>, top: seq<Cluster>, c: Cluster)
    requires Sorts(sort, clusters) && top == Take(sort(clusters), MAX_CLUSTERS)
    ensures |top| == if |clusters| <= 8 then |clusters| else 8
    ensures forall i, j :: 0 <= i < j < |top| ==>
      top[i].score > top[j].score || (top[i].score == top[j].score && StringLeq(top[i].caption, top[j].caption))
    ensures multiset(top) <= multiset(clusters) && Ordered(ClusterLeq, top)
    ensures c in multiset(clusters) - multiset(top) ==> forall t :: t in top ==> c.score <= t.score
  {
    var sorted := sort(clusters);
    SameElements(sorted, clusters);
    if |clusters| > MAX_CLUSTERS {
      var rest := sorted[MAX_CLUSTERS..];
      assert sorted == top + rest;
      assert multiset(clusters) - multiset(top) == multiset(rest);
      RestIsLower(sorted, top, rest, c);
    }
  }

  lemma RestIsLower(sorted: seq<Cluster>, top: seq<Cluster>, rest: seq<Cluster>, c: Cluster)
    requires Ordered(ClusterLeq, sorted) && sorted == top + rest
    ensures c in rest ==> forall t :: t in top ==> c.score <= t.score
  {
    if c in rest {
      var j :| 0 <= j < |rest| && rest[j] == c;
      forall t | t in top ensures c.score <= t.score {
        var i :| 0 <= i < |top| && top[i] == t;
        assert ClusterLeq(sorted[i], sorted[|top| + j]);
      }
    }
  }
}
