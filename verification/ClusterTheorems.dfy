/** What one pass of clustering guarantees: the insights with a key are partitioned, founders are
    pairwise dissimilar, and every insight is where its key or its greatest similarity puts it. */
module ClusterTheorems {
  import opened Basics
  import opened InsightClusters

  // ---------------------------------------------------------------- similarity

  lemma TokenSizes(left: seq<string>, right: seq<string>)
    ensures |Tokens(left) * Tokens(right)| <= |Tokens(left)| && |Tokens(left) * Tokens(right)| <= |Tokens(right)|
    ensures |Tokens(left) * Tokens(right)| == |Tokens(left)| ==> Tokens(left) <= Tokens(right)
  {
    var a, b := Tokens(left), Tokens(right);
    SubsetSize(a * b, a);
    SubsetSize(a * b, b);
  }

  lemma TokensEqual(left: seq<string>, right: seq<string>)
    requires |Tokens(left)| + |Tokens(right)| - |Tokens(left) * Tokens(right)| == |Tokens(left) * Tokens(right)|
    ensures Tokens(left) == Tokens(right)
  {
    TokenSizes(left, right);
    TokenSizes(right, left);
    assert Tokens(left) * Tokens(right) == Tokens(right) * Tokens(left);
  }

  /** The similarity is symmetric, lies between 0 and 1, and is 1 for the same tokens only. */
  lemma JaccardFacts(left: seq<string>, right: seq<string>)
    ensures TokenJaccard(left, right) == TokenJaccard(right, left)
    ensures 0.0 <= TokenJaccard(left, right) <= 1.0
    ensures TokenJaccard(left, right) == 1.0 <==> Tokens(left) == Tokens(right) && left != []
  {
    var a, b := Tokens(left), Tokens(right);
    assert a * b == b * a;
    assert a == b ==> a * b == a;
    assert (left != [] ==> left[0] in a) && (right != [] ==> right[0] in b);
    TokenSizes(left, right);
    if left != [] && right != [] {
      Quotient(|a * b|, |a| + |b| - |a * b|);
      if |a| + |b| - |a * b| == |a * b| {
        TokensEqual(left, right);
      }
    }
  }

  lemma Quotient(x: nat, y: nat)
    requires x <= y && y > 0
    ensures 0.0 <= x as real / y as real <= 1.0
    ensures x as real / y as real == 1.0 <==> x == y
  {
    if x as real / y as real == 1.0 {
      assert x as real == (x as real / y as real) * y as real;
    }
  }

  function Shared(left: seq<string>, right: seq<string>): nat {
    |Tokens(left) * Tokens(right)|
  }

  function Together(left: seq<string>, right: seq<string>): nat {
    |Tokens(left) + Tokens(right)|
  }

  /** The similarity is the part of all tokens of either signature that is in both, and 0 if one is
      empty. */
  lemma JaccardExact(left: seq<string>, right: seq<string>)
    ensures TokenJaccard(left, right) * Together(left, right) as real == Shared(left, right) as real
    ensures left == [] || right == [] ==> TokenJaccard(left, right) == 0.0 && Shared(left, right) == 0
    ensures left != [] || right != [] ==> Together(left, right) > 0
  {
    var a, b := Tokens(left), Tokens(right);
    assert left != [] ==> left[0] in a + b;
    assert right != [] ==> right[0] in a + b;
    if left == [] || right == [] {
      assert a * b == {};
    } else {
      Divided(|a * b|, |a + b|);
      assert |a + b| == |a| + |b| - |a * b|;
    }
  }

  lemma Divided(x: nat, y: nat)
    requires y > 0
    ensures x as real / y as real * y as real == x as real
  {
  }

  /** Four times the shared tokens are at least all tokens. */
  ghost predicate Close(left: seq<string>, right: seq<string>) {
    left != [] && 4 * Shared(left, right) >= Together(left, right)
  }

  /** The part of the tokens that `s` shares with `a` is smaller than the part it shares with `b`. */
  ghost predicate Closer(s: seq<string>, a: seq<string>, b: seq<string>) {
    Shared(s, a) * Together(s, b) < Shared(s, b) * Together(s, a)
  }

  lemma EmptyIsFar(s: seq<string>, a: seq<string>, b: seq<string>)
    requires s == []
    ensures !Close(s, a) && !Closer(s, a, b)
  {
    JaccardExact(s, a);
    JaccardExact(s, b);
    Zero(Together(s, b));
    Zero(Together(s, a));
  }

  lemma Zero(x: nat)
    ensures 0 * x == 0
  {
  }

  /** `q` and `r` stand for the similarities of `s` to `a` and to `b`. */
  lemma NumbersMean(q: real, r: real, s: seq<string>, a: seq<string>, b: seq<string>)
    requires q * Together(s, a) as real == Shared(s, a) as real && r * Together(s, b) as real == Shared(s, b) as real
    requires if s == [] then q == r == 0.0 else Together(s, a) > 0 && Together(s, b) > 0
    ensures q >= THRESHOLD <==> Close(s, a)
    ensures q < r <==> Closer(s, a, b)
  {
    if s == [] {
      EmptyIsFar(s, a, b);
    } else {
      Quarter(q, Shared(s, a), Together(s, a));
      Compare(q, r, Shared(s, a), Together(s, a), Shared(s, b), Together(s, b));
    }
  }

  /** What the program's numbers say of the tokens. */
  lemma {:induction false} SimilarityMeans(s: seq<string>, a: seq<string>, b: seq<string>)
    ensures TokenJaccard(s, a) >= THRESHOLD <==> Close(s, a)
    ensures TokenJaccard(s, a) < TokenJaccard(s, b) <==> Closer(s, a, b)
  {
    JaccardExact(s, a);
    JaccardExact(s, b);
    NumbersMean(TokenJaccard(s, a), TokenJaccard(s, b), s, a, b);
  }

  lemma Quarter(q: real, x: nat, y: nat)
    requires q * y as real == x as real && y > 0
    ensures q >= THRESHOLD <==> 4 * x >= y
  {
    Grows(THRESHOLD, q, y as real);
    Grows(q, THRESHOLD, y as real);
  }

  lemma Grows(a: real, b: real, c: real)
    requires c > 0.0
    ensures a < b <==> a * c < b * c
  {
    assert (b - a) * c == b * c - a * c;
  }

  lemma Swapped(q: real, x: real, y: real, w: real)
    requires q * y == x
    ensures q * (y * w) == x * w
  {
  }

  lemma Product(x: nat, y: nat)
    ensures x as real * y as real == (x * y) as real
  {
  }

  lemma Compare(q: real, r: real, x: nat, y: nat, v: nat, w: nat)
    requires q * y as real == x as real && r * w as real == v as real && y > 0 && w > 0
    ensures q < r <==> x * w < v * y
  {
    var all := y as real * w as real;
    Product(y, w);
    assert y * w > 0;
    Grows(q, r, all);
    Swapped(q, x as real, y as real, w as real);
    Swapped(r, v as real, w as real, y as real);
    assert all == w as real * y as real;
    Product(x, w);
    Product(v, y);
  }

  // ---------------------------------------------------------------- the best group

  lemma {:induction false} LeadingExact(groups: seq<Group>, signature: seq<string>)
    ensures Leading(groups, signature).None? ==> forall k :: 0 <= k < |groups| ==> Similarity(groups, k, signature) <= 0.0
    ensures Leading(groups, signature).Some? ==>
      && Similarity(groups, Leading(groups, signature).value, signature) > 0.0
      && (forall k :: 0 <= k < |groups| ==> Similarity(groups, k, signature) <= Similarity(groups, Leading(groups, signature).value, signature))
      && forall k :: 0 <= k < Leading(groups, signature).value ==>
           Similarity(groups, k, signature) < Similarity(groups, Leading(groups, signature).value, signature)
  {
    if groups != [] {
      var init := groups[..|groups| - 1];
      LeadingExact(init, signature);
      assert forall k :: 0 <= k < |init| ==> Similarity(init, k, signature) == Similarity(groups, k, signature);
    }
  }

  /** Among the first `n` founders, the `i`-th is close to the signature, none is closer, and it is the
      earliest of those. */
  ghost predicate EarliestBest(groups: seq<Group>, n: nat, signature: seq<string>, i: nat)
    requires n <= |groups|
  {
    && i < n && Close(signature, groups[i].signature)
    && (forall k :: 0 <= k < i ==> Closer(signature, groups[k].signature, groups[i].signature))
    && (forall k :: i <= k < n ==> !Closer(signature, groups[i].signature, groups[k].signature))
  }

  ghost predicate Dissimilar(groups: seq<Group>, n: nat, signature: seq<string>)
    requires n <= |groups|
  {
    forall k :: 0 <= k < n ==> !Close(signature, groups[k].signature)
  }

  lemma MeaningOfGroups(groups: seq<Group>, signature: seq<string>)
    ensures forall i :: 0 <= i < |groups| ==> (Similarity(groups, i, signature) >= THRESHOLD <==> Close(signature, groups[i].signature))
    ensures forall i, k :: 0 <= i < |groups| && 0 <= k < |groups| ==>
      (Similarity(groups, i, signature) < Similarity(groups, k, signature) <==> Closer(signature, groups[i].signature, groups[k].signature))
  {
    forall i, k | 0 <= i < |groups| && 0 <= k < |groups|
      ensures Similarity(groups, i, signature) >= THRESHOLD <==> Close(signature, groups[i].signature)
      ensures Similarity(groups, i, signature) < Similarity(groups, k, signature) <==> Closer(signature, groups[i].signature, groups[k].signature)
    {
      SimilarityMeans(signature, groups[i].signature, groups[k].signature);
    }
  }

  lemma BestExact(groups: seq<Group>, signature: seq<string>)
    ensures Best(groups, signature).None? <==> Dissimilar(groups, |groups|, signature)
    ensures forall i: nat :: Best(groups, signature) == Some(i) <==> EarliestBest(groups, |groups|, signature, i)
  {
    LeadingExact(groups, signature);
    MeaningOfGroups(groups, signature);
    var best := Best(groups, signature);
    if best.Some? {
      assert EarliestBest(groups, |groups|, signature, best.value);
    }
  }

  // ---------------------------------------------------------------- founders

  ghost predicate SameFounders(before: seq<Group>, after: seq<Group>) {
    && |before| <= |after|
    && forall k :: 0 <= k < |before| ==> after[k].key == before[k].key && after[k].signature == before[k].signature
  }

  lemma PlacedKeepsFounders(groups: seq<Group>, m: Member)
    ensures SameFounders(groups, Placed(groups, m))
    ensures |Placed(groups, m)| <= |groups| + 1
  {
  }

  lemma {:induction false} FoundersPersist(members: seq<Member>, n: nat)
    requires n <= |members|
    ensures SameFounders(Clustered(members[..n]), Clustered(members))
  {
    if n == |members| {
      assert members[..n] == members;
    } else {
      var init := members[..|members| - 1];
      assert init[..n] == members[..n];
      FoundersPersist(init, n);
      PlacedKeepsFounders(Clustered(init), members[|members| - 1]);
    }
  }

  /** Founders have keys of their own, and no two of them are similar. */
  ghost predicate Apart(groups: seq<Group>) {
    && (forall i :: 0 <= i < |groups| ==> groups[i].key != "")
    && (forall i, j :: 0 <= i < |groups| && 0 <= j < |groups| && i != j ==> groups[i].key != groups[j].key)
    && (forall i, j :: 0 <= i < |groups| && 0 <= j < |groups| && i != j ==>
          !Close(groups[i].signature, groups[j].signature))
  }

  lemma CloseIsSymmetric(left: seq<string>, right: seq<string>)
    ensures Close(left, right) <==> Close(right, left)
  {
    SimilarityMeans(left, right, right);
    SimilarityMeans(right, left, left);
    JaccardFacts(left, right);
  }

  lemma OneMoreApart(groups: seq<Group>, founder: Group)
    requires Apart(groups) && founder.key != ""
    requires forall i :: 0 <= i < |groups| ==> groups[i].key != founder.key
    requires forall i :: 0 <= i < |groups| ==> !Close(groups[i].signature, founder.signature) && !Close(founder.signature, groups[i].signature)
    ensures Apart(groups + [founder])
  {
  }

  lemma PlacedApart(groups: seq<Group>, m: Member)
    requires Apart(groups)
    ensures Apart(Placed(groups, m))
  {
    if m.insight.key != "" {
      if Home(groups, m.insight).None? {
        var founder := Founded(m);
        BestExact(groups, founder.signature);
        forall i | 0 <= i < |groups|
          ensures !Close(founder.signature, groups[i].signature) && !Close(groups[i].signature, founder.signature)
        {
          CloseIsSymmetric(founder.signature, groups[i].signature);
        }
        OneMoreApart(groups, founder);
      } else {
        PlacedKeepsFounders(groups, m);
      }
    }
  }

  lemma {:induction false} FoundersApart(members: seq<Member>)
    ensures Apart(Clustered(members))
  {
    if members != [] {
      FoundersApart(members[..|members| - 1]);
      PlacedApart(Clustered(members[..|members| - 1]), members[|members| - 1]);
    }
  }

  // ---------------------------------------------------------------- the partition

  /** The group in which the insight at position `n` lands. */
  function Landing(members: seq<Member>, n: nat): nat
    requires n < |members|
  {
    var groups := Clustered(members[..n]);
    match Home(groups, members[n].insight)
    case None => |groups|
    case Some(i) => i
  }

  /** The first `n` insights that have a key and land in group `g`, in order. */
  function Landed(members: seq<Member>, n: nat, g: nat): seq<Member>
    requires n <= |members|
  {
    if n == 0 then []
    else if members[n - 1].insight.key != "" && Landing(members, n - 1) == g then Landed(members, n - 1, g) + [members[n - 1]]
    else Landed(members, n - 1, g)
  }

  function SourceIDs(members: seq<Member>): set<string> {
    if members == [] then {} else SourceIDs(members[..|members| - 1]) + {members[|members| - 1].sourceID}
  }

  lemma SourceIDsMore(members: seq<Member>, m: Member)
    ensures SourceIDs(members + [m]) == SourceIDs(members) + {m.sourceID}
  {
    assert (members + [m])[..|members|] == members;
  }

  /** The groups hold exactly the insights that landed in them. */
  ghost predicate Partitioned(members: seq<Member>, n: nat, groups: seq<Group>)
    requires n <= |members|
  {
    && (forall g :: 0 <= g < |groups| ==> groups[g].members == Landed(members, n, g))
    && (forall g :: 0 <= g < |groups| ==> groups[g].sourceIDs == SourceIDs(groups[g].members))
    && (forall g: nat :: g >= |groups| ==> Landed(members, n, g) == [])
  }

  lemma LandedMore(members: seq<Member>, n: nat, g: nat)
    requires n < |members| && members[n].insight.key != ""
    ensures Landed(members, n + 1, g) == if g == Landing(members, n) then Landed(members, n, g) + [members[n]] else Landed(members, n, g)
  {
  }

  lemma PartitionJoin(members: seq<Member>, n: nat, groups: seq<Group>, p: nat, next: nat, after: seq<Group>)
    requires n < |members| && members[n].insight.key != "" && p == Landing(members, n) < |groups|
    requires Partitioned(members, n, groups) && next == n + 1 && after == groups[p := Joined(groups[p], members[n])]
    ensures Partitioned(members, next, after)
  {
    forall g: nat ensures Landed(members, next, g) == if g == p then Landed(members, n, g) + [members[n]] else Landed(members, n, g) {
      LandedMore(members, n, g);
    }
    SourceIDsMore(groups[p].members, members[n]);
  }

  lemma PartitionFound(members: seq<Member>, n: nat, groups: seq<Group>, p: nat, next: nat, after: seq<Group>)
    requires n < |members| && members[n].insight.key != "" && p == Landing(members, n) == |groups|
    requires Partitioned(members, n, groups) && next == n + 1 && after == groups + [Founded(members[n])]
    ensures Partitioned(members, next, after)
  {
    forall g: nat ensures Landed(members, next, g) == if g == p then Landed(members, n, g) + [members[n]] else Landed(members, n, g) {
      LandedMore(members, n, g);
    }
    assert Landed(members, n, p) == [];
    SourceIDsMore([], members[n]);
    assert [] + [members[n]] == [members[n]];
  }

  lemma PartitionSkip(members: seq<Member>, n: nat, groups: seq<Group>, next: nat)
    requires n < |members| && members[n].insight.key == "" && Partitioned(members, n, groups) && next == n + 1
    ensures Partitioned(members, next, groups)
  {
    assert forall g: nat :: Landed(members, next, g) == Landed(members, n, g);
  }

  lemma PartitionStep(members: seq<Member>, n: nat, groups: seq<Group>)
    requires n < |members| && groups == Clustered(members[..n]) && Partitioned(members, n, groups)
    ensures Partitioned(members, n + 1, Placed(groups, members[n]))
  {
    if members[n].insight.key == "" {
      PartitionSkip(members, n, groups, n + 1);
    } else if Home(groups, members[n].insight).None? {
      PartitionFound(members, n, groups, |groups|, n + 1, Placed(groups, members[n]));
    } else {
      PartitionJoin(members, n, groups, Home(groups, members[n].insight).value, n + 1, Placed(groups, members[n]));
    }
  }

  lemma ClusteredMore(members: seq<Member>, m: Member)
    ensures Clustered(members + [m]) == Placed(Clustered(members), m)
  {
    assert (members + [m])[..|members|] == members;
  }

  lemma LandingsInRange(members: seq<Member>, k: nat, n: nat)
    requires k < n <= |members| && members[k].insight.key != ""
    ensures Landing(members, k) < |Clustered(members[..n])|
  {
    assert members[..n][..k + 1] == members[..k] + [members[k]];
    ClusteredMore(members[..k], members[k]);
    FoundersPersist(members[..n], k + 1);
  }

  /** Every insight with a key is in exactly one group, the one it landed in, and the groups
      list their insights in the order in which they came. */
  lemma {:induction false} ClustersPartition(members: seq<Member>, n: nat)
    requires n <= |members|
    ensures Partitioned(members, n, Clustered(members[..n]))
    ensures forall k :: 0 <= k < n && members[k].insight.key != "" ==> Landing(members, k) < |Clustered(members[..n])|
  {
    forall k | 0 <= k < n && members[k].insight.key != "" ensures Landing(members, k) < |Clustered(members[..n])| {
      LandingsInRange(members, k, n);
    }
    if n > 0 {
      ClustersPartition(members, n - 1);
      assert members[..n][..n - 1] == members[..n - 1];
      PartitionStep(members, n - 1, Clustered(members[..n - 1]));
    }
  }

  /** Why an insight lands at `p` when there are `f` founders: it founds a group of its own and
      no founder has its key or is similar; or it has its founder's key; or its key is nobody's
      and its founder is the earliest of the most similar ones. */
  ghost predicate Explained(groups: seq<Group>, f: nat, insight: Insight, p: nat)
    requires f <= |groups|
  {
    var unknown := forall k :: 0 <= k < f ==> groups[k].key != insight.key;
    && p < |groups| && p <= f
    && (p == f ==> unknown && Dissimilar(groups, f, insight.signature)
                   && groups[p].key == insight.key && groups[p].signature == insight.signature)
    && (p < f && !unknown ==> groups[p].key == insight.key)
    && (p < f && unknown ==> EarliestBest(groups, f, insight.signature, p))
  }

  lemma PlacedExplained(groups: seq<Group>, m: Member)
    requires m.insight.key != ""
    ensures var p := match Home(groups, m.insight) case None => |groups| case Some(i) => i;
      Explained(Placed(groups, m), |groups|, m.insight, p)
  {
    var after := Placed(groups, m);
    BestExact(groups, m.insight.signature);
    assert forall k :: 0 <= k < |groups| ==> after[k].key == groups[k].key && after[k].signature == groups[k].signature;
  }

  lemma ExplainedLater(groups: seq<Group>, after: seq<Group>, f: nat, insight: Insight, p: nat)
    requires SameFounders(groups, after) && f <= |groups| && Explained(groups, f, insight, p)
    ensures Explained(after, f, insight, p)
  {
  }

  /** Every insight that has a key is where it is for one of these reasons, even among the
      groups in the end. */
  lemma LandingExact(members: seq<Member>, n: nat)
    requires n < |members| && members[n].insight.key != ""
    ensures |Clustered(members[..n])| <= |Clustered(members)|
    ensures Explained(Clustered(members), |Clustered(members[..n])|, members[n].insight, Landing(members, n))
  {
    var before := Clustered(members[..n]);
    assert members[..n + 1][..n] == members[..n] && members[..n + 1][n] == members[n];
    PlacedExplained(before, members[n]);
    FoundersPersist(members, n + 1);
    PlacedKeepsFounders(before, members[n]);
    ExplainedLater(Placed(before, members[n]), Clustered(members), |before|, members[n].insight, Landing(members, n));
  }

  /** Once an insight has founded a group, later insights with its key join it. */
  lemma FounderKeepsItsKey(members: seq<Member>, m: nat, n: nat)
    requires m < n < |members| && members[m].insight.key == members[n].insight.key != ""
    requires Landing(members, m) == |Clustered(members[..m])|
    ensures Landing(members, n) == Landing(members, m)
  {
    var p, now := Landing(members, m), Clustered(members[..n]);
    LandingExact(members[..n], m);
    assert members[..n][..m] == members[..m];
    FoundersApart(members[..n]);
    assert now[p].key == members[n].insight.key;
  }

  /** Exactly when two insights with one key are in one cluster: if some group bears the key when the
      second one comes, when that is the group of the first one; and otherwise when the first one's
      group is the earliest of those most similar to the second one. */
  lemma EqualKeysMeetExactly(members: seq<Member>, m: nat, n: nat)
    requires m < n < |members| && members[m].insight.key == members[n].insight.key != ""
    ensures var now, p := Clustered(members[..n]), Landing(members, m);
      && p < |now|
      && (Landing(members, n) == p <==>
            if exists k :: 0 <= k < |now| && now[k].key == members[n].insight.key
            then now[p].key == members[n].insight.key
            else EarliestBest(now, |now|, members[n].insight.signature, p))
  {
    var now, p := Clustered(members[..n]), Landing(members, m);
    LandingsInRange(members, m, n);
    FoundersApart(members[..n]);
    BestExact(now, members[n].insight.signature);
  }

  lemma PairOfTokens(a: string, b: string)
    requires a != b
    ensures Close([a, b], [a]) && !Close([b], [a])
  {
    assert Tokens([a, b]) == {a, b} && Tokens([a]) == {a} && Tokens([b]) == {b};
    assert {a, b} * {a} == {a} && {b} * {a} == {} && {a, b} + {a} == {a, b};
  }

  lemma OneFounder(groups: seq<Group>, g: Group, insight: Insight)
    requires groups == [g] && g.key != insight.key
    ensures Home(groups, insight) == if Close(insight.signature, g.signature) then Some(0) else None
  {
    BestExact(groups, insight.signature);
    SimilarityMeans(insight.signature, g.signature, g.signature);
    assert !Closer(insight.signature, g.signature, g.signature);
    assert Close(insight.signature, g.signature) ==> EarliestBest(groups, 1, insight.signature, 0);
  }

  /** An insight that joined by similarity does not register its key: two insights with one key
      may be in two clusters. */
  lemma EqualKeysMaySplit(a: Member, b: Member, c: Member)
    requires a.insight.key != "" && a.insight.signature == ["sleep"]
    requires b.insight.key !in {"", a.insight.key} && b.insight.signature == ["sleep", "energy"]
    requires c.insight.key == b.insight.key && c.insight.signature == ["energy"]
    ensures Landing([a, b, c], 1) == 0 && Landing([a, b, c], 2) == 1
  {
    var one, two := Clustered([a]), Clustered([a, b]);
    assert [a, b, c][..1] == [a] && [a, b, c][..2] == [a, b] && [] + [a] == [a] && [a] + [b] == [a, b];
    ClusteredMore([], a);
    ClusteredMore([a], b);
    PairOfTokens("sleep", "energy");
    assert Home([], a.insight) == None;
    assert one == [Founded(a)];
    OneFounder(one, Founded(a), b.insight);
    assert two == [Joined(Founded(a), b)];
    OneFounder(two, two[0], c.insight);
  }
}
