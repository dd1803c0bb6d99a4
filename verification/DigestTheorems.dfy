/** What a digest contains: as many distinct insights as there can be, of both kinds of sources if
    possible, and the first ones of the shuffle; in whatever order the insights came. */
module DigestTheorems {
  import opened Basics
  import opened Sorting
  import opened DigestSelection

  ghost predicate Within(picked: seq<Insight>, all: seq<Insight>) {
    forall k :: 0 <= k < |picked| ==> picked[k] in all
  }

  ghost predicate DistinctIdentities(picked: seq<Insight>) {
    forall i, j :: 0 <= i < j < |picked| ==> Identity(picked[i]) != Identity(picked[j])
  }

  // ---------------------------------------------------------------- identities

  lemma UsedMore(picked: seq<Insight>, i: Insight)
    ensures Used(picked + [i]) == Used(picked) + {Identity(i)}
  {
    assert (picked + [i])[..|picked|] == picked;
  }

  lemma {:induction false} UsedExact(picked: seq<Insight>, identity: string)
    ensures identity in Used(picked) <==> exists k :: 0 <= k < |picked| && Identity(picked[k]) == identity
  {
    if picked != [] {
      UsedExact(picked[..|picked| - 1], identity);
    }
  }

  lemma UsedHas(picked: seq<Insight>, i: Insight)
    requires i in picked
    ensures Identity(i) in Used(picked)
  {
    var k :| 0 <= k < |picked| && picked[k] == i;
    UsedExact(picked, Identity(i));
  }

  lemma {:induction false} DistinctCount(picked: seq<Insight>)
    ensures |Used(picked)| <= |picked|
    ensures DistinctIdentities(picked) ==> |Used(picked)| == |picked|
  {
    if picked != [] {
      var init, last := picked[..|picked| - 1], picked[|picked| - 1];
      DistinctCount(init);
      UsedExact(init, Identity(last));
    }
  }

  lemma UsedWithin(picked: seq<Insight>, all: seq<Insight>)
    requires Within(picked, all)
    ensures Used(picked) <= Used(all)
  {
    forall identity | identity in Used(picked) ensures identity in Used(all) {
      UsedExact(picked, identity);
      var k :| 0 <= k < |picked| && Identity(picked[k]) == identity;
      UsedHas(all, picked[k]);
    }
  }

  // ---------------------------------------------------------------- one more insight

  /** Distinct insights of the list, no more than the limit. */
  ghost predicate Proper(picked: seq<Insight>, all: seq<Insight>, limit: int) {
    Within(picked, all) && DistinctIdentities(picked) && |picked| <= limit
  }

  lemma ProperMore(picked: seq<Insight>, all: seq<Insight>, limit: int, i: Insight)
    requires Proper(picked, all, limit) && |picked| < limit && i in all && Identity(i) !in Used(picked)
    ensures Proper(picked + [i], all, limit)
  {
    forall k | 0 <= k < |picked| ensures Identity(picked[k]) != Identity(i) {
      UsedHas(picked, picked[k]);
    }
  }

  lemma {:induction false} FirstOfExact(shuffled: seq<Insight>, source: string, used: set<string>)
    ensures FirstOf(shuffled, source, used).Some? ==>
      && FirstOf(shuffled, source, used).value in shuffled
      && FirstOf(shuffled, source, used).value.source == source
      && Identity(FirstOf(shuffled, source, used).value) !in used
    ensures FirstOf(shuffled, source, used).None? ==>
      forall k :: 0 <= k < |shuffled| && shuffled[k].source == source ==> Identity(shuffled[k]) in used
  {
    if shuffled != [] {
      FirstOfExact(shuffled[1..], source, used);
    }
  }

  lemma RepresentedIsProper(picked: seq<Insight>, shuffled: seq<Insight>, source: string, limit: int)
    requires Proper(picked, shuffled, limit)
    ensures Proper(Represented(picked, shuffled, source, limit), shuffled, limit)
    ensures picked <= Represented(picked, shuffled, source, limit)
  {
    FirstOfExact(shuffled, source, Used(picked));
    if |picked| < limit && FirstOf(shuffled, source, Used(picked)).Some? {
      ProperMore(picked, shuffled, limit, FirstOf(shuffled, source, Used(picked)).value);
    }
  }

  lemma {:induction false} FilledIsProper(picked: seq<Insight>, all: seq<Insight>, limit: int, n: nat)
    requires Proper(picked, all, limit) && n <= |all|
    ensures Proper(Filled(picked, all[..n], limit), all, limit) && picked <= Filled(picked, all[..n], limit)
    decreases n
  {
    if n > 0 {
      FilledIsProper(picked, all, limit, n - 1);
      assert all[..n][..n - 1] == all[..n - 1];
      var before := Filled(picked, all[..n - 1], limit);
      if |before| < limit && Identity(all[n - 1]) !in Used(before) {
        ProperMore(before, all, limit, all[n - 1]);
      }
    }
  }

  /** Filling stops at the limit or when nothing is left. */
  lemma {:induction false} FilledIsFull(picked: seq<Insight>, all: seq<Insight>, limit: int, n: nat)
    requires n <= |all|
    ensures |Filled(picked, all[..n], limit)| >= limit || Used(all[..n]) <= Used(Filled(picked, all[..n], limit))
    decreases n
  {
    if n > 0 {
      FilledIsFull(picked, all, limit, n - 1);
      assert all[..n][..n - 1] == all[..n - 1];
      UsedMore(Filled(picked, all[..n - 1], limit), all[n - 1]);
    }
  }

  // ---------------------------------------------------------------- size and sources

  function Min(a: int, b: int): int {
    if a <= b then a else b
  }

  lemma PickedIsProper(shuffled: seq<Insight>, limit: int)
    requires limit >= 1
    ensures Proper(Picked(shuffled, limit), shuffled, limit) && Representatives(shuffled, limit) <= Picked(shuffled, limit)
  {
    RepresentedIsProper([], shuffled, "youtube", limit);
    RepresentedIsProper(Represented([], shuffled, "youtube", limit), shuffled, "x", limit);
    FilledIsProper(Representatives(shuffled, limit), shuffled, limit, |shuffled|);
    assert shuffled[..|shuffled|] == shuffled;
  }

  lemma PickedSize(shuffled: seq<Insight>, limit: int)
    requires limit >= 1
    ensures |Picked(shuffled, limit)| == Min(limit, |Used(shuffled)|)
  {
    var picked := Picked(shuffled, limit);
    PickedIsProper(shuffled, limit);
    FilledIsFull(Representatives(shuffled, limit), shuffled, limit, |shuffled|);
    assert shuffled[..|shuffled|] == shuffled;
    DistinctCount(picked);
    UsedWithin(picked, shuffled);
    SubsetSize(Used(picked), Used(shuffled));
    if |picked| < limit {
      SubsetSize(Used(shuffled), Used(picked));
    }
  }

  ghost predicate Has(insights: seq<Insight>, source: string) {
    exists i :: i in insights && i.source == source
  }

  /** There is an insight of the source whose identity differs from `taken`'s. */
  ghost predicate HasOther(insights: seq<Insight>, source: string, taken: seq<Insight>) {
    exists i :: i in insights && i.source == source && Identity(i) !in Used(taken)
  }

  /** The YouTube insight that is picked first. */
  function FirstYouTube(shuffled: seq<Insight>): seq<Insight> {
    Represented([], shuffled, "youtube", 1)
  }

  lemma PickedYouTube(shuffled: seq<Insight>, limit: int)
    requires limit >= 1
    ensures Has(Picked(shuffled, limit), "youtube") <==> Has(shuffled, "youtube")
  {
    var picked := Picked(shuffled, limit);
    PickedIsProper(shuffled, limit);
    RepresentedIsProper([], shuffled, "youtube", limit);
    RepresentedIsProper(Represented([], shuffled, "youtube", limit), shuffled, "x", limit);
    FirstOfExact(shuffled, "youtube", {});
    if Has(shuffled, "youtube") {
      var i :| i in shuffled && i.source == "youtube";
      var k :| 0 <= k < |shuffled| && shuffled[k] == i;
      assert picked[0] == FirstOf(shuffled, "youtube", {}).value;
    }
  }

  lemma FirstYouTubeExact(all: seq<Insight>)
    ensures var first := FirstYouTube(all);
      first == [] || (|first| == 1 && first[0] in all && first[0].source == "youtube" && Used(first) == {Identity(first[0])})
  {
    var found := FirstOf(all, "youtube", {});
    FirstOfExact(all, "youtube", {});
    assert Used([]) == {};
    if found.Some? {
      UsedMore([], found.value);
      assert FirstYouTube(all) == [] + [found.value];
    }
  }

  lemma PickedStart(shuffled: seq<Insight>, limit: int)
    requires limit >= 2
    ensures Representatives(shuffled, limit) == Represented(FirstYouTube(shuffled), shuffled, "x", limit)
    ensures FirstYouTube(shuffled) <= Picked(shuffled, limit)
  {
    PickedIsProper(shuffled, limit);
    RepresentedIsProper([], shuffled, "youtube", 1);
    RepresentedIsProper(FirstYouTube(shuffled), shuffled, "x", limit);
  }

  lemma OtherXIsPicked(shuffled: seq<Insight>, limit: int, first: seq<Insight>)
    requires limit >= 2 && first == FirstYouTube(shuffled) && HasOther(shuffled, "x", first)
    ensures Has(Picked(shuffled, limit), "x")
  {
    FirstYouTubeExact(shuffled);
    PickedIsProper(shuffled, limit);
    PickedStart(shuffled, limit);
    FirstOfExact(shuffled, "x", Used(first));
    var i :| i in shuffled && i.source == "x" && Identity(i) !in Used(first);
    var k :| 0 <= k < |shuffled| && shuffled[k] == i;
    var x := FirstOf(shuffled, "x", Used(first)).value;
    assert Representatives(shuffled, limit) == first + [x];
    assert Picked(shuffled, limit)[|first|] == x;
  }

  lemma PickedXIsOther(shuffled: seq<Insight>, limit: int, first: seq<Insight>)
    requires limit >= 2 && first == FirstYouTube(shuffled) && Has(Picked(shuffled, limit), "x")
    ensures HasOther(shuffled, "x", first)
  {
    var picked := Picked(shuffled, limit);
    FirstYouTubeExact(shuffled);
    PickedIsProper(shuffled, limit);
    PickedStart(shuffled, limit);
    var i :| i in picked && i.source == "x";
    var k :| 0 <= k < |picked| && picked[k] == i;
    assert first != [] ==> first[0] == picked[0] && k > 0;
    assert Identity(i) !in Used(first);
  }

  /** An insight from X is among the picked ones exactly if one has another identity than the
      YouTube insight that was picked. */
  lemma PickedX(shuffled: seq<Insight>, limit: int)
    requires limit >= 2
    ensures Has(Picked(shuffled, limit), "x") <==> HasOther(shuffled, "x", FirstYouTube(shuffled))
  {
    if HasOther(shuffled, "x", FirstYouTube(shuffled)) {
      OtherXIsPicked(shuffled, limit, FirstYouTube(shuffled));
    }
    if Has(Picked(shuffled, limit), "x") {
      PickedXIsOther(shuffled, limit, FirstYouTube(shuffled));
    }
  }

  // ---------------------------------------------------------------- the selection

  lemma {:induction false} GoodExact(insights: seq<Insight>)
    ensures forall i :: i in Good(insights) <==> i in insights && !Poor(i)
    ensures forall i :: multiset(Good(insights))[i] == if Poor(i) then 0 else multiset(insights)[i]
  {
    if insights != [] {
      var init, last := insights[..|insights| - 1], insights[|insights| - 1];
      GoodExact(init);
      assert insights == init + [last];
    }
  }

  /** An insight without a quality, or of one that is not positive, or of 0.7 at least. */
  predicate GoodEnough(i: Insight) {
    i.quality.None? || i.quality.value <= 0.0 || i.quality.value >= 0.7
  }

  lemma {:induction false} GoodAppend(a: seq<Insight>, b: seq<Insight>)
    ensures Good(a + b) == Good(a) + Good(b)
  {
    if b == [] {
      assert a + b == a;
    } else {
      assert (a + b)[..|a + b| - 1] == a + b[..|b| - 1];
      GoodAppend(a, b[..|b| - 1]);
    }
  }

  /** The insights to select from: those that are good enough, as often as they come, or all if none is. */
  lemma QualityExact(insights: seq<Insight>)
    ensures forall i :: i in Quality(insights) <==> i in insights && (GoodEnough(i) || forall j :: j in insights ==> !GoodEnough(j))
    ensures (forall j :: j in insights ==> !GoodEnough(j)) ==> Quality(insights) == insights
    ensures forall i :: GoodEnough(i) ==> multiset(Quality(insights))[i] == multiset(insights)[i]
  {
    GoodExact(insights);
    assert forall i :: Poor(i) <==> !GoodEnough(i);
    if Good(insights) != [] {
      assert Good(insights)[0] in Good(insights);
    }
  }

  lemma GoodAt(before: seq<Insight>, i: Insight, after: seq<Insight>)
    requires GoodEnough(i)
    ensures Good(before + [i] + after) == Good(before) + [i] + Good(after)
  {
    GoodAppend(before + [i], after);
    GoodAppend(before, [i]);
    assert [i][..0] == [] && Good([i]) == [i];
  }

  /** They keep their order: what stands before one that is good enough stays before it. */
  lemma QualityInOrder(insights: seq<Insight>, k: nat)
    requires k < |insights| && GoodEnough(insights[k])
    ensures Quality(insights) == Good(insights[..k]) + [insights[k]] + Good(insights[k + 1..])
  {
    assert insights == insights[..k] + [insights[k]] + insights[k + 1..];
    GoodAt(insights[..k], insights[k], insights[k + 1..]);
  }

  lemma {:induction false} SameUsed(a: seq<Insight>, b: seq<Insight>)
    requires multiset(a) == multiset(b)
    ensures Used(a) == Used(b)
  {
    SameElements(a, b);
    UsedWithin(a, b);
    UsedWithin(b, a);
  }

  /** The digest of more insights than fit: as many distinct ones as possible, among them one
      from YouTube if there is any. */
  lemma SelectionExact(insights: seq<Insight>, limit: int, score: nat -> string -> nat)
    requires 1 <= limit < |Quality(insights)|
    ensures var selected, quality := Selected(insights, limit, score), Quality(insights);
      && |selected| == Min(limit, |Used(quality)|) && DistinctIdentities(selected) && Within(selected, quality)
      && (Has(selected, "youtube") <==> Has(quality, "youtube"))
  {
    var quality := Quality(insights);
    var shuffled := StableSort(ScoreLeq(score(|quality|)), quality);
    SameElements(shuffled, quality);
    SameUsed(shuffled, quality);
    PickedIsProper(shuffled, limit);
    PickedSize(shuffled, limit);
    PickedYouTube(shuffled, limit);
  }

  /** No bar in an ID keeps the identities of different sources apart. */
  ghost predicate NoBars(insights: seq<Insight>) {
    forall i :: i in insights ==> '|' !in i.id && '|' !in i.source
  }

  lemma {:induction false} SameUpToBar(a: string, b: string, s: string, t: string)
    requires '|' !in a && '|' !in b && a + "|" + s == b + "|" + t
    ensures a == b && s == t
  {
    if a == "" {
      assert (b + "|" + t)[0] == '|';
      assert b == "";
      assert s == ("|" + s)[1..] && t == ("|" + t)[1..];
    } else {
      assert (a + "|" + s)[0] == a[0] != '|';
      assert (b + "|" + t)[0] == (b + "|")[0];
      assert b != "";
      assert (a + "|" + s)[1..] == a[1..] + "|" + s && (b + "|" + t)[1..] == b[1..] + "|" + t;
      SameUpToBar(a[1..], b[1..], s, t);
      assert a == [a[0]] + a[1..] && b == [b[0]] + b[1..];
    }
  }

  lemma IdentityNamesSource(a: Insight, b: Insight)
    requires '|' !in a.id && '|' !in a.source && '|' !in b.id && '|' !in b.source && Identity(a) == Identity(b)
    ensures a.id == b.id && a.source == b.source
  {
    var s, t := a.source + "|" + (a.title + "|" + a.sourceURL + "|" + a.text), b.source + "|" + (b.title + "|" + b.sourceURL + "|" + b.text);
    assert Identity(a) == a.id + "|" + s && Identity(b) == b.id + "|" + t;
    SameUpToBar(a.id, b.id, s, t);
    SameUpToBar(a.source, b.source, a.title + "|" + a.sourceURL + "|" + a.text, b.title + "|" + b.sourceURL + "|" + b.text);
  }

  /** Without bars in all but the text, an identity determines the insight's ID, source, title, address
      and text. */
  lemma IdentityExact(a: Insight, b: Insight)
    requires '|' !in a.id && '|' !in a.source && '|' !in a.title && '|' !in a.sourceURL
    requires '|' !in b.id && '|' !in b.source && '|' !in b.title && '|' !in b.sourceURL
    ensures Identity(a) == Identity(b) <==>
      a.id == b.id && a.source == b.source && a.title == b.title && a.sourceURL == b.sourceURL && a.text == b.text
  {
    if Identity(a) == Identity(b) {
      IdentityNamesSource(a, b);
      assert Identity(a) == (a.id + "|" + a.source + "|") + (a.title + "|" + (a.sourceURL + "|" + a.text));
      assert Identity(b) == (a.id + "|" + a.source + "|") + (b.title + "|" + (b.sourceURL + "|" + b.text));
      SamePrefix(a.id + "|" + a.source + "|", a.title + "|" + (a.sourceURL + "|" + a.text), b.title + "|" + (b.sourceURL + "|" + b.text));
      SameUpToBar(a.title, b.title, a.sourceURL + "|" + a.text, b.sourceURL + "|" + b.text);
      SameUpToBar(a.sourceURL, b.sourceURL, a.text, b.text);
    }
  }

  lemma SamePrefix(p: string, s: string, t: string)
    requires p + s == p + t
    ensures s == t
  {
    assert (p + s)[|p|..] == s && (p + t)[|p|..] == t;
  }

  lemma XIsOther(all: seq<Insight>)
    requires NoBars(all)
    ensures Has(all, "x") ==> HasOther(all, "x", FirstYouTube(all))
  {
    if Has(all, "x") {
      var i :| i in all && i.source == "x";
      var first := FirstYouTube(all);
      FirstYouTubeExact(all);
      if first != [] && Identity(first[0]) == Identity(i) {
        IdentityNamesSource(first[0], i);
        assert false;
      }
      assert Identity(i) !in Used(first);
    }
  }

  lemma {:induction false} FirstOfLowest(leq: (Insight, Insight) -> bool, shuffled: seq<Insight>, source: string, k: nat)
    requires TotalPreorder(leq) && Ordered(leq, shuffled) && k < |shuffled| && shuffled[k].source == source
    ensures FirstOf(shuffled, source, {}).Some? && leq(FirstOf(shuffled, source, {}).value, shuffled[k])
  {
    if shuffled[0].source != source {
      FirstOfLowest(leq, shuffled[1..], source, k - 1);
    }
  }

  /** The YouTube insight that represents its source in a digest. */
  function ChosenYouTube(insights: seq<Insight>, score: nat -> string -> nat): seq<Insight> {
    FirstYouTube(StableSort(ScoreLeq(score(|Quality(insights)|)), Quality(insights)))
  }

  /** It is one of the lowest score, and there is one if there is any. */
  lemma ChosenYouTubeExact(insights: seq<Insight>, score: nat -> string -> nat)
    ensures var q, chosen := Quality(insights), ChosenYouTube(insights, score);
      && (chosen == [] <==> !Has(q, "youtube"))
      && (chosen != [] ==>
            && |chosen| == 1 && chosen[0] in q && chosen[0].source == "youtube" && Used(chosen) == {Identity(chosen[0])}
            && forall y :: y in q && y.source == "youtube" ==> score(|q|)(Identity(chosen[0])) <= score(|q|)(Identity(y)))
  {
    var q := Quality(insights);
    var leq := ScoreLeq(score(|q|));
    var shuffled := StableSort(leq, q);
    SameElements(shuffled, q);
    ScoresOrder(score(|q|));
    StableSortOrdered(leq, q);
    FirstYouTubeExact(shuffled);
    forall y | y in q && y.source == "youtube"
      ensures FirstOf(shuffled, "youtube", {}).Some? && leq(FirstOf(shuffled, "youtube", {}).value, y)
    {
      var k :| 0 <= k < |shuffled| && shuffled[k] == y;
      FirstOfLowest(leq, shuffled, "youtube", k);
    }
  }

  lemma PickedOne(shuffled: seq<Insight>)
    ensures Has(Picked(shuffled, 1), "x") <==> Has(shuffled, "x") && !Has(shuffled, "youtube")
  {
    PickedIsProper(shuffled, 1);
    PickedYouTube(shuffled, 1);
    FirstOfExact(shuffled, "youtube", {});
    FirstOfExact(shuffled, "x", {});
    if Has(shuffled, "x") && !Has(shuffled, "youtube") {
      var i :| i in shuffled && i.source == "x";
      var k :| 0 <= k < |shuffled| && shuffled[k] == i;
      assert Representatives(shuffled, 1) == [] + [FirstOf(shuffled, "x", {}).value];
      assert Picked(shuffled, 1)[0].source == "x";
    }
  }

  /** Exactly when a digest has an insight from X, for every limit: if all insights are taken, if
      there is one; with room for one, if there is none from YouTube; and otherwise if there is one
      of another identity than the chosen YouTube insight. */
  lemma SelectedX(insights: seq<Insight>, limit: int, score: nat -> string -> nat)
    ensures var q := Quality(insights);
      Has(Selected(insights, limit, score), "x") <==>
        if limit <= 0 || |q| <= limit then Has(q, "x")
        else if limit == 1 then Has(q, "x") && !Has(q, "youtube")
        else HasOther(q, "x", ChosenYouTube(insights, score))
  {
    var q := Quality(insights);
    if 1 <= limit < |q| {
      var shuffled := StableSort(ScoreLeq(score(|q|)), q);
      SameElements(shuffled, q);
      if limit == 1 {
        PickedOne(shuffled);
      } else {
        PickedX(shuffled, limit);
      }
    }
  }

  /** With room for two and no bars in the IDs, a digest has an insight from X if there is any. */
  lemma SelectionHasX(insights: seq<Insight>, limit: int, score: nat -> string -> nat)
    requires 2 <= limit < |Quality(insights)| && NoBars(insights)
    ensures Has(Selected(insights, limit, score), "x") <==> Has(Quality(insights), "x")
  {
    var quality := Quality(insights);
    var shuffled := StableSort(ScoreLeq(score(|quality|)), quality);
    SameElements(shuffled, quality);
    QualityExact(insights);
    assert NoBars(shuffled);
    PickedX(shuffled, limit);
    XIsOther(shuffled);
    PickedIsProper(shuffled, limit);
  }

  lemma BarsMove(p: string, q: string, rest: string)
    ensures (p + "|x|" + q) + "|" + "youtube" + "|" + rest == p + "|" + "x" + "|" + (q + "|youtube|" + rest)
  {
  }

  /** A bar in an ID can make the only X insight pass for a YouTube one: it is left out of a digest
      of two although a third insight, not from X, is taken in. */
  lemma BarHidesX(p: string, q: string, r: string, url: string, text: string, c: Insight, score: nat -> string -> nat)
    requires c.source != "x" && !Poor(c)
    requires c.source == "youtube" ==> score(3)(Identity(Insight(p + "|x|" + q, "youtube", r, url, text, None))) < score(3)(Identity(c))
    ensures var a, b := Insight(p + "|x|" + q, "youtube", r, url, text, None), Insight(p, "x", q + "|youtube|" + r, url, text, None);
      && Has(Quality([a, b, c]), "x") && |Quality([a, b, c])| == 3 && !Has(Selected([a, b, c], 2, score), "x")
      && (Identity(c) != Identity(a) ==> |Selected([a, b, c], 2, score)| == 2)
  {
    var a, b := Insight(p + "|x|" + q, "youtube", r, url, text, None), Insight(p, "x", q + "|youtube|" + r, url, text, None);
    BarsMove(p, q, r);
    assert Identity(a) == Identity(b);
    HiddenBehind(a, b, c, [a, b, c], score);
    if Identity(c) != Identity(a) {
      TwoIdentities(a, b, c, [a, b, c]);
      SelectionExact([a, b, c], 2, score);
    }
  }

  lemma TwoIdentities(a: Insight, b: Insight, c: Insight, all: seq<Insight>)
    requires all == [a, b, c] && Identity(a) == Identity(b) != Identity(c)
    ensures |Used(all)| == 2
  {
    UsedMore([], a);
    UsedMore([a], b);
    UsedMore([a, b], c);
    assert [] + [a] == [a] && [a] + [b] == [a, b] && [a, b] + [c] == all;
    assert Used(all) == {Identity(a), Identity(c)};
  }

  lemma OnlyOneX(a: Insight, b: Insight, c: Insight, all: seq<Insight>, taken: seq<Insight>)
    requires all == [a, b, c] && a.source == "youtube" && b.source == "x" && c.source != "x" && Identity(b) in Used(taken)
    ensures Has(all, "x") && !HasOther(all, "x", taken)
  {
    assert all[1] == b;
  }

  lemma HiddenBehind(a: Insight, b: Insight, c: Insight, all: seq<Insight>, score: nat -> string -> nat)
    requires all == [a, b, c] && !Poor(a) && !Poor(b) && !Poor(c)
    requires a.source == "youtube" && b.source == "x" && c.source != "x"
    requires Identity(a) == Identity(b) && (c.source == "youtube" ==> score(3)(Identity(a)) < score(3)(Identity(c)))
    ensures Quality(all) == all && Has(all, "x") && !Has(Selected(all, 2, score), "x")
  {
    AllGood(all);
    NothingHasX(a, b, c, all, score, ChosenYouTube(all, score));
    SelectedX(all, 2, score);
  }

  lemma NothingHasX(a: Insight, b: Insight, c: Insight, all: seq<Insight>, score: nat -> string -> nat, chosen: seq<Insight>)
    requires all == [a, b, c] && Quality(all) == all && chosen == ChosenYouTube(all, score)
    requires a.source == "youtube" && b.source == "x" && c.source != "x"
    requires Identity(a) == Identity(b) && (c.source == "youtube" ==> score(3)(Identity(a)) < score(3)(Identity(c)))
    ensures Has(all, "x") && !HasOther(all, "x", chosen)
  {
    assert all[0] == a;
    ChosenYouTubeExact(all, score);
    ChosenIsFirst(a, b, c, all, score(3), chosen);
    OnlyOneX(a, b, c, all, chosen);
  }

  lemma ChosenIsFirst(a: Insight, b: Insight, c: Insight, all: seq<Insight>, score: string -> nat, chosen: seq<Insight>)
    requires all == [a, b, c] && a.source == "youtube" && b.source == "x" && chosen != []
    requires c.source == "youtube" ==> score(Identity(a)) < score(Identity(c))
    requires chosen[0] in all && chosen[0].source == "youtube"
    requires forall y :: y in all && y.source == "youtube" ==> score(Identity(chosen[0])) <= score(Identity(y))
    ensures chosen[0] == a
  {
    assert a in all;
  }

  lemma {:induction false} AllGood(insights: seq<Insight>)
    requires forall k :: 0 <= k < |insights| ==> !Poor(insights[k])
    ensures Good(insights) == insights && Quality(insights) == insights
  {
    if insights != [] {
      AllGood(insights[..|insights| - 1]);
    }
  }

  // ---------------------------------------------------------------- order

  lemma ScoresOrder(score: string -> nat)
    ensures TotalPreorder(ScoreLeq(score))
  {
  }

  /** Two lists of the same insights with distinct scores give the same digest. */
  lemma SelectionIgnoresOrder(a: seq<Insight>, b: seq<Insight>, limit: int, score: nat -> string -> nat)
    requires multiset(a) == multiset(b) && 1 <= limit < |Quality(a)|
    requires var quality := Quality(a);
      forall i, j :: 0 <= i < j < |quality| ==>
        score(|quality|)(Identity(quality[i])) != score(|quality|)(Identity(quality[j]))
    ensures Selected(a, limit, score) == Selected(b, limit, score)
  {
    var qa, qb := Quality(a), Quality(b);
    GoodExact(a);
    GoodExact(b);
    assert multiset(Good(a)) == multiset(Good(b));
    SameElements(Good(a), Good(b));
    SameElements(qa, qb);
    ScoresOrder(score(|qa|));
    OrderIndependent(ScoreLeq(score(|qa|)), qa, qb);
  }

  // ---------------------------------------------------------------- the first of the shuffle

  /** What was filled in comes no later in the shuffle than what was left out. */
  lemma {:induction false} FilledAreFirst(picked: seq<Insight>, all: seq<Insight>, limit: int, n: nat, k: nat, left: nat)
    requires n <= |all| && left < n && |picked| <= k < |Filled(picked, all[..n], limit)|
    requires Identity(all[left]) !in Used(Filled(picked, all[..n], limit))
    ensures Filled(picked, all[..n], limit)[k] in all[..left]
    decreases n
  {
    var before, after := Filled(picked, all[..n - 1], limit), Filled(picked, all[..n], limit);
    assert all[..n][..n - 1] == all[..n - 1];
    if left == n - 1 {
      UsedMore(before, all[left]);
      assert after == before;
      FilledFromPrefix(picked, all, limit, n - 1, k);
    } else {
      UsedMore(before, all[n - 1]);
      FilledIsFull(picked, all, limit, n - 1);
      UsedHas(all[..n - 1], all[..n - 1][left]);
      assert |before| >= limit;
      FilledAreFirst(picked, all, limit, n - 1, k, left);
    }
  }

  lemma {:induction false} FilledFromPrefix(picked: seq<Insight>, all: seq<Insight>, limit: int, n: nat, k: nat)
    requires n <= |all| && |picked| <= k < |Filled(picked, all[..n], limit)|
    ensures Filled(picked, all[..n], limit)[k] in all[..n]
    decreases n
  {
    if n == 0 {
      assert false;
    } else {
      var before := Filled(picked, all[..n - 1], limit);
      assert all[..n][..n - 1] == all[..n - 1];
      if k < |before| {
        FilledFromPrefix(picked, all, limit, n - 1, k);
        assert forall i :: i in all[..n - 1] ==> i in all[..n];
      } else {
        assert all[..n][n - 1] == all[n - 1];
      }
    }
  }

  /** Apart from the representatives, nothing that is left out has a lower score than what is
      in the digest. */
  lemma FilledHaveLowestScores(insights: seq<Insight>, limit: int, score: nat -> string -> nat, k: nat, i: Insight)
    requires 1 <= limit < |Quality(insights)| && i in Quality(insights)
    requires var selected := Selected(insights, limit, score);
      2 <= k < |selected| && Identity(i) !in Used(selected)
    ensures var s := score(|Quality(insights)|);
      s(Identity(Selected(insights, limit, score)[k])) <= s(Identity(i))
  {
    var quality := Quality(insights);
    var leq := ScoreLeq(score(|quality|));
    var shuffled := StableSort(leq, quality);
    SameElements(shuffled, quality);
    ScoresOrder(score(|quality|));
    StableSortOrdered(leq, quality);
    var left :| 0 <= left < |shuffled| && shuffled[left] == i;
    var representatives := Representatives(shuffled, limit);
    assert shuffled[..|shuffled|] == shuffled;
    FilledAreFirst(representatives, shuffled, limit, |shuffled|, k, left);
    var j :| 0 <= j < left && shuffled[j] == Selected(insights, limit, score)[k];
    assert leq(shuffled[j], shuffled[left]);
  }
}
