/** Which insights go into a digest: of those of sufficient quality one from YouTube and one
    from X, if there are any, and then the first in a shuffled order. */
module DigestSelection {
  import opened Basics
  import opened Sorting

  datatype Insight = Insight(id: string, source: string, title: string, sourceURL: string, text: string, quality: Option<real>)

  function Identity(i: Insight): string {
    i.id + "|" + i.source + "|" + i.title + "|" + i.sourceURL + "|" + i.text
  }

  // ---------------------------------------------------------------- quality

  predicate Poor(i: Insight) {
    i.quality.Some? && 0.0 < i.quality.value < 0.7
  }

  function Good(insights: seq<Insight>): seq<Insight> {
    if insights == [] then []
    else
      var rest, last := Good(insights[..|insights| - 1]), insights[|insights| - 1];
      if Poor(last) then rest else rest + [last]
  }

  /** The insights that are not poor, or all if there are none. */
  function Quality(insights: seq<Insight>): seq<Insight> {
    if Good(insights) == [] then insights else Good(insights)
  }

  method DigestQualityInsights(insights: seq<Insight>) returns (kept: seq<Insight>)
    ensures kept == Quality(insights)
  {
    kept := [];
    for k := 0 to |insights|
      invariant kept == Good(insights[..k])
    {
      assert insights[..k + 1][..k] == insights[..k];
      if Poor(insights[k]) {
        continue;
      }
      kept := kept + [insights[k]];
    }
    assert insights[..|insights|] == insights;
    if |kept| == 0 {
      return insights;
    }
  }

  // ---------------------------------------------------------------- picking

  /** The order of the shuffle; `score` is the hash of a seed, which names a time and the number
      of insights, with an identity. */
  function ScoreLeq(score: string -> nat): (Insight, Insight) -> bool {
    (a: Insight, b: Insight) => score(Identity(a)) <= score(Identity(b))
  }

  function Used(picked: seq<Insight>): set<string> {
    if picked == [] then {} else Used(picked[..|picked| - 1]) + {Identity(picked[|picked| - 1])}
  }

  /** The first insight of a source whose identity is not used. */
  function FirstOf(shuffled: seq<Insight>, source: string, used: set<string>): Option<Insight> {
    if shuffled == [] then None
    else if shuffled[0].source == source && Identity(shuffled[0]) !in used then Some(shuffled[0])
    else FirstOf(shuffled[1..], source, used)
  }

  function Represented(picked: seq<Insight>, shuffled: seq<Insight>, source: string, limit: int): seq<Insight> {
    if |picked| >= limit then picked
    else
      match FirstOf(shuffled, source, Used(picked))
      case None => picked
      case Some(i) => picked + [i]
  }

  function WithUnused(picked: seq<Insight>, i: Insight, limit: int): seq<Insight> {
    if |picked| >= limit || Identity(i) in Used(picked) then picked else picked + [i]
  }

  /** The picked insights, filled up to the limit from the shuffled ones. */
  function Filled(picked: seq<Insight>, shuffled: seq<Insight>, limit: int): seq<Insight> {
    if shuffled == [] then picked
    else WithUnused(Filled(picked, shuffled[..|shuffled| - 1], limit), shuffled[|shuffled| - 1], limit)
  }

  function Representatives(shuffled: seq<Insight>, limit: int): seq<Insight> {
    Represented(Represented([], shuffled, "youtube", limit), shuffled, "x", limit)
  }

  function Picked(shuffled: seq<Insight>, limit: int): seq<Insight> {
    Filled(Representatives(shuffled, limit), shuffled, limit)
  }

  /** The selection; `score` is given the number of insights in the seed and an identity. */
  function Selected(insights: seq<Insight>, limit: int, score: nat -> string -> nat): seq<Insight> {
    var quality := Quality(insights);
    if limit <= 0 || |quality| <= limit then quality
    else Picked(StableSort(ScoreLeq(score(|quality|)), quality), limit)
  }

  method PickRepresentative(picked: seq<Insight>, used: set<string>, shuffled: seq<Insight>, source: string, limit: int)
    returns (extended: seq<Insight>, taken: set<string>)
    requires used == Used(picked) && |picked| < limit
    ensures extended == Represented(picked, shuffled, source, limit) && taken == Used(extended)
  {
    extended, taken := picked, used;
    for k := 0 to |shuffled|
      invariant extended == picked && taken == used
      invariant FirstOf(shuffled, source, used) == FirstOf(shuffled[k..], source, used)
    {
      assert shuffled[k..][1..] == shuffled[k + 1..];
      if shuffled[k].source == source && Identity(shuffled[k]) !in used {
        extended, taken := picked + [shuffled[k]], used + {Identity(shuffled[k])};
        assert extended[..|picked|] == picked;
        break;
      }
    }
  }

  lemma {:induction false} FilledFull(picked: seq<Insight>, shuffled: seq<Insight>, limit: int, k: nat)
    requires k <= |shuffled| && |Filled(picked, shuffled[..k], limit)| >= limit
    ensures Filled(picked, shuffled, limit) == Filled(picked, shuffled[..k], limit)
  {
    if k < |shuffled| {
      assert shuffled[..|shuffled| - 1][..k] == shuffled[..k];
      FilledFull(picked, shuffled[..|shuffled| - 1], limit, k);
    } else {
      assert shuffled[..k] == shuffled;
    }
  }

  method Fill(picked: seq<Insight>, used: set<string>, shuffled: seq<Insight>, limit: int) returns (filled: seq<Insight>)
    requires used == Used(picked)
    ensures filled == Filled(picked, shuffled, limit)
  {
    filled := picked;
    var taken := used;
    for k := 0 to |shuffled|
      invariant filled == Filled(picked, shuffled[..k], limit) && taken == Used(filled)
    {
      if |filled| >= limit {
        FilledFull(picked, shuffled, limit, k);
        return;
      }
      assert shuffled[..k + 1][..k] == shuffled[..k];
      var identity := Identity(shuffled[k]);
      if identity in taken {
        continue;
      }
      ghost var before := filled;
      filled, taken := filled + [shuffled[k]], taken + {identity};
      assert filled[..|before|] == before;
    }
    assert shuffled[..|shuffled|] == shuffled;
  }

  method SelectDigestInsights(insights: seq<Insight>, limit: int, score: nat -> string -> nat) returns (selected: seq<Insight>)
    ensures selected == Selected(insights, limit, score)
  {
    var quality := DigestQualityInsights(insights);
    if limit <= 0 || |quality| <= limit {
      return quality;
    }
    var shuffled := StableSort(ScoreLeq(score(|quality|)), quality);
    var picked: seq<Insight> := [];
    var used: set<string> := {};
    if |picked| < limit {
      picked, used := PickRepresentative(picked, used, shuffled, "youtube", limit);
    }
    if |picked| < limit {
      picked, used := PickRepresentative(picked, used, shuffled, "x", limit);
    }
    selected := Fill(picked, used, shuffled, limit);
  }
}
