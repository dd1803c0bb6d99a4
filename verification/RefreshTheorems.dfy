/** What the refresh cycle promises: sources are summarised once and for ever, the store is
    handed the sources of the saved summaries, and a second look at the same candidates
    finds exactly those that a stale cached synthesis served. */
module RefreshTheorems {
  import opened Basics
  import opened Text
  import opened SourceMaterial
  import opened RefreshCycle

  // ---------------------------------------------------------------- identities

  function Identities(summaries: seq<Summary>): (r: seq<string>)
    ensures |r| == |summaries|
    ensures forall k :: 0 <= k < |r| ==> r[k] == SummaryIdentity(summaries[k])
  {
    if summaries == [] then []
    else Identities(summaries[..|summaries| - 1]) + [SummaryIdentity(summaries[|summaries| - 1])]
  }

  ghost predicate Distinct(identities: seq<string>) {
    forall i, j :: 0 <= i < j < |identities| ==> identities[i] != identities[j]
  }

  lemma ElementsAppend(a: seq<string>, b: seq<string>)
    ensures Elements(a + b) == Elements(a) + Elements(b)
  {
  }

  lemma DistinctAppend(a: seq<string>, b: seq<string>)
    ensures Distinct(a + b) <==> Distinct(a) && Distinct(b) && Elements(a) !! Elements(b)
  {
    if Distinct(a + b) {
      DistinctParts(a, b);
    } else if Distinct(a) && Distinct(b) {
      var i, j :| 0 <= i < j < |a + b| && (a + b)[i] == (a + b)[j];
      assert i < |a| <= j && a[i] == b[j - |a|];
      assert a[i] in Elements(a) && a[i] in Elements(b);
    }
  }

  lemma DistinctParts(a: seq<string>, b: seq<string>)
    requires Distinct(a + b)
    ensures Distinct(a) && Distinct(b) && Elements(a) !! Elements(b)
  {
    forall i, j | 0 <= i < j < |a| ensures a[i] != a[j] {
      assert (a + b)[i] == a[i] && (a + b)[j] == a[j];
    }
    forall i, j | 0 <= i < j < |b| ensures b[i] != b[j] {
      assert (a + b)[|a| + i] == b[i] && (a + b)[|a| + j] == b[j];
    }
    forall i, j | 0 <= i < |a| && 0 <= j < |b| ensures a[i] != b[j] {
      assert (a + b)[i] == a[i] && (a + b)[|a| + j] == b[j];
    }
  }

  lemma {:induction false} ExcludingMember(summaries: seq<Summary>, exclude: set<string>, x: string)
    ensures x in Identities(SummariesExcluding(summaries, exclude)) <==> x in Identities(summaries) && x !in exclude
  {
    if summaries != [] {
      var init, last := summaries[..|summaries| - 1], summaries[|summaries| - 1];
      ExcludingMember(init, exclude, x);
      IdentitiesAppendOne(SummariesExcluding(init, exclude), last);
      assert x in Identities(summaries) <==> x in Identities(init) || x == SummaryIdentity(last);
    }
  }

  lemma ExcludingElements(summaries: seq<Summary>, exclude: set<string>)
    ensures Elements(Identities(SummariesExcluding(summaries, exclude))) == Elements(Identities(summaries)) - exclude
  {
    forall x ensures x in Identities(SummariesExcluding(summaries, exclude)) <==> x in Identities(summaries) && x !in exclude {
      ExcludingMember(summaries, exclude, x);
    }
  }

  lemma {:induction false} ExcludingDistinct(summaries: seq<Summary>, exclude: set<string>)
    requires Distinct(Identities(summaries))
    ensures Distinct(Identities(SummariesExcluding(summaries, exclude)))
  {
    if summaries != [] {
      var init, last := summaries[..|summaries| - 1], summaries[|summaries| - 1];
      assert summaries == init + [last];
      ElementsOfOneMore(init, last);
      ExcludingDistinct(init, exclude);
      ExcludingElements(init, exclude);
      ElementsOfOneMore(SummariesExcluding(init, exclude), last);
    }
  }

  lemma ElementsOfOneMore(summaries: seq<Summary>, last: Summary)
    ensures Elements(Identities(summaries + [last])) == Elements(Identities(summaries)) + {SummaryIdentity(last)}
    ensures Distinct(Identities(summaries + [last])) <==>
      Distinct(Identities(summaries)) && SummaryIdentity(last) !in Elements(Identities(summaries))
  {
    var one := [SummaryIdentity(last)];
    IdentitiesAppendOne(summaries, last);
    ElementsAppend(Identities(summaries), one);
    DistinctAppend(Identities(summaries), one);
    assert Elements(one) == {SummaryIdentity(last)};
  }

  lemma IdentitiesAppendOne(summaries: seq<Summary>, last: Summary)
    ensures Identities(summaries + [last]) == Identities(summaries) + [SummaryIdentity(last)]
  {
    assert (summaries + [last])[..|summaries|] == summaries;
  }

  lemma {:induction false} SummaryIdentitiesAppend(a: seq<Summary>, b: seq<Summary>)
    ensures Identities(a + b) == Identities(a) + Identities(b)
  {
  }

  // ---------------------------------------------------------------- faithful caches

  /** A cached record is a synthesis of the source its key names; one found by capture hash
      is a synthesis of that capture. */
  ghost predicate Faithful(cache: Cache) {
    forall key :: key in cache ==> RecordMatches(key, cache[key])
  }

  ghost predicate RecordMatches(key: CacheKey, record: Record) {
    && record.summary.source == key.sourceType && record.summary.id == key.externalID
    && record.summary.promptVersion == key.promptVersion && record.summary.model == key.model
    && record.captureHash == record.summary.captureHash
    && (key.captureHash != "" ==> record.summary.captureHash == key.captureHash)
  }

  /** How the local store answers a lookup of cached syntheses: from the latest run. */
  function ReadCachedSyntheses(summaries: seq<Summary>, insights: seq<Insight>, actions: seq<Action>, wanted: set<CacheKey>): Cache {
    if summaries == [] then map[]
    else
      var rest := ReadCachedSyntheses(summaries[..|summaries| - 1], insights, actions, wanted);
      var s := summaries[|summaries| - 1];
      var key := CacheKey(s.source, s.id, s.captureHash, s.promptVersion, s.model);
      var record := Record(s.captureHash, s, NotesFrom(insights, s.source, s.id), NotesFrom(actions, s.source, s.id));
      if key in wanted then rest[key := record]
      else if key.(captureHash := "") in wanted then rest[key.(captureHash := "") := record]
      else rest
  }

  function NotesFrom<T>(notes: seq<Note<T>>, source: SourceType, id: string): seq<Note<T>> {
    if notes == [] then []
    else
      var rest, n := NotesFrom(notes[..|notes| - 1], source, id), notes[|notes| - 1];
      if n.source + ":" + n.sourceID == source + ":" + id then rest + [n] else rest
  }

  lemma {:induction false} LocalStoreIsFaithful(summaries: seq<Summary>, insights: seq<Insight>, actions: seq<Action>, wanted: set<CacheKey>)
    ensures Faithful(ReadCachedSyntheses(summaries, insights, actions, wanted))
  {
    if summaries != [] {
      LocalStoreIsFaithful(summaries[..|summaries| - 1], insights, actions, wanted);
    }
  }

  // ---------------------------------------------------------------- what processing gives

  ghost predicate FaithfulInputs(i: Inputs) {
    Faithful(i.cached) && Faithful(i.sourceCached)
  }

  lemma ProcessedMatches(e: Engine, c: Candidate, captureHash: string, cached: Cache, sourceCached: Cache)
    requires Faithful(cached) && Faithful(sourceCached)
    ensures var p := ProcessSourceCandidate(e, c, captureHash, cached, sourceCached);
      && p.sourceType == c.sourceType && p.externalID == c.externalID
      && p.record.summary.source == c.sourceType && p.record.summary.id == c.externalID
      && p.record.summary.promptVersion == PROMPT_VERSION && p.record.summary.model == e.model
  {
    var key := CacheKey(c.sourceType, c.externalID, captureHash, PROMPT_VERSION, e.model);
    if key in cached {
      assert RecordMatches(key, cached[key]);
    } else if key.(captureHash := "") in sourceCached {
      assert RecordMatches(key.(captureHash := ""), sourceCached[key.(captureHash := "")]);
    }
  }

  function HashIn(hashes: map<string, string>, c: Candidate): string {
    var key := c.sourceType + ":" + c.externalID;
    if key in hashes then hashes[key] else ""
  }

  lemma {:induction false} ProcessedAt(e: Engine, hashes: map<string, string>, candidates: seq<Candidate>, cached: Cache, sourceCached: Cache, k: nat)
    requires k < |candidates|
    ensures ProcessWith(e, hashes, candidates, cached, sourceCached)[k] ==
      ProcessSourceCandidate(e, candidates[k], HashIn(hashes, candidates[k]), cached, sourceCached)
  {
    if k < |candidates| - 1 {
      ProcessedAt(e, hashes, candidates[..|candidates| - 1], cached, sourceCached, k);
    }
  }

  /** Processing keeps identities: the candidates, the sources and their summaries have the same. */
  lemma ProcessedIdentities(e: Engine, candidates: seq<Candidate>, cached: Cache, sourceCached: Cache)
    requires Faithful(cached) && Faithful(sourceCached)
    ensures var processed := ProcessAll(e, candidates, cached, sourceCached);
      SourceIdentities(processed) == CandidateIdentities(candidates) == Identities(SummariesOf(processed))
  {
    var hashes := CaptureHashes(e, candidates);
    var processed := ProcessAll(e, candidates, cached, sourceCached);
    forall k | 0 <= k < |candidates|
      ensures SourceIdentity(processed[k]) == CandidateIdentity(candidates[k]) == SummaryIdentity(processed[k].record.summary)
    {
      ProcessedAt(e, hashes, candidates, cached, sourceCached, k);
      ProcessedMatches(e, candidates[k], HashIn(hashes, candidates[k]), cached, sourceCached);
    }
  }

  function CandidateIdentities(candidates: seq<Candidate>): (r: seq<string>)
    ensures |r| == |candidates|
    ensures forall k :: 0 <= k < |r| ==> r[k] == CandidateIdentity(candidates[k])
  {
    if candidates == [] then []
    else CandidateIdentities(candidates[..|candidates| - 1]) + [CandidateIdentity(candidates[|candidates| - 1])]
  }

  function SummariesOf(processed: seq<ProcessedSource>): (r: seq<Summary>)
    ensures |r| == |processed|
    ensures forall k :: 0 <= k < |r| ==> r[k] == processed[k].record.summary
  {
    if processed == [] then []
    else SummariesOf(processed[..|processed| - 1]) + [processed[|processed| - 1].record.summary]
  }

  lemma {:induction false} AppendedParts(run: Run, processed: seq<ProcessedSource>)
    ensures Appended(run, processed).summaries == run.summaries + SummariesOf(processed)
    ensures Appended(run, processed).bookmarks == run.bookmarks
    ensures |Appended(run, processed).videos| == |run.videos|
    ensures forall k :: 0 <= k < |run.videos| ==> Appended(run, processed).videos[k].id == run.videos[k].id
  {
    if processed != [] {
      AppendedParts(run, processed[..|processed| - 1]);
      var before, last := Appended(run, processed[..|processed| - 1]), processed[|processed| - 1];
      WithMarkersIDs(before.videos, last.externalID, last.record.summary.markers);
    }
  }

  lemma {:induction false} WithMarkersIDs(videos: seq<Video>, videoID: string, markers: seq<string>)
    ensures |WithMarkers(videos, videoID, markers)| == |videos|
    ensures forall k :: 0 <= k < |videos| ==> WithMarkers(videos, videoID, markers)[k].id == videos[k].id
  {
    if videos != [] && videos[0].id != videoID {
      WithMarkersIDs(videos[1..], videoID, markers);
    }
  }

  /** The summaries of the saved run: what is left of the latest run, then what was processed. */
  function BaseSummaries(latest: Option<Run>, processed: seq<ProcessedSource>): seq<Summary> {
    if latest.None? then [] else SummariesExcluding(latest.value.summaries, IdentitiesOf(processed))
  }

  lemma ResultSummaries(e: Engine, latest: Option<Run>, bookmarks: seq<Bookmark>, videos: seq<Video>, processed: seq<ProcessedSource>)
    ensures Result(e, latest, bookmarks, videos, processed).summaries == BaseSummaries(latest, processed) + SummariesOf(processed)
  {
    var fetched := Run(bookmarks, videos, [], [], []);
    if latest.Some? {
      var base := Carried(latest.value, fetched, IdentitiesOf(processed));
      AppendedParts(base, processed);
      assert base.summaries == BaseSummaries(latest, processed);
    } else {
      AppendedParts(fetched, processed);
    }
  }

  // ---------------------------------------------------------------- the sources handed to the store

  ghost predicate NoEmptyIdentity(summaries: seq<Summary>) {
    forall k :: 0 <= k < |summaries| ==> SummaryIdentity(summaries[k]) != ":"
  }

  lemma WithSourceIdentities(rest: seq<ProcessedSource>, keys: set<string>, source: ProcessedSource, key: string, exclude: set<string>)
    requires Distinct(SourceIdentities(rest)) && IdentitiesOf(rest) == keys - exclude - {":"} && SourceIdentity(source) == key
    ensures Distinct(SourceIdentities(WithSource(rest, key, source, exclude)))
    ensures IdentitiesOf(WithSource(rest, key, source, exclude)) == keys + {key} - exclude - {":"}
  {
    SourceIdentitiesAppendOne(rest, source);
    OneMoreSource(rest, source);
  }

  lemma {:induction false} RegroupedIdentities(summaries: seq<Summary>, insights: seq<Insight>, actions: seq<Action>, exclude: set<string>)
    ensures Distinct(SourceIdentities(Regrouped(summaries, insights, actions, exclude)))
    ensures IdentitiesOf(Regrouped(summaries, insights, actions, exclude)) == Elements(Identities(summaries)) - exclude - {":"}
  {
    if summaries != [] {
      var init, last := summaries[..|summaries| - 1], summaries[|summaries| - 1];
      assert summaries == init + [last];
      RegroupedIdentities(init, insights, actions, exclude);
      ElementsOfOneMore(init, last);
      WithSourceIdentities(Regrouped(init, insights, actions, exclude), Elements(Identities(init)), Regroup(last, insights, actions),
        SummaryIdentity(last), exclude);
    }
  }

  lemma OneMoreSource(sources: seq<ProcessedSource>, last: ProcessedSource)
    ensures Distinct(SourceIdentities(sources)) && SourceIdentity(last) !in IdentitiesOf(sources) ==>
      Distinct(SourceIdentities(sources + [last]))
  {
    SourceIdentitiesAppendOne(sources, last);
    DistinctAppend(SourceIdentities(sources), [SourceIdentity(last)]);
  }

  /** Regrouping lists the kept summaries' identities, in order, just when these are distinct
      and none is the empty one. */
  lemma {:induction false} RegroupedSequence(summaries: seq<Summary>, insights: seq<Insight>, actions: seq<Action>, exclude: set<string>)
    ensures var kept := SummariesExcluding(summaries, exclude);
      SourceIdentities(Regrouped(summaries, insights, actions, exclude)) == Identities(kept) <==>
      Distinct(Identities(kept)) && NoEmptyIdentity(kept)
    ensures |Regrouped(summaries, insights, actions, exclude)| <= |SummariesExcluding(summaries, exclude)|
  {
    if summaries != [] {
      var init, last := summaries[..|summaries| - 1], summaries[|summaries| - 1];
      assert summaries == init + [last];
      RegroupedSequence(init, insights, actions, exclude);
      var rest, kept := Regrouped(init, insights, actions, exclude), SummariesExcluding(init, exclude);
      if SummaryIdentity(last) !in exclude {
        RegroupedSequenceStep(init, last, insights, actions, exclude);
      }
    }
  }

  lemma RegroupedSequenceStep(init: seq<Summary>, last: Summary, insights: seq<Insight>, actions: seq<Action>, exclude: set<string>)
    requires SummaryIdentity(last) !in exclude
    requires var kept := SummariesExcluding(init, exclude);
      && |Regrouped(init, insights, actions, exclude)| <= |kept|
      && (SourceIdentities(Regrouped(init, insights, actions, exclude)) == Identities(kept) <==>
          Distinct(Identities(kept)) && NoEmptyIdentity(kept))
    ensures var all := SummariesExcluding(init + [last], exclude);
      SourceIdentities(Regrouped(init + [last], insights, actions, exclude)) == Identities(all) <==>
      Distinct(Identities(all)) && NoEmptyIdentity(all)
  {
    var rest, kept := Regrouped(init, insights, actions, exclude), SummariesExcluding(init, exclude);
    var identity := SummaryIdentity(last);
    assert (init + [last])[..|init|] == init;
    ElementsOfOneMore(kept, last);
    IdentitiesAppendOne(kept, last);
    ExcludingElements(init, exclude);
    RegroupedIdentities(init, insights, actions, exclude);
    SourceIdentitiesAppendOne(rest, Regroup(last, insights, actions));
    EmptyIdentityAppend(kept, last);
    if identity == ":" || identity in IdentitiesOf(rest) {
      assert Regrouped(init + [last], insights, actions, exclude) == rest;
      assert |SourceIdentities(rest)| < |Identities(kept + [last])|;
    } else {
      assert SourceIdentities(rest + [Regroup(last, insights, actions)]) == SourceIdentities(rest) + [identity];
      SameSuffix(SourceIdentities(rest), Identities(kept), [identity]);
    }
  }

  lemma EmptyIdentityAppend(summaries: seq<Summary>, last: Summary)
    ensures NoEmptyIdentity(summaries + [last]) <==> NoEmptyIdentity(summaries) && SummaryIdentity(last) != ":"
  {
    assert (summaries + [last])[|summaries|] == last;
    assert forall k :: 0 <= k < |summaries| ==> (summaries + [last])[k] == summaries[k];
  }

  lemma SameSuffix(a: seq<string>, b: seq<string>, c: seq<string>)
    ensures a + c == b + c <==> a == b
  {
    if a + c == b + c {
      assert |a| == |b|;
      assert a == (a + c)[..|a|] && b == (b + c)[..|b|];
    }
  }

  /** The sources handed to the store match the saved summaries, in order, just when the
      summaries kept from the latest run have distinct, non-empty identities. */
  lemma SaveSourcesMatchSummaries(e: Engine, i: Inputs)
    requires FaithfulInputs(i)
    ensures var processed := Processed(e, i);
      var run := Result(e, i.latest, i.bookmarks, i.videos, processed);
      var kept := BaseSummaries(i.latest, processed);
      SourceIdentities(SaveSources(i.latest, processed)) == Identities(run.summaries) <==>
      Distinct(Identities(kept)) && NoEmptyIdentity(kept)
  {
    var processed := Processed(e, i);
    ProcessedIdentities(e, NewCandidates(e, i), i.cached, i.sourceCached);
    ResultSummaries(e, i.latest, i.bookmarks, i.videos, processed);
    var kept := BaseSummaries(i.latest, processed);
    SummaryIdentitiesAppend(kept, SummariesOf(processed));
    if i.latest.Some? {
      var latest := i.latest.value;
      var carried := Regrouped(latest.summaries, latest.insights, latest.actions, IdentitiesOf(processed));
      RegroupedSequence(latest.summaries, latest.insights, latest.actions, IdentitiesOf(processed));
      SourceIdentitiesAppend(carried, processed);
      SameSuffix(SourceIdentities(carried), Identities(kept), SourceIdentities(processed));
    } else {
      assert [] + SummariesOf(processed) == SummariesOf(processed);
    }
  }

  lemma SourceIdentitiesAppend(a: seq<ProcessedSource>, b: seq<ProcessedSource>)
    ensures SourceIdentities(a + b) == SourceIdentities(a) + SourceIdentities(b)
  {
  }
}
