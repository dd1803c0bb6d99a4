/** Conservation over every run of cycles, and the regrouping of a run by source. */
module RefreshConservation {
  import opened Basics
  import opened Text
  import opened SourceMaterial
  import opened RefreshCycle
  import opened RefreshTheorems

  // ---------------------------------------------------------------- regrouping and flattening

  function Concat<T>(bundles: seq<seq<Note<T>>>): seq<Note<T>> {
    if bundles == [] then [] else Concat(bundles[..|bundles| - 1]) + bundles[|bundles| - 1]
  }

  lemma {:induction false} OwnedAppend<T>(a: seq<Note<T>>, b: seq<Note<T>>, identity: string)
    ensures Owned(a + b, identity) == Owned(a, identity) + Owned(b, identity)
  {
    if b == [] {
      assert a + b == a;
    } else {
      assert (a + b)[..|a| + |b| - 1] == a + b[..|b| - 1];
      OwnedAppend(a, b[..|b| - 1], identity);
    }
  }

  lemma {:induction false} OwnedTwice<T>(notes: seq<Note<T>>, first: string, second: string)
    ensures Owned(Owned(notes, first), second) == if first == second then Owned(notes, first) else []
  {
    if notes != [] {
      var init, last := notes[..|notes| - 1], notes[|notes| - 1];
      OwnedTwice(init, first, second);
      OwnedAppend(Owned(init, first), [last], second);
    }
  }

  /** Bundles of the notes of different sources, put one after the other, hold for each of
      these sources its notes, in their order, and nothing else. */
  lemma {:induction false} ConcatOwned<T>(notes: seq<Note<T>>, identities: seq<string>, bundles: seq<seq<Note<T>>>, identity: string)
    requires |identities| == |bundles| && Distinct(identities)
    requires forall k :: 0 <= k < |bundles| ==> bundles[k] == Owned(notes, identities[k])
    ensures Owned(Concat(bundles), identity) == if identity in identities then Owned(notes, identity) else []
  {
    if bundles != [] {
      var n := |bundles| - 1;
      assert identities == identities[..n] + [identities[n]];
      ConcatOwned(notes, identities[..n], bundles[..n], identity);
      OwnedAppend(Concat(bundles[..n]), bundles[n], identity);
      OwnedTwice(notes, identities[n], identity);
      if identities[n] == identity {
        assert identity !in identities[..n];
      }
    }
  }

  /** The notes of the sources in `identities`. */
  function Within<T>(notes: seq<Note<T>>, identities: set<string>): seq<Note<T>> {
    if notes == [] then []
    else
      var rest, n := Within(notes[..|notes| - 1], identities), notes[|notes| - 1];
      if NoteIdentity(n) in identities then rest + [n] else rest
  }

  lemma {:induction false} WithinOwned<T>(notes: seq<Note<T>>, identities: set<string>, identity: string)
    ensures Owned(Within(notes, identities), identity) == if identity in identities then Owned(notes, identity) else []
  {
    if notes != [] {
      var init, last := notes[..|notes| - 1], notes[|notes| - 1];
      WithinOwned(init, identities, identity);
      OwnedAppend(Within(init, identities), [last], identity);
    }
  }

  lemma {:induction false} OwnedCount<T>(notes: seq<Note<T>>, n: Note<T>)
    ensures multiset(Owned(notes, NoteIdentity(n)))[n] == multiset(notes)[n]
  {
    if notes != [] {
      OwnedCount(notes[..|notes| - 1], n);
      assert notes == notes[..|notes| - 1] + [notes[|notes| - 1]];
    }
  }

  /** Lists with the same notes of every source are permutations of each other. */
  lemma SameOwnedSameNotes<T(!new)>(a: seq<Note<T>>, b: seq<Note<T>>)
    requires forall identity :: Owned(a, identity) == Owned(b, identity)
    ensures multiset(a) == multiset(b)
  {
    forall n: Note<T> ensures multiset(a)[n] == multiset(b)[n] {
      OwnedCount(a, n);
      OwnedCount(b, n);
    }
  }

  function InsightBundles(sources: seq<ProcessedSource>): (r: seq<seq<Insight>>)
    ensures |r| == |sources|
    ensures forall k :: 0 <= k < |r| ==> r[k] == sources[k].record.insights
  {
    if sources == [] then []
    else InsightBundles(sources[..|sources| - 1]) + [sources[|sources| - 1].record.insights]
  }

  function ActionBundles(sources: seq<ProcessedSource>): (r: seq<seq<Action>>)
    ensures |r| == |sources|
    ensures forall k :: 0 <= k < |r| ==> r[k] == sources[k].record.actions
  {
    if sources == [] then []
    else ActionBundles(sources[..|sources| - 1]) + [sources[|sources| - 1].record.actions]
  }

  lemma {:induction false} AppendedNotes(run: Run, sources: seq<ProcessedSource>)
    ensures Appended(run, sources).insights == run.insights + Concat(InsightBundles(sources))
    ensures Appended(run, sources).actions == run.actions + Concat(ActionBundles(sources))
  {
    if sources != [] {
      var n := |sources| - 1;
      AppendedNotes(run, sources[..n]);
      assert InsightBundles(sources)[..n] == InsightBundles(sources[..n]);
      assert ActionBundles(sources)[..n] == ActionBundles(sources[..n]);
    }
  }

  lemma {:induction false} RegroupedSources(summaries: seq<Summary>, insights: seq<Insight>, actions: seq<Action>, exclude: set<string>)
    ensures forall p :: p in Regrouped(summaries, insights, actions, exclude) ==>
      p.record.insights == Owned(insights, SourceIdentity(p)) && p.record.actions == Owned(actions, SourceIdentity(p))
  {
    if summaries != [] {
      RegroupedSources(summaries[..|summaries| - 1], insights, actions, exclude);
    }
  }

  lemma {:induction false} RegroupedSummaries(summaries: seq<Summary>, insights: seq<Insight>, actions: seq<Action>)
    requires Distinct(Identities(summaries)) && NoEmptyIdentity(summaries)
    ensures SummariesOf(Regrouped(summaries, insights, actions, {})) == summaries
  {
    if summaries != [] {
      var init, last := summaries[..|summaries| - 1], summaries[|summaries| - 1];
      assert summaries == init + [last];
      ElementsOfOneMore(init, last);
      EmptyIdentityAppend(init, last);
      RegroupedSummaries(init, insights, actions);
      RegroupedIdentities(init, insights, actions, {});
      var rest := Regrouped(init, insights, actions, {});
      assert (rest + [Regroup(last, insights, actions)])[..|rest|] == rest;
    }
  }

  /** A run regrouped by source and flattened again. */
  function Flat(run: Run): Run {
    Appended(Run([], [], [], [], []), Regrouped(run.summaries, run.insights, run.actions, {}))
  }

  lemma FlatParts(run: Run)
    ensures var sources := Regrouped(run.summaries, run.insights, run.actions, {});
      && Flat(run).summaries == SummariesOf(sources)
      && Flat(run).insights == Concat(InsightBundles(sources))
      && Flat(run).actions == Concat(ActionBundles(sources))
  {
    var sources := Regrouped(run.summaries, run.insights, run.actions, {});
    AppendedParts(Run([], [], [], [], []), sources);
    AppendedNotes(Run([], [], [], [], []), sources);
  }

  /** Regrouping a run by source and flattening it again gives back its summaries in order
      and, of its insights and actions, those of the summarised sources: a permutation that
      keeps the order within each source. */
  lemma RegroupRoundTrip(run: Run, identity: string)
    requires Distinct(Identities(run.summaries)) && NoEmptyIdentity(run.summaries)
    ensures Flat(run).summaries == run.summaries
    ensures multiset(Flat(run).insights) == multiset(Within(run.insights, Summarised(run)))
    ensures multiset(Flat(run).actions) == multiset(Within(run.actions, Summarised(run)))
    ensures identity in Summarised(run) ==> Owned(Flat(run).insights, identity) == Owned(run.insights, identity)
    ensures identity in Summarised(run) ==> Owned(Flat(run).actions, identity) == Owned(run.actions, identity)
  {
    var sources := Regrouped(run.summaries, run.insights, run.actions, {});
    FlatParts(run);
    RegroupedSummaries(run.summaries, run.insights, run.actions);
    SourcesOfSummaries(run);
    FlatNotes(run.insights, sources, InsightBundles(sources), Summarised(run), identity);
    FlatNotes(run.actions, sources, ActionBundles(sources), Summarised(run), identity);
  }

  lemma SourcesOfSummaries(run: Run)
    requires Distinct(Identities(run.summaries)) && NoEmptyIdentity(run.summaries)
    ensures var sources := Regrouped(run.summaries, run.insights, run.actions, {});
      && Distinct(SourceIdentities(sources)) && IdentitiesOf(sources) == Elements(Identities(run.summaries))
      && forall k :: 0 <= k < |sources| ==>
           InsightBundles(sources)[k] == Owned(run.insights, SourceIdentities(sources)[k]) &&
           ActionBundles(sources)[k] == Owned(run.actions, SourceIdentities(sources)[k])
  {
    RegroupedIdentities(run.summaries, run.insights, run.actions, {});
    RegroupedSources(run.summaries, run.insights, run.actions, {});
    var sources := Regrouped(run.summaries, run.insights, run.actions, {});
    forall k | 0 <= k < |sources| ensures sources[k] in sources {
    }
    assert ":" !in Identities(run.summaries);
  }

  lemma FlatNotes<T(!new)>(notes: seq<Note<T>>, sources: seq<ProcessedSource>, bundles: seq<seq<Note<T>>>, summarised: set<string>, identity: string)
    requires |bundles| == |sources|
    requires Distinct(SourceIdentities(sources)) && IdentitiesOf(sources) == summarised
    requires forall k :: 0 <= k < |bundles| ==> bundles[k] == Owned(notes, SourceIdentities(sources)[k])
    ensures multiset(Concat(bundles)) == multiset(Within(notes, summarised))
    ensures identity in summarised ==> Owned(Concat(bundles), identity) == Owned(notes, identity)
  {
    forall x ensures Owned(Concat(bundles), x) == Owned(Within(notes, summarised), x) {
      ConcatOwned(notes, SourceIdentities(sources), bundles, x);
      WithinOwned(notes, summarised, x);
    }
    SameOwnedSameNotes(Concat(bundles), Within(notes, summarised));
    ConcatOwned(notes, SourceIdentities(sources), bundles, identity);
  }

  // ---------------------------------------------------------------- one cycle

  /** The IDs of a fetch are not blank and differ even when trimmed. */
  ghost predicate DistinctFetch(i: Inputs) {
    && NoBlankIDs(i.bookmarks) && NoBlankIDs(i.videos)
    && TrimDistinct(i.bookmarks) && TrimDistinct(i.videos)
  }

  ghost predicate TrimDistinct<T>(items: seq<Item<T>>) {
    forall j, k :: 0 <= j < k < |items| ==> Trim(items[j].id) != Trim(items[k].id)
  }

  /** What is kept of every stored run: each source has at most one summary, each item one entry. */
  ghost predicate Sound(run: Run) {
    && Distinct(Identities(run.summaries)) && NoEmptyIdentity(run.summaries)
    && DistinctIDs(run.bookmarks) && NoBlankIDs(run.bookmarks)
    && DistinctIDs(run.videos) && NoBlankIDs(run.videos)
  }

  function Summarised(run: Run): set<string> {
    Elements(Identities(run.summaries))
  }

  lemma {:induction false} BookmarkIdentities(bookmarks: seq<Bookmark>)
    ensures |BookmarkCandidates(bookmarks)| == |bookmarks|
    ensures forall k :: 0 <= k < |bookmarks| ==>
      BookmarkCandidates(bookmarks)[k].sourceType == SOURCE_X && BookmarkCandidates(bookmarks)[k].externalID == bookmarks[k].id
  {
    if bookmarks != [] {
      BookmarkIdentities(bookmarks[..|bookmarks| - 1]);
    }
  }

  lemma {:induction false} VideoSources(videos: seq<Video>, c: Candidate)
    requires c in VideoCandidates(videos)
    ensures c.sourceType == SOURCE_YOUTUBE && exists k :: 0 <= k < |videos| && c.externalID == videos[k].id
  {
    var init, last := videos[..|videos| - 1], videos[|videos| - 1];
    if c in VideoCandidates(init) {
      VideoSources(init, c);
      var k :| 0 <= k < |init| && c.externalID == init[k].id;
      assert videos[k] == init[k];
    }
  }

  ghost predicate DistinctSources(candidates: seq<Candidate>) {
    forall j, k :: 0 <= j < k < |candidates| ==> CandidateIdentity(candidates[j]) != CandidateIdentity(candidates[k])
  }

  lemma DistinctSourcesIdentities(candidates: seq<Candidate>)
    ensures DistinctSources(candidates) <==> Distinct(CandidateIdentities(candidates))
  {
    if Distinct(CandidateIdentities(candidates)) {
      forall j, k | 0 <= j < k < |candidates| ensures CandidateIdentity(candidates[j]) != CandidateIdentity(candidates[k]) {
        assert CandidateIdentities(candidates)[j] != CandidateIdentities(candidates)[k];
      }
    }
  }

  lemma {:induction false} VideoIdentities(videos: seq<Video>)
    requires TrimDistinct(videos)
    ensures DistinctSources(VideoCandidates(videos))
  {
    if videos != [] {
      var init, last := videos[..|videos| - 1], videos[|videos| - 1];
      VideoIdentities(init);
      OneMoreVideo(init, last);
    }
  }

  lemma OneMoreVideo(init: seq<Video>, last: Video)
    requires TrimDistinct(init + [last]) && DistinctSources(VideoCandidates(init))
    ensures DistinctSources(VideoCandidates(init) + [Candidate(SOURCE_YOUTUBE, last.id, last.detail.transcript)])
  {
    var candidates := VideoCandidates(init);
    forall k | 0 <= k < |candidates| ensures CandidateIdentity(candidates[k]) != Identity(SOURCE_YOUTUBE, last.id) {
      VideoSources(init, candidates[k]);
      var m :| 0 <= m < |init| && candidates[k].externalID == init[m].id;
      assert (init + [last])[m] == init[m] && (init + [last])[|init|] == last;
      IdentityInjective(SOURCE_YOUTUBE, init[m].id, last.id);
    }
  }

  lemma IdentityInjective(sourceType: SourceType, a: string, b: string)
    ensures Identity(sourceType, a) == Identity(sourceType, b) <==> Trim(a) == Trim(b)
  {
    if Identity(sourceType, a) == Identity(sourceType, b) {
      assert Identity(sourceType, a)[|sourceType| + 1..] == Trim(a);
      assert Identity(sourceType, b)[|sourceType| + 1..] == Trim(b);
    }
  }

  lemma DifferentTypes(a: string, b: string)
    ensures Identity(SOURCE_X, a) != Identity(SOURCE_YOUTUBE, b)
  {
    assert Identity(SOURCE_X, a)[0] == 'x' && Identity(SOURCE_YOUTUBE, b)[0] == 'y';
  }

  lemma BookmarkDistinct(bookmarks: seq<Bookmark>)
    requires TrimDistinct(bookmarks)
    ensures DistinctSources(BookmarkCandidates(bookmarks))
  {
    BookmarkIdentities(bookmarks);
    forall j, k | 0 <= j < k < |bookmarks|
      ensures CandidateIdentity(BookmarkCandidates(bookmarks)[j]) != CandidateIdentity(BookmarkCandidates(bookmarks)[k])
    {
      IdentityInjective(SOURCE_X, bookmarks[j].id, bookmarks[k].id);
    }
  }

  lemma DistinctConcat(x: seq<Candidate>, y: seq<Candidate>)
    requires DistinctSources(x) && DistinctSources(y)
    requires forall c :: c in x ==> c.sourceType == SOURCE_X
    requires forall c :: c in y ==> c.sourceType == SOURCE_YOUTUBE
    ensures DistinctSources(x + y)
  {
    forall j, k | 0 <= j < |x| && 0 <= k < |y| ensures CandidateIdentity(x[j]) != CandidateIdentity(y[k]) {
      DifferentTypes(x[j].externalID, y[k].externalID);
    }
  }

  lemma DistinctCandidates(i: Inputs)
    requires DistinctFetch(i)
    ensures DistinctSources(Candidates(i.bookmarks, i.videos, i.processLimit))
  {
    BookmarkIdentities(i.bookmarks);
    BookmarkDistinct(i.bookmarks);
    VideoIdentities(i.videos);
    forall c | c in VideoCandidates(i.videos) ensures c.sourceType == SOURCE_YOUTUBE {
      VideoSources(i.videos, c);
    }
    var x := BookmarkCandidates(i.bookmarks);
    if i.processLimit > 0 && |x| > i.processLimit {
      DistinctConcat(x[..i.processLimit], VideoCandidates(i.videos));
    } else {
      DistinctConcat(x, VideoCandidates(i.videos));
    }
  }

  lemma {:induction false} FilteredMembers(e: Engine, states: States, candidates: seq<Candidate>, known: bool)
    ensures forall c :: c in Filtered(e, states, candidates, known) <==> c in candidates && Known(e, states, c) == known
  {
    if candidates != [] {
      var init, last := candidates[..|candidates| - 1], candidates[|candidates| - 1];
      assert candidates == init + [last];
      FilteredMembers(e, states, init, known);
    }
  }

  lemma {:induction false} FilteredDistinct(e: Engine, states: States, candidates: seq<Candidate>, known: bool)
    requires DistinctSources(candidates)
    ensures DistinctSources(Filtered(e, states, candidates, known))
  {
    if candidates != [] {
      var init, last := candidates[..|candidates| - 1], candidates[|candidates| - 1];
      var rest := Filtered(e, states, init, known);
      FilteredDistinct(e, states, init, known);
      FilteredMembers(e, states, init, known);
      forall k | 0 <= k < |rest| ensures CandidateIdentity(rest[k]) != CandidateIdentity(last) {
        assert rest[k] in init;
      }
    }
  }

  lemma CandidateSource(i: Inputs, c: Candidate)
    requires c in Candidates(i.bookmarks, i.videos, i.processLimit)
    ensures c.sourceType == SOURCE_X || c.sourceType == SOURCE_YOUTUBE
  {
    BookmarkIdentities(i.bookmarks);
    if c in VideoCandidates(i.videos) {
      VideoSources(i.videos, c);
    }
  }

  lemma NewCandidatesDistinct(e: Engine, i: Inputs)
    requires DistinctFetch(i)
    ensures DistinctSources(NewCandidates(e, i))
    ensures ":" !in CandidateIdentities(NewCandidates(e, i))
  {
    DistinctCandidates(i);
    FilteredDistinct(e, i.states, Candidates(i.bookmarks, i.videos, i.processLimit), false);
    FilteredMembers(e, i.states, Candidates(i.bookmarks, i.videos, i.processLimit), false);
    forall c | c in NewCandidates(e, i) ensures CandidateIdentity(c) != ":" {
      CandidateSource(i, c);
    }
  }

  /** A saved run has each source once; it keeps every summarised source of the latest run and
      adds the new candidates. */
  lemma CycleConserves(e: Engine, i: Inputs)
    requires FaithfulInputs(i) && DistinctFetch(i)
    requires i.latest.Some? ==> Sound(i.latest.value)
    requires Cycle(e, i).Saved?
    ensures Sound(Cycle(e, i).run)
    ensures Summarised(Cycle(e, i).run) ==
      (if i.latest.Some? then Summarised(i.latest.value) else {}) + Elements(CandidateIdentities(NewCandidates(e, i)))
  {
    CycleSummaries(e, i);
    CycleMerges(e, i);
  }

  lemma CycleSummaries(e: Engine, i: Inputs)
    requires FaithfulInputs(i) && DistinctFetch(i)
    requires i.latest.Some? ==> Sound(i.latest.value)
    ensures var run := Result(e, i.latest, i.bookmarks, i.videos, Processed(e, i));
      && Distinct(Identities(run.summaries)) && NoEmptyIdentity(run.summaries)
      && Summarised(run) ==
        (if i.latest.Some? then Summarised(i.latest.value) else {}) + Elements(CandidateIdentities(NewCandidates(e, i)))
  {
    var candidates, processed := NewCandidates(e, i), Processed(e, i);
    var latest := if i.latest.Some? then i.latest.value.summaries else [];
    NewCandidatesDistinct(e, i);
    DistinctSourcesIdentities(candidates);
    ProcessedIdentities(e, candidates, i.cached, i.sourceCached);
    Replaced(latest, SummariesOf(processed), IdentitiesOf(processed));
    ResultSummaries(e, i.latest, i.bookmarks, i.videos, processed);
    assert BaseSummaries(i.latest, processed) == SummariesExcluding(latest, IdentitiesOf(processed));
  }

  /** Replacing the summaries of some sources keeps identities distinct and loses none. */
  lemma Replaced(summaries: seq<Summary>, replacements: seq<Summary>, identities: set<string>)
    requires Distinct(Identities(summaries)) && NoEmptyIdentity(summaries)
    requires Distinct(Identities(replacements)) && ":" !in Identities(replacements)
    requires Elements(Identities(replacements)) == identities
    ensures var all := SummariesExcluding(summaries, identities) + replacements;
      && Distinct(Identities(all)) && NoEmptyIdentity(all)
      && Elements(Identities(all)) == Elements(Identities(summaries)) + identities
  {
    var kept := SummariesExcluding(summaries, identities);
    ExcludingElements(summaries, identities);
    ExcludingDistinct(summaries, identities);
    SummaryIdentitiesAppend(kept, replacements);
    ElementsAppend(Identities(kept), Identities(replacements));
    DistinctAppend(Identities(kept), Identities(replacements));
    NotEmptyByIdentities(summaries);
    NotEmptyByIdentities(kept + replacements);
  }

  lemma NotEmptyByIdentities(summaries: seq<Summary>)
    ensures NoEmptyIdentity(summaries) <==> ":" !in Elements(Identities(summaries))
  {
    forall k | 0 <= k < |summaries| ensures Identities(summaries)[k] in Identities(summaries) {
    }
  }

  /** The items of a saved run: the fetched and the previous ones, each once. */
  lemma CycleMerges(e: Engine, i: Inputs)
    requires DistinctFetch(i)
    requires i.latest.Some? ==> Sound(i.latest.value)
    requires Cycle(e, i).Saved?
    ensures var run := Cycle(e, i).run;
      && DistinctIDs(run.bookmarks) && NoBlankIDs(run.bookmarks) && DistinctIDs(run.videos) && NoBlankIDs(run.videos)
      && IDs(run.bookmarks) == (if i.latest.Some? then IDs(i.latest.value.bookmarks) else {}) + IDs(i.bookmarks)
      && IDs(run.videos) == (if i.latest.Some? then IDs(i.latest.value.videos) else {}) + IDs(i.videos)
  {
    var fetched := Run(i.bookmarks, i.videos, [], [], []);
    var processed := Processed(e, i);
    var base := if i.latest.Some? then Carried(i.latest.value, fetched, IdentitiesOf(processed)) else fetched;
    AppendedParts(base, processed);
    if i.latest.Some? {
      MergeExact(i.latest.value.bookmarks, i.bookmarks);
      RestoredIDs(i.latest.value.videos, i.videos);
      MergeExact(i.latest.value.videos, AllRestored(VideosByID(i.latest.value.videos), i.videos));
    }
    SameIDs(base.videos, Appended(base, processed).videos);
  }

  lemma SameIDs<T>(a: seq<Item<T>>, b: seq<Item<T>>)
    requires |a| == |b| && forall k :: 0 <= k < |a| ==> a[k].id == b[k].id
    ensures IDs(a) == IDs(b)
    ensures DistinctIDs(a) ==> DistinctIDs(b)
    ensures NoBlankIDs(a) ==> NoBlankIDs(b)
  {
  }

  /** The same video, except perhaps for its time markers. */
  ghost predicate SameUpToMarkers(a: Video, b: Video) {
    a.id == b.id && a.detail.transcriptStatus == b.detail.transcriptStatus && a.detail.transcript == b.detail.transcript
  }

  lemma {:induction false} WithMarkersKeep(videos: seq<Video>, videoID: string, markers: seq<string>)
    ensures |WithMarkers(videos, videoID, markers)| == |videos|
    ensures forall k :: 0 <= k < |videos| ==> SameUpToMarkers(videos[k], WithMarkers(videos, videoID, markers)[k])
  {
    if videos != [] && videos[0].id != videoID {
      WithMarkersKeep(videos[1..], videoID, markers);
    }
  }

  lemma {:induction false} AppendedKeeps(run: Run, processed: seq<ProcessedSource>)
    ensures |Appended(run, processed).videos| == |run.videos|
    ensures forall k :: 0 <= k < |run.videos| ==> SameUpToMarkers(run.videos[k], Appended(run, processed).videos[k])
  {
    if processed != [] {
      var before, last := Appended(run, processed[..|processed| - 1]), processed[|processed| - 1];
      AppendedKeeps(run, processed[..|processed| - 1]);
      WithMarkersKeep(before.videos, last.externalID, last.record.summary.markers);
    }
  }

  lemma CarriedVideo(previous: seq<Video>, fetched: seq<Video>, held: Video)
    requires DistinctIDs(fetched) && NoBlankIDs(fetched) && DistinctIDs(previous) && NoBlankIDs(previous)
    requires held in previous && (held.id in IDs(fetched) ==> FetchedAs(fetched, held.id, "cached"))
    ensures held in MergedVideos(previous, fetched)
  {
    VideoMergeExact(previous, fetched, held);
    var k :| 0 <= k < |previous| && previous[k] == held;
    assert previous[k].id in IDs(previous);
  }

  /** A video that was fetched with its transcript still cached, or not at all, has the transcript
      in the saved run that it had in the run before. */
  lemma CachedVideosKeepTranscript(e: Engine, i: Inputs, held: Video)
    requires DistinctFetch(i) && i.latest.Some? && Sound(i.latest.value) && Cycle(e, i).Saved?
    requires held in i.latest.value.videos && (held.id in IDs(i.videos) ==> FetchedAs(i.videos, held.id, "cached"))
    ensures exists v :: v in Cycle(e, i).run.videos && SameUpToMarkers(held, v)
  {
    var latest, processed := i.latest.value, Processed(e, i);
    var base := Carried(latest, Run(i.bookmarks, i.videos, [], [], []), IdentitiesOf(processed));
    CarriedVideo(latest.videos, i.videos, held);
    var k :| 0 <= k < |base.videos| && base.videos[k] == held;
    AppendedKeeps(base, processed);
    assert Appended(base, processed).videos[k] in Cycle(e, i).run.videos;
  }

  /** When the latest run could not be read, a previous run's sources survive only as far as
      they were processed again in this very cycle. */
  lemma FailedLookupForgets(e: Engine, i: Inputs, previous: Run)
    requires FaithfulInputs(i) && i.latest.None? && Cycle(e, i).Saved?
    ensures Summarised(previous) <= Summarised(Cycle(e, i).run) <==>
      Summarised(previous) <= Elements(CandidateIdentities(NewCandidates(e, i)))
  {
    ProcessedIdentities(e, NewCandidates(e, i), i.cached, i.sourceCached);
    ResultSummaries(e, i.latest, i.bookmarks, i.videos, Processed(e, i));
    assert [] + SummariesOf(Processed(e, i)) == SummariesOf(Processed(e, i));
  }

  lemma UnfetchedIsLost(e: Engine, i: Inputs, previous: Run, s: Summary)
    requires FaithfulInputs(i) && i.latest.None? && Cycle(e, i).Saved? && s in previous.summaries
    requires forall c :: c in Candidates(i.bookmarks, i.videos, i.processLimit) ==> CandidateIdentity(c) != SummaryIdentity(s)
    ensures SummaryIdentity(s) in Summarised(previous) && SummaryIdentity(s) !in Summarised(Cycle(e, i).run)
  {
    var k :| 0 <= k < |previous.summaries| && previous.summaries[k] == s;
    assert Identities(previous.summaries)[k] == SummaryIdentity(s);
    FilteredMembers(e, i.states, Candidates(i.bookmarks, i.videos, i.processLimit), false);
    var added := NewCandidates(e, i);
    assert forall j :: 0 <= j < |added| ==> added[j] in added;
    FailedLookupForgets(e, i, Run([], [], [s], [], []));
    assert Identities([s]) == [SummaryIdentity(s)];
    assert SummaryIdentity(s) in Elements(Identities([s]));
  }

  /** A run with one source, and a cycle that fetches another one and cannot read that run: the
      saved run has lost the source. */
  lemma FailedLookupLoses(e: Engine, i: Inputs, previous: Run, s: Summary)
    requires s == Summary(SOURCE_X, "1", "h1", PROMPT_VERSION, e.model, "body", [], "generated")
    requires previous == Run([], [], [s], [], [])
    requires i == Inputs([Item("2", Post("text"))], [], 0, 0, false, map[], None, true, map[], map[], false)
    ensures FaithfulInputs(i) && Cycle(e, i).Saved?
    ensures SummaryIdentity(s) in Summarised(previous) && SummaryIdentity(s) !in Summarised(Cycle(e, i).run)
  {
    assert Trim("1") == "1" && Trim("2") == "2";
    OneCandidate(i.bookmarks, "2", "text");
    assert SummaryIdentity(s)[2] != Identity(SOURCE_X, "2")[2];
    UnfetchedIsLost(e, i, previous, s);
  }

  lemma OneCandidate(bookmarks: seq<Bookmark>, id: string, body: string)
    requires bookmarks == [Item(id, Post(body))]
    ensures BookmarkCandidates(bookmarks) == [Candidate(SOURCE_X, id, body)]
  {
    assert bookmarks[..0] == [];
    assert BookmarkCandidates([]) == [];
  }

  // ---------------------------------------------------------------- every run of cycles

  /** The run in the store after a history of cycles, each of which could read it. */
  function Stored(e: Engine, history: seq<Inputs>): Option<Run> {
    if history == [] then None
    else
      var before := Stored(e, history[..|history| - 1]);
      match Cycle(e, history[|history| - 1].(latest := before))
      case Saved(run, _) => Some(run)
      case Unchanged(_) => before
      case Failed => before
      case Unsaved => before
  }

  ghost predicate GoodHistory(history: seq<Inputs>) {
    forall k :: 0 <= k < |history| ==> FaithfulInputs(history[k]) && DistinctFetch(history[k])
  }

  /** `b` has every summarised source and every item of `a`. */
  ghost predicate Keeps(a: Option<Run>, b: Option<Run>) {
    a.Some? ==>
      && b.Some? && Summarised(a.value) <= Summarised(b.value)
      && IDs(a.value.bookmarks) <= IDs(b.value.bookmarks) && IDs(a.value.videos) <= IDs(b.value.videos)
  }

  lemma {:induction false} HistorySound(e: Engine, history: seq<Inputs>)
    requires GoodHistory(history)
    ensures Stored(e, history).Some? ==> Sound(Stored(e, history).value)
  {
    if history != [] {
      HistorySound(e, history[..|history| - 1]);
      HistoryStep(e, history);
    }
  }

  lemma {:induction false} HistoryKeeps(e: Engine, history: seq<Inputs>, k: nat, early: Option<Run>)
    requires GoodHistory(history) && k <= |history| && early == Stored(e, history[..k])
    ensures Keeps(early, Stored(e, history))
  {
    if k == |history| {
      assert history[..k] == history;
    } else {
      var init := history[..|history| - 1];
      assert init[..k] == history[..k];
      HistoryKeeps(e, init, k, early);
      HistorySound(e, init);
      HistoryStep(e, history);
      KeepsOn(early, Stored(e, init), Stored(e, history));
    }
  }

  /** Over every history of cycles: each source identity has at most one summary, and no
      summarised source and no item is ever lost. */
  lemma HistoryConserves(e: Engine, history: seq<Inputs>, k: nat)
    requires GoodHistory(history) && k <= |history|
    ensures Stored(e, history).Some? ==> Sound(Stored(e, history).value)
    ensures Keeps(Stored(e, history[..k]), Stored(e, history))
  {
    HistorySound(e, history);
    HistoryKeeps(e, history, k, Stored(e, history[..k]));
  }

  lemma KeepsOn(a: Option<Run>, b: Option<Run>, c: Option<Run>)
    requires Keeps(a, b) && Keeps(b, c)
    ensures Keeps(a, c)
  {
  }

  lemma HistoryStep(e: Engine, history: seq<Inputs>)
    requires |history| > 0 && GoodHistory(history)
    requires var before := Stored(e, history[..|history| - 1]); before.Some? ==> Sound(before.value)
    ensures Stored(e, history).Some? ==> Sound(Stored(e, history).value)
    ensures Keeps(Stored(e, history[..|history| - 1]), Stored(e, history))
  {
    var n := |history| - 1;
    var i := history[n].(latest := Stored(e, history[..n]));
    assert FaithfulInputs(history[n]) && DistinctFetch(history[n]);
    if Cycle(e, i).Saved? {
      CycleConserves(e, i);
      CycleMerges(e, i);
    }
  }
}
