/** The insights, action items and time markers of a saved run: whose they are, where they come from,
    and that none is lost before its source is processed again. */
module RefreshNotes {
  import opened Basics
  import opened Text
  import opened SourceMaterial
  import opened RefreshCycle
  import opened RefreshTheorems
  import opened RefreshConservation
  import opened RefreshQuiescence

  /** Ranking puts insights in another order and does nothing else. */
  ghost predicate Ranks(e: Engine) {
    forall s :: multiset(e.rank(s)) == multiset(s)
  }

  // ---------------------------------------------------------------- notes by source

  lemma OwnedMore<T>(notes: seq<Note<T>>, n: Note<T>, identity: string)
    ensures Owned(notes + [n], identity) == if NoteIdentity(n) == identity then Owned(notes, identity) + [n] else Owned(notes, identity)
  {
    assert (notes + [n])[..|notes|] == notes;
  }

  lemma ExcludingMore<T>(notes: seq<Note<T>>, n: Note<T>, exclude: set<string>)
    ensures NotesExcluding(notes + [n], exclude) ==
      if NoteIdentity(n) in exclude then NotesExcluding(notes, exclude) else NotesExcluding(notes, exclude) + [n]
  {
    assert (notes + [n])[..|notes|] == notes;
  }

  lemma {:induction false} OwnedExcluding<T>(notes: seq<Note<T>>, exclude: set<string>, identity: string)
    ensures Owned(NotesExcluding(notes, exclude), identity) == if identity in exclude then [] else Owned(notes, identity)
  {
    if notes != [] {
      var init, last := notes[..|notes| - 1], notes[|notes| - 1];
      assert notes == init + [last];
      OwnedExcluding(init, exclude, identity);
      ExcludingMore(init, last, exclude);
      OwnedMore(init, last, identity);
      OwnedMore(NotesExcluding(init, exclude), last, identity);
    }
  }

  lemma {:induction false} OwnedMultiset<T>(notes: seq<Note<T>>, identity: string, n: Note<T>)
    ensures multiset(Owned(notes, identity))[n] == if NoteIdentity(n) == identity then multiset(notes)[n] else 0
  {
    if notes != [] {
      OwnedMultiset(notes[..|notes| - 1], identity, n);
      assert notes == notes[..|notes| - 1] + [notes[|notes| - 1]];
    }
  }

  lemma SameNotesSameOwned<T(!new)>(a: seq<Note<T>>, b: seq<Note<T>>, identity: string)
    requires multiset(a) == multiset(b)
    ensures multiset(Owned(a, identity)) == multiset(Owned(b, identity))
  {
    forall n: Note<T> ensures multiset(Owned(a, identity))[n] == multiset(Owned(b, identity))[n] {
      OwnedMultiset(a, identity, n);
      OwnedMultiset(b, identity, n);
    }
  }

  ghost predicate AllOf<T>(notes: seq<Note<T>>, identity: string) {
    forall k :: 0 <= k < |notes| ==> NoteIdentity(notes[k]) == identity
  }

  lemma {:induction false} OwnedAll<T>(notes: seq<Note<T>>, owner: string, identity: string)
    requires AllOf(notes, owner)
    ensures Owned(notes, identity) == if identity == owner then notes else []
  {
    if notes != [] {
      OwnedAll(notes[..|notes| - 1], owner, identity);
    }
  }

  lemma OwnedBundlesStep<T>(bundles: seq<seq<Note<T>>>, n: nat, owner: string, identity: string)
    requires |bundles| == n + 1 && AllOf(bundles[n], owner)
    ensures Owned(Concat(bundles), identity) == Owned(Concat(bundles[..n]), identity) + if identity == owner then bundles[n] else []
  {
    OwnedAppend(Concat(bundles[..n]), bundles[n], identity);
    OwnedAll(bundles[n], owner, identity);
  }

  /** Of bundles each of which belongs to one source, and no two to the same. */
  lemma {:induction false} OwnedBundles<T>(bundles: seq<seq<Note<T>>>, owners: seq<string>, identity: string)
    requires |bundles| == |owners| && forall k :: 0 <= k < |bundles| ==> AllOf(bundles[k], owners[k])
    ensures identity !in owners ==> Owned(Concat(bundles), identity) == []
    ensures Distinct(owners) ==> forall k :: 0 <= k < |owners| && owners[k] == identity ==> Owned(Concat(bundles), identity) == bundles[k]
  {
    if bundles != [] {
      var n := |bundles| - 1;
      OwnedBundles(bundles[..n], owners[..n], identity);
      OwnedBundlesStep(bundles, n, owners[n], identity);
      assert identity in owners[..n] ==> identity in owners;
      forall k | 0 <= k < |owners| && owners[k] == identity && Distinct(owners)
        ensures Owned(Concat(bundles), identity) == bundles[k]
      {
        assert k < n ==> owners[..n][k] == identity && bundles[..n][k] == bundles[k];
        assert k == n ==> identity !in owners[..n];
      }
    }
  }

  /** What a saved run has of a source: what the latest run had, unless the source was processed,
      and then what the processed records have. */
  lemma ResultActions(e: Engine, i: Inputs, identity: string, processed: seq<ProcessedSource>, kept: seq<Action>)
    requires processed == Processed(e, i) && kept == if i.latest.Some? then i.latest.value.actions else []
    ensures Owned(Result(e, i.latest, i.bookmarks, i.videos, processed).actions, identity) ==
      (if identity in IdentitiesOf(processed) then [] else Owned(kept, identity)) + Owned(Concat(ActionBundles(processed)), identity)
  {
    var fetched := Run(i.bookmarks, i.videos, [], [], []);
    var base := if i.latest.Some? then Carried(i.latest.value, fetched, IdentitiesOf(processed)) else fetched;
    AppendedNotes(base, processed);
    OwnedAppend(base.actions, Concat(ActionBundles(processed)), identity);
    OwnedExcluding(kept, IdentitiesOf(processed), identity);
    assert base.actions == NotesExcluding(kept, IdentitiesOf(processed));
  }

  lemma ResultInsights(e: Engine, i: Inputs, identity: string, processed: seq<ProcessedSource>, kept: seq<Insight>)
    requires Ranks(e) && processed == Processed(e, i) && kept == if i.latest.Some? then i.latest.value.insights else []
    ensures multiset(Owned(Result(e, i.latest, i.bookmarks, i.videos, processed).insights, identity)) ==
      multiset((if identity in IdentitiesOf(processed) then [] else Owned(kept, identity)) + Owned(Concat(InsightBundles(processed)), identity))
  {
    var fetched := Run(i.bookmarks, i.videos, [], [], []);
    var base := if i.latest.Some? then Carried(i.latest.value, fetched, IdentitiesOf(processed)) else fetched;
    AppendedNotes(base, processed);
    OwnedAppend(base.insights, Concat(InsightBundles(processed)), identity);
    OwnedExcluding(kept, IdentitiesOf(processed), identity);
    assert base.insights == NotesExcluding(kept, IdentitiesOf(processed));
    SameNotesSameOwned(e.rank(Appended(base, processed).insights), Appended(base, processed).insights, identity);
  }

  // ---------------------------------------------------------------- the records of processed sources

  /** The notes of a cached record belong to the source its key names. */
  ghost predicate OwnNotes(cache: Cache) {
    forall key :: key in cache ==> NotesOfSource(cache[key], Identity(key.sourceType, key.externalID))
  }

  ghost predicate NotesOfSource(record: Record, identity: string) {
    AllOf(record.insights, identity) && AllOf(record.actions, identity)
  }

  ghost predicate OwnInputs(i: Inputs) {
    FaithfulInputs(i) && DistinctFetch(i) && OwnNotes(i.cached) && OwnNotes(i.sourceCached)
  }

  /** The local store finds notes by the joined source and ID: they are the source's own if no source
      type has a colon. */
  lemma {:induction false} LocalStoreOwns(summaries: seq<Summary>, insights: seq<Insight>, actions: seq<Action>, wanted: set<CacheKey>)
    requires forall k :: 0 <= k < |summaries| ==> ':' !in summaries[k].source
    requires forall k :: 0 <= k < |insights| ==> ':' !in insights[k].source
    requires forall k :: 0 <= k < |actions| ==> ':' !in actions[k].source
    ensures OwnNotes(ReadCachedSyntheses(summaries, insights, actions, wanted))
  {
    if summaries != [] {
      var last := summaries[|summaries| - 1];
      LocalStoreOwns(summaries[..|summaries| - 1], insights, actions, wanted);
      NotesFromOwn(insights, last.source, last.id);
      NotesFromOwn(actions, last.source, last.id);
    }
  }

  lemma {:induction false} NotesFromOwn<T>(notes: seq<Note<T>>, source: SourceType, id: string)
    requires ':' !in source && forall k :: 0 <= k < |notes| ==> ':' !in notes[k].source
    ensures AllOf(NotesFrom(notes, source, id), Identity(source, id))
  {
    if notes != [] {
      var n := notes[|notes| - 1];
      NotesFromOwn(notes[..|notes| - 1], source, id);
      UpToOfJoin(n.source, ':', n.sourceID);
      UpToOfJoin(source, ':', id);
    }
  }

  /** The same insights in the same order, taken from the cache. */
  ghost predicate CachedThoughts(a: seq<Insight>, b: seq<Insight>) {
    |a| == |b| && forall k :: 0 <= k < |a| ==> a[k] == Note(b[k].source, b[k].sourceID, Thought(b[k].detail.body, "cached"))
  }

  ghost predicate CachedTasks(a: seq<Action>, b: seq<Action>) {
    |a| == |b| && forall k :: 0 <= k < |a| ==> a[k] == Note(b[k].source, b[k].sourceID, Task(b[k].detail.body, "cached"))
  }

  lemma {:induction false} MarkThoughtsExact(insights: seq<Insight>)
    ensures CachedThoughts(MarkThoughts(insights), insights)
  {
    if insights != [] {
      MarkThoughtsExact(insights[..|insights| - 1]);
    }
  }

  lemma {:induction false} MarkTasksExact(actions: seq<Action>)
    ensures CachedTasks(MarkTasks(actions), actions)
  {
    if actions != [] {
      MarkTasksExact(actions[..|actions| - 1]);
    }
  }

  /** One insight for each body, by the candidate's source. */
  lemma {:induction false} ThoughtsExact(c: Candidate, bodies: seq<string>)
    ensures |Thoughts(c, bodies)| == |bodies|
    ensures forall k :: 0 <= k < |bodies| ==> Thoughts(c, bodies)[k] == Note(c.sourceType, c.externalID, Thought(bodies[k], "generated"))
  {
    if bodies != [] {
      ThoughtsExact(c, bodies[..|bodies| - 1]);
    }
  }

  lemma {:induction false} TasksExact(c: Candidate, bodies: seq<string>)
    ensures |Tasks(c, bodies)| == |bodies|
    ensures forall k :: 0 <= k < |bodies| ==> Tasks(c, bodies)[k] == Note(c.sourceType, c.externalID, Task(bodies[k], "generated"))
  {
    if bodies != [] {
      TasksExact(c, bodies[..|bodies| - 1]);
    }
  }

  /** What is not blank, no more and no less. */
  lemma {:induction false} NotBlankExact(values: seq<string>, v: string)
    ensures multiset(NotBlank(values))[v] == if Blank(v) then 0 else multiset(values)[v]
  {
    if values != [] {
      NotBlankExact(values[..|values| - 1], v);
      assert values == values[..|values| - 1] + [values[|values| - 1]];
    }
  }

  /** The record was made from an answer of the model: its summary is of this capture, and it has an
      insight and an action item for each text of the answer that is not blank. */
  ghost predicate MadeFrom(e: Engine, c: Candidate, captureHash: string, answer: Payload, record: Record) {
    && record.captureHash == captureHash
    && record.summary == Summary(c.sourceType, c.externalID, captureHash, PROMPT_VERSION, e.model, answer.body, answer.markers, "generated")
    && |record.insights| == |NotBlank(answer.insights)| && |record.actions| == |NotBlank(answer.actions)|
    && (forall k :: 0 <= k < |record.insights| ==>
          record.insights[k] == Note(c.sourceType, c.externalID, Thought(NotBlank(answer.insights)[k], "generated")))
    && (forall k :: 0 <= k < |record.actions| ==>
          record.actions[k] == Note(c.sourceType, c.externalID, Task(NotBlank(answer.actions)[k], "generated")))
  }

  /** The record was taken from the cache. */
  ghost predicate TakenFrom(held: Record, record: Record) {
    && record.captureHash == held.captureHash && record.summary == held.summary.(cacheStatus := "cached")
    && CachedThoughts(record.insights, held.insights) && CachedTasks(record.actions, held.actions)
  }

  /** Where the record of a processed source comes from: a synthesis of this very capture, if one is
      cached; otherwise, unless it is a video, one of any capture of the source; otherwise the model. */
  lemma RecordsExact(e: Engine, c: Candidate, captureHash: string, cached: Cache, sourceCached: Cache)
    ensures var p := ProcessSourceCandidate(e, c, captureHash, cached, sourceCached);
      var exact := CacheKey(c.sourceType, c.externalID, captureHash, PROMPT_VERSION, e.model);
      var any := CacheKey(c.sourceType, c.externalID, "", PROMPT_VERSION, e.model);
      && p.sourceType == c.sourceType && p.externalID == c.externalID
      && if exact in cached then p.cached && p.captureHash == captureHash && TakenFrom(cached[exact], p.record)
         else if c.sourceType != SOURCE_YOUTUBE && any in sourceCached then
           p.cached && p.captureHash == sourceCached[any].captureHash && TakenFrom(sourceCached[any], p.record)
         else !p.cached && p.captureHash == captureHash && MadeFrom(e, c, captureHash, e.answer(c, captureHash), p.record)
  {
    var hit := CacheHit(e, c, captureHash, cached, sourceCached);
    if hit.Some? {
      MarkThoughtsExact(hit.value.insights);
      MarkTasksExact(hit.value.actions);
    } else {
      ThoughtsExact(c, NotBlank(e.answer(c, captureHash).insights));
      TasksExact(c, NotBlank(e.answer(c, captureHash).actions));
    }
  }

  lemma RecordOwns(e: Engine, i: Inputs, c: Candidate)
    requires OwnInputs(i)
    ensures NotesOfSource(ProcessSourceCandidate(e, c, e.hash(c), i.cached, i.sourceCached).record, CandidateIdentity(c))
  {
    RecordsExact(e, c, e.hash(c), i.cached, i.sourceCached);
    var exact := CacheKey(c.sourceType, c.externalID, e.hash(c), PROMPT_VERSION, e.model);
    assert exact in i.cached ==> NotesOfSource(i.cached[exact], CandidateIdentity(c));
    assert exact.(captureHash := "") in i.sourceCached ==> NotesOfSource(i.sourceCached[exact.(captureHash := "")], CandidateIdentity(c));
  }

  /** The `k`-th processed source comes from the `k`-th new candidate and owns its notes. */
  lemma ProcessedSourceAt(e: Engine, i: Inputs, k: nat)
    requires FaithfulInputs(i) && DistinctFetch(i) && k < |NewCandidates(e, i)|
    ensures Processed(e, i)[k] ==
      ProcessSourceCandidate(e, NewCandidates(e, i)[k], e.hash(NewCandidates(e, i)[k]), i.cached, i.sourceCached)
  {
    var candidates := NewCandidates(e, i);
    NewCandidatesDistinct(e, i);
    FilteredMembers(e, i.states, Candidates(i.bookmarks, i.videos, i.processLimit), false);
    forall d | d in candidates ensures d.sourceType == SOURCE_X || d.sourceType == SOURCE_YOUTUBE {
      CandidateSource(i, d);
    }
    HashFound(e, candidates, k);
    ProcessedAt(e, CaptureHashes(e, candidates), candidates, i.cached, i.sourceCached, k);
  }

  lemma ProcessedOwn(e: Engine, i: Inputs, owners: seq<string>, processed: seq<ProcessedSource>)
    requires OwnInputs(i) && owners == CandidateIdentities(NewCandidates(e, i)) && processed == Processed(e, i)
    ensures |processed| == |owners| && Distinct(owners)
    ensures forall k :: 0 <= k < |owners| ==> NotesOfSource(processed[k].record, owners[k])
  {
    NewCandidatesDistinct(e, i);
    DistinctSourcesIdentities(NewCandidates(e, i));
    forall k | 0 <= k < |owners| ensures NotesOfSource(processed[k].record, owners[k]) {
      ProcessedSourceAt(e, i, k);
      RecordOwns(e, i, NewCandidates(e, i)[k]);
    }
  }

  lemma BundlesOfSources(owners: seq<string>, processed: seq<ProcessedSource>, identity: string)
    requires |processed| == |owners| && Distinct(owners)
    requires forall k :: 0 <= k < |owners| ==> NotesOfSource(processed[k].record, owners[k])
    ensures identity !in owners ==> Owned(Concat(ActionBundles(processed)), identity) == [] && Owned(Concat(InsightBundles(processed)), identity) == []
    ensures forall k :: 0 <= k < |owners| && owners[k] == identity ==>
      && Owned(Concat(ActionBundles(processed)), identity) == processed[k].record.actions
      && Owned(Concat(InsightBundles(processed)), identity) == processed[k].record.insights
  {
    OwnedBundles(ActionBundles(processed), owners, identity);
    OwnedBundles(InsightBundles(processed), owners, identity);
  }

  // ---------------------------------------------------------------- one cycle

  function ActionsOf(run: Option<Run>, identity: string): seq<Action> {
    if run.Some? then Owned(run.value.actions, identity) else []
  }

  function InsightsOf(run: Option<Run>, identity: string): seq<Insight> {
    if run.Some? then Owned(run.value.insights, identity) else []
  }

  /** `b` has lost none of the notes of the source that `a` has, and its action items begin with them. */
  ghost predicate LosesNoNotes(a: Option<Run>, b: Option<Run>, identity: string) {
    && b.Some? && ActionsOf(a, identity) <= ActionsOf(b, identity)
    && multiset(InsightsOf(a, identity)) <= multiset(InsightsOf(b, identity))
  }

  /** It has no others either. */
  ghost predicate SameNotes(a: Option<Run>, b: Option<Run>, identity: string) {
    && b.Some? && ActionsOf(b, identity) == ActionsOf(a, identity)
    && multiset(InsightsOf(b, identity)) == multiset(InsightsOf(a, identity))
  }

  /** A source that is not processed keeps its action items, in order, and its insights; and if cached
      records have notes of their own sources only, it gets no others. */
  lemma CycleKeepsNotes(e: Engine, i: Inputs, identity: string)
    requires FaithfulInputs(i) && Ranks(e) && Cycle(e, i).Saved?
    requires identity !in CandidateIdentities(NewCandidates(e, i))
    ensures LosesNoNotes(i.latest, Some(Cycle(e, i).run), identity)
    ensures OwnInputs(i) ==> SameNotes(i.latest, Some(Cycle(e, i).run), identity)
  {
    ProcessedIdentities(e, NewCandidates(e, i), i.cached, i.sourceCached);
    if OwnInputs(i) {
      OthersOwnNothing(e, i, identity, Processed(e, i));
    }
    KeptNotes(e, i, identity, Processed(e, i), Cycle(e, i).run);
  }

  lemma OthersOwnNothing(e: Engine, i: Inputs, identity: string, processed: seq<ProcessedSource>)
    requires OwnInputs(i) && identity !in CandidateIdentities(NewCandidates(e, i)) && processed == Processed(e, i)
    ensures Owned(Concat(ActionBundles(processed)), identity) == [] && Owned(Concat(InsightBundles(processed)), identity) == []
  {
    ProcessedOwn(e, i, CandidateIdentities(NewCandidates(e, i)), processed);
    BundlesOfSources(CandidateIdentities(NewCandidates(e, i)), processed, identity);
  }

  lemma KeptNotes(e: Engine, i: Inputs, identity: string, processed: seq<ProcessedSource>, run: Run)
    requires Ranks(e) && processed == Processed(e, i) && identity !in IdentitiesOf(processed)
    requires run == Result(e, i.latest, i.bookmarks, i.videos, processed)
    ensures LosesNoNotes(i.latest, Some(run), identity)
    ensures Owned(Concat(ActionBundles(processed)), identity) == [] && Owned(Concat(InsightBundles(processed)), identity) == [] ==>
      SameNotes(i.latest, Some(run), identity)
  {
    KeptActions(e, i, identity, processed);
    KeptInsights(e, i, identity, processed);
  }

  lemma KeptActions(e: Engine, i: Inputs, identity: string, processed: seq<ProcessedSource>)
    requires processed == Processed(e, i) && identity !in IdentitiesOf(processed)
    ensures Owned(Result(e, i.latest, i.bookmarks, i.videos, processed).actions, identity) ==
      ActionsOf(i.latest, identity) + Owned(Concat(ActionBundles(processed)), identity)
  {
    ResultActions(e, i, identity, processed, if i.latest.Some? then i.latest.value.actions else []);
  }

  lemma KeptInsights(e: Engine, i: Inputs, identity: string, processed: seq<ProcessedSource>)
    requires Ranks(e) && processed == Processed(e, i) && identity !in IdentitiesOf(processed)
    ensures multiset(Owned(Result(e, i.latest, i.bookmarks, i.videos, processed).insights, identity)) ==
      multiset(InsightsOf(i.latest, identity)) + multiset(Owned(Concat(InsightBundles(processed)), identity))
  {
    ResultInsights(e, i, identity, processed, if i.latest.Some? then i.latest.value.insights else []);
  }

  /** A source that is processed has the action items and insights of its record, and none else. */
  lemma CycleSetsNotes(e: Engine, i: Inputs, c: Candidate, record: Record)
    requires OwnInputs(i) && Ranks(e) && Cycle(e, i).Saved? && c in NewCandidates(e, i)
    requires record == ProcessSourceCandidate(e, c, e.hash(c), i.cached, i.sourceCached).record
    ensures Owned(Cycle(e, i).run.actions, CandidateIdentity(c)) == record.actions
    ensures multiset(Owned(Cycle(e, i).run.insights, CandidateIdentity(c))) == multiset(record.insights)
    ensures record.summary in Cycle(e, i).run.summaries
  {
    var processed, owners := Processed(e, i), CandidateIdentities(NewCandidates(e, i));
    var k :| 0 <= k < |NewCandidates(e, i)| && NewCandidates(e, i)[k] == c;
    assert owners[k] == CandidateIdentity(c);
    ProcessedIdentities(e, NewCandidates(e, i), i.cached, i.sourceCached);
    ProcessedOwn(e, i, owners, processed);
    BundlesOfSources(owners, processed, CandidateIdentity(c));
    ProcessedSourceAt(e, i, k);
    ResultActions(e, i, CandidateIdentity(c), processed, if i.latest.Some? then i.latest.value.actions else []);
    ResultInsights(e, i, CandidateIdentity(c), processed, if i.latest.Some? then i.latest.value.insights else []);
    assert [] + record.insights == record.insights;
    ResultSummaries(e, i.latest, i.bookmarks, i.videos, processed);
    assert SummariesOf(processed)[k] == record.summary;
  }

  // ---------------------------------------------------------------- every history

  /** Cycle `k` of the history does not process the source. */
  ghost predicate LeavesAlone(e: Engine, history: seq<Inputs>, k: nat, identity: string) {
    k < |history| && FaithfulInputs(history[k]) && identity !in CandidateIdentities(NewCandidates(e, history[k]))
  }

  lemma StepKeepsNotes(e: Engine, history: seq<Inputs>, n: nat, before: Option<Run>, identity: string)
    requires Ranks(e) && |history| == n + 1 && LeavesAlone(e, history, n, identity)
    requires before == Stored(e, history[..n]) && before.Some?
    ensures LosesNoNotes(before, Stored(e, history), identity)
    ensures OwnInputs(history[n]) ==> SameNotes(before, Stored(e, history), identity)
  {
    var j := history[n].(latest := before);
    assert NewCandidates(e, j) == NewCandidates(e, history[n]);
    if Cycle(e, j).Saved? {
      CycleKeepsNotes(e, j, identity);
    }
  }

  /** Over every history of cycles: while a source is not processed again, all its action items, in
      order, and all its insights stay in the stored run; and if cached records have notes of their own
      sources only, no others are added to them. */
  lemma {:induction false} HistoryKeepsNotes(e: Engine, history: seq<Inputs>, k: nat, identity: string)
    requires Ranks(e) && k <= |history| && Stored(e, history[..k]).Some?
    requires forall j: nat :: k <= j < |history| ==> LeavesAlone(e, history, j, identity)
    ensures LosesNoNotes(Stored(e, history[..k]), Stored(e, history), identity)
    ensures (forall j :: k <= j < |history| ==> OwnInputs(history[j])) ==> SameNotes(Stored(e, history[..k]), Stored(e, history), identity)
  {
    if k == |history| {
      assert history[..k] == history;
    } else {
      var n := |history| - 1;
      var init := history[..n];
      assert init[..k] == history[..k];
      forall j: nat | k <= j < n ensures LeavesAlone(e, init, j, identity) {
        assert LeavesAlone(e, history, j, identity) && init[j] == history[j];
      }
      HistoryKeepsNotes(e, init, k, identity);
      assert LeavesAlone(e, history, n, identity);
      StepKeepsNotes(e, history, n, Stored(e, init), identity);
    }
  }

  // ---------------------------------------------------------------- what the store is handed

  /** The sources that are handed to the store with a saved run have the notes that the run has of
      them: those processed now and those regrouped from the latest run. */
  lemma StoreGetsSavedNotes(e: Engine, i: Inputs, p: ProcessedSource)
    requires OwnInputs(i) && Ranks(e) && Cycle(e, i).Saved? && p in Cycle(e, i).sources
    ensures p.record.actions == Owned(Cycle(e, i).run.actions, SourceIdentity(p))
    ensures multiset(p.record.insights) == multiset(Owned(Cycle(e, i).run.insights, SourceIdentity(p)))
    ensures p.record.summary in Cycle(e, i).run.summaries
  {
    if p in Processed(e, i) {
      ProcessedIsSaved(e, i, p);
    } else {
      KeptSource(e, i, p, i.latest.value, Processed(e, i));
    }
  }

  lemma ProcessedIsSaved(e: Engine, i: Inputs, p: ProcessedSource)
    requires OwnInputs(i) && Ranks(e) && Cycle(e, i).Saved? && p in Processed(e, i)
    ensures p.record.actions == Owned(Cycle(e, i).run.actions, SourceIdentity(p))
    ensures multiset(p.record.insights) == multiset(Owned(Cycle(e, i).run.insights, SourceIdentity(p)))
    ensures p.record.summary in Cycle(e, i).run.summaries
  {
    var k :| 0 <= k < |Processed(e, i)| && Processed(e, i)[k] == p;
    var c := NewCandidates(e, i)[k];
    ProcessedSourceAt(e, i, k);
    ProcessedMatches(e, c, e.hash(c), i.cached, i.sourceCached);
    CycleSetsNotes(e, i, c, p.record);
  }

  lemma KeptSource(e: Engine, i: Inputs, p: ProcessedSource, latest: Run, processed: seq<ProcessedSource>)
    requires OwnInputs(i) && Ranks(e) && Cycle(e, i).Saved? && i.latest == Some(latest) && processed == Processed(e, i)
    requires p in Regrouped(latest.summaries, latest.insights, latest.actions, IdentitiesOf(processed))
    ensures p.record.actions == Owned(Cycle(e, i).run.actions, SourceIdentity(p))
    ensures multiset(p.record.insights) == multiset(Owned(Cycle(e, i).run.insights, SourceIdentity(p)))
    ensures p.record.summary in Cycle(e, i).run.summaries
  {
    RegroupedAre(latest.summaries, latest.insights, latest.actions, IdentitiesOf(processed), p);
    ProcessedIdentities(e, NewCandidates(e, i), i.cached, i.sourceCached);
    CycleKeepsNotes(e, i, SourceIdentity(p));
    ResultSummaries(e, i.latest, i.bookmarks, i.videos, processed);
  }

  lemma {:induction false} RegroupedAre(summaries: seq<Summary>, insights: seq<Insight>, actions: seq<Action>, exclude: set<string>, p: ProcessedSource)
    requires p in Regrouped(summaries, insights, actions, exclude)
    ensures SourceIdentity(p) !in exclude && p.record.summary in SummariesExcluding(summaries, exclude)
    ensures p.record.insights == Owned(insights, SourceIdentity(p)) && p.record.actions == Owned(actions, SourceIdentity(p))
  {
    var init, last := summaries[..|summaries| - 1], summaries[|summaries| - 1];
    if p in Regrouped(init, insights, actions, exclude) {
      RegroupedAre(init, insights, actions, exclude, p);
    }
  }

  // ---------------------------------------------------------------- time markers

  /** The processed source brings time markers for the video. */
  predicate Marks(p: ProcessedSource, videoID: string) {
    p.sourceType == SOURCE_YOUTUBE && p.externalID == videoID && |p.record.summary.markers| > 0
  }

  function Marked(v: Video, markers: seq<string>): Video {
    v.(detail := v.detail.(markers := markers))
  }

  lemma {:induction false} WithMarkersAt(videos: seq<Video>, videoID: string, markers: seq<string>, j: nat)
    requires DistinctIDs(videos) && j < |videos|
    ensures |WithMarkers(videos, videoID, markers)| == |videos|
    ensures WithMarkers(videos, videoID, markers)[j] == if videos[j].id == videoID then Marked(videos[j], markers) else videos[j]
  {
    if videos[0].id != videoID && j > 0 {
      WithMarkersAt(videos[1..], videoID, markers, j - 1);
    }
    if videos[0].id != videoID {
      WithMarkersKeep(videos[1..], videoID, markers);
    }
  }

  /** The last source that marks the video, if there is one, gives it its markers. */
  lemma {:induction false} AppendedVideo(run: Run, processed: seq<ProcessedSource>, j: nat, k: int)
    requires DistinctIDs(run.videos) && j < |run.videos| && -1 <= k < |processed|
    requires forall m :: k < m < |processed| ==> !Marks(processed[m], run.videos[j].id)
    requires k >= 0 ==> Marks(processed[k], run.videos[j].id)
    requires forall m :: 0 <= m < k ==> !Marks(processed[m], run.videos[j].id)
    ensures |Appended(run, processed).videos| == |run.videos|
    ensures Appended(run, processed).videos[j] ==
      if k < 0 then run.videos[j] else Marked(run.videos[j], processed[k].record.summary.markers)
  {
    if processed != [] {
      var n := |processed| - 1;
      AppendedVideo(run, processed[..n], j, if k == n then -1 else k);
      AppendedParts(run, processed[..n]);
      SameIDs(run.videos, Appended(run, processed[..n]).videos);
      WithMarkersAt(Appended(run, processed[..n]).videos, processed[n].externalID, processed[n].record.summary.markers, j);
    }
  }

  /** The videos of a result before markers are attached. */
  function BaseVideos(i: Inputs): seq<Video> {
    if i.latest.Some? then MergedVideos(i.latest.value.videos, i.videos) else i.videos
  }

  lemma BaseVideosDistinct(i: Inputs)
    requires DistinctFetch(i) && (i.latest.Some? ==> Sound(i.latest.value))
    ensures DistinctIDs(BaseVideos(i)) && IDs(i.videos) <= IDs(BaseVideos(i))
  {
    if i.latest.Some? {
      RestoredIDs(i.latest.value.videos, i.videos);
      MergeExact(i.latest.value.videos, AllRestored(VideosByID(i.latest.value.videos), i.videos));
    }
  }

  lemma OneMarks(e: Engine, i: Inputs, k: nat, m: nat, videoID: string)
    requires FaithfulInputs(i) && DistinctFetch(i) && k < |NewCandidates(e, i)| && m < |NewCandidates(e, i)|
    requires Marks(Processed(e, i)[k], videoID) && Marks(Processed(e, i)[m], videoID)
    ensures k == m
  {
    var candidates := NewCandidates(e, i);
    NewCandidatesDistinct(e, i);
    ProcessedSourceAt(e, i, k);
    ProcessedSourceAt(e, i, m);
    RecordsExact(e, candidates[k], e.hash(candidates[k]), i.cached, i.sourceCached);
    RecordsExact(e, candidates[m], e.hash(candidates[m]), i.cached, i.sourceCached);
    assert CandidateIdentity(candidates[k]) == CandidateIdentity(candidates[m]);
  }

  /** In a saved run a video has the markers of its processed source, if that has any, and is otherwise
      as it was merged. */
  lemma VideosAreMarked(e: Engine, i: Inputs, j: nat, k: int)
    requires FaithfulInputs(i) && DistinctFetch(i) && (i.latest.Some? ==> Sound(i.latest.value)) && Cycle(e, i).Saved?
    requires j < |BaseVideos(i)| && -1 <= k < |Processed(e, i)|
    requires if k < 0 then forall m :: 0 <= m < |Processed(e, i)| ==> !Marks(Processed(e, i)[m], BaseVideos(i)[j].id)
             else Marks(Processed(e, i)[k], BaseVideos(i)[j].id)
    ensures |Cycle(e, i).run.videos| == |BaseVideos(i)|
    ensures Cycle(e, i).run.videos[j] ==
      if k < 0 then BaseVideos(i)[j] else Marked(BaseVideos(i)[j], Processed(e, i)[k].record.summary.markers)
  {
    var fetched, processed := Run(i.bookmarks, i.videos, [], [], []), Processed(e, i);
    var base := if i.latest.Some? then Carried(i.latest.value, fetched, IdentitiesOf(processed)) else fetched;
    BaseVideosDistinct(i);
    forall m | 0 <= m < |processed| && m != k ensures !Marks(processed[m], BaseVideos(i)[j].id) {
      if k >= 0 && Marks(processed[m], BaseVideos(i)[j].id) {
        OneMarks(e, i, k, m, BaseVideos(i)[j].id);
      }
    }
    AppendedVideo(base, processed, j, k);
  }

  // ---------------------------------------------------------------- what a cycle does at all

  ghost predicate PostAt(i: Inputs, k: int, c: Candidate) {
    && 0 <= k < |i.bookmarks| && (i.processLimit <= 0 || k < i.processLimit)
    && c == Candidate(SOURCE_X, i.bookmarks[k].id, i.bookmarks[k].detail.body)
  }

  ghost predicate VideoAt(videos: seq<Video>, k: int, c: Candidate) {
    0 <= k < |videos| && !Blank(videos[k].detail.transcript) && c == Candidate(SOURCE_YOUTUBE, videos[k].id, videos[k].detail.transcript)
  }

  /** The candidates: the first posts up to the limit, if there is one, and every video whose transcript
      is not blank, each with its text. */
  lemma CandidatesExact(i: Inputs, c: Candidate)
    ensures c in Candidates(i.bookmarks, i.videos, i.processLimit) <==>
      (exists k :: PostAt(i, k, c)) || (exists k :: VideoAt(i.videos, k, c))
  {
    BookmarkBodies(i.bookmarks);
    VideoCandidatesExact(i.videos, c);
    var x := BookmarkCandidates(i.bookmarks);
    var taken := if i.processLimit > 0 && |x| > i.processLimit then x[..i.processLimit] else x;
    assert forall k :: 0 <= k < |taken| ==> taken[k] == x[k];
    if k :| PostAt(i, k, c) {
      assert taken[k] == c;
    }
    if c in taken {
      var k :| 0 <= k < |taken| && taken[k] == c;
      assert PostAt(i, k, c);
    }
  }

  lemma {:induction false} BookmarkBodies(bookmarks: seq<Bookmark>)
    ensures |BookmarkCandidates(bookmarks)| == |bookmarks|
    ensures forall k :: 0 <= k < |bookmarks| ==> BookmarkCandidates(bookmarks)[k] == Candidate(SOURCE_X, bookmarks[k].id, bookmarks[k].detail.body)
  {
    if bookmarks != [] {
      BookmarkBodies(bookmarks[..|bookmarks| - 1]);
    }
  }

  lemma VideoAtMore(init: seq<Video>, last: Video, c: Candidate)
    ensures (exists k :: VideoAt(init + [last], k, c)) <==> (exists k :: VideoAt(init, k, c)) || VideoAt([last], 0, c)
  {
    var videos := init + [last];
    assert videos[|init|] == last;
    if k :| VideoAt(init, k, c) {
      assert videos[k] == init[k] && VideoAt(videos, k, c);
    }
    if k :| VideoAt(videos, k, c) {
      assert k < |init| ==> VideoAt(init, k, c);
    }
    assert VideoAt([last], 0, c) ==> VideoAt(videos, |init|, c);
  }

  lemma {:induction false} VideoCandidatesExact(videos: seq<Video>, c: Candidate)
    ensures c in VideoCandidates(videos) <==> exists k :: VideoAt(videos, k, c)
  {
    if videos != [] {
      var init, last := videos[..|videos| - 1], videos[|videos| - 1];
      VideoCandidatesExact(init, c);
      assert videos == init + [last];
      VideoAtMore(init, last, c);
    }
  }

  /** When a cycle saves a run: the lookup of states and the save must succeed, and there must be a new
      candidate, or no latest run that could be read, or else nothing to take the latest run's place
      for: with every provider and lookup well nothing was fetched, or with one of them blocked the
      latest run is empty. So a blocked refresh never replaces a populated run without new material. */
  lemma SavedExactly(e: Engine, i: Inputs)
    ensures Cycle(e, i).Saved? <==>
      && !i.statesFailed && !i.saveFails
      && (NewCandidates(e, i) != [] || i.latest.None?
          || (if i.failures == 0 && !i.latestFailed then i.bookmarks == [] && i.videos == []
              else i.latest.value.bookmarks == [] && i.latest.value.videos == [] && i.latest.value.summaries == [] && i.latest.value.insights == []))
    ensures Cycle(e, i).Unchanged? ==> i.latest == Some(Cycle(e, i).run)
    ensures Cycle(e, i).Failed? <==> i.statesFailed && i.latest.None?
  {
  }

  /** Which candidates are new: those whose key has no processed state, or one of another capture; a
      state without a capture hash stands for all. */
  lemma NewExactly(e: Engine, i: Inputs, c: Candidate, key: MaterialKey)
    requires key == MaterialKey(c.sourceType, c.externalID, "source-grounded-insights-v6-compact-retry", e.model)
    ensures c in NewCandidates(e, i) <==>
      && c in Candidates(i.bookmarks, i.videos, i.processLimit)
      && (key in i.states && i.states[key].processed ==>
            i.states[key].latestCaptureHash != "" && i.states[key].latestCaptureHash != e.hash(c))
  {
    FilteredMembers(e, i.states, Candidates(i.bookmarks, i.videos, i.processLimit), false);
  }

  /** New and known candidates keep their order. */
  lemma {:induction false} FilteredAppend(e: Engine, states: States, a: seq<Candidate>, b: seq<Candidate>, known: bool)
    ensures Filtered(e, states, a + b, known) == Filtered(e, states, a, known) + Filtered(e, states, b, known)
  {
    if b == [] {
      assert a + b == a;
    } else {
      assert (a + b)[..|a + b| - 1] == a + b[..|b| - 1];
      FilteredAppend(e, states, a, b[..|b| - 1], known);
    }
  }

  // ---------------------------------------------------------------- what the local store finds

  /** The record of summary `s` in a run. */
  function RecordIn(s: Summary, insights: seq<Insight>, actions: seq<Action>): Record {
    Record(s.captureHash, s, NotesFrom(insights, s.source, s.id), NotesFrom(actions, s.source, s.id))
  }

  /** What the local store returns for a key is the record of one of the run's summaries. */
  lemma {:induction false} LocalRecordExact(summaries: seq<Summary>, insights: seq<Insight>, actions: seq<Action>, wanted: set<CacheKey>, key: CacheKey)
    requires key in ReadCachedSyntheses(summaries, insights, actions, wanted)
    ensures key in wanted
    ensures exists s :: s in summaries && ReadCachedSyntheses(summaries, insights, actions, wanted)[key] == RecordIn(s, insights, actions)
  {
    var init, last := summaries[..|summaries| - 1], summaries[|summaries| - 1];
    var rest := ReadCachedSyntheses(init, insights, actions, wanted);
    assert last in summaries && forall s :: s in init ==> s in summaries;
    if key in rest {
      LocalRecordExact(init, insights, actions, wanted, key);
    }
  }

  /** With all notes of its source, as often as they are there, if no source type has a colon. */
  lemma {:induction false} NotesFromExact<T>(notes: seq<Note<T>>, source: SourceType, id: string, n: Note<T>)
    requires ':' !in source && forall k :: 0 <= k < |notes| ==> ':' !in notes[k].source
    ensures multiset(NotesFrom(notes, source, id))[n] == if n.source == source && n.sourceID == id then multiset(notes)[n] else 0
  {
    if notes != [] {
      var last := notes[|notes| - 1];
      NotesFromExact(notes[..|notes| - 1], source, id, n);
      UpToOfJoin(last.source, ':', last.sourceID);
      UpToOfJoin(source, ':', id);
      assert notes == notes[..|notes| - 1] + [last];
    }
  }
}
