/** The refresh cycle over the local store, which answers every lookup from the latest run:
    an X post that was edited after its synthesis is served the old one, now and in every
    later cycle. */
module RefreshLocalStore {
  import opened Basics
  import opened Text
  import opened SourceMaterial
  import opened RefreshCycle
  import opened RefreshTheorems
  import opened RefreshConservation
  import opened RefreshQuiescence

  function ExactKey(e: Engine, c: Candidate): CacheKey {
    CacheKey(c.sourceType, c.externalID, e.hash(c), PROMPT_VERSION, e.model)
  }

  function SourceKey(e: Engine, c: Candidate): CacheKey {
    ExactKey(e, c).(captureHash := "")
  }

  /** The states and the cached syntheses are those the local store finds in the latest run. */
  ghost predicate LocalStore(e: Engine, i: Inputs) {
    && i.latest.Some?
    && var run := i.latest.value;
       var candidates := Candidates(i.bookmarks, i.videos, i.processLimit);
       && i.states == StatesOf(run.summaries)
       && i.cached == ReadCachedSyntheses(run.summaries, run.insights, run.actions,
            set c | c in candidates && !Known(e, i.states, c) :: ExactKey(e, c))
       && i.sourceCached == ReadCachedSyntheses(run.summaries, run.insights, run.actions,
            set c | c in candidates && !Known(e, i.states, c) :: SourceKey(e, c))
  }

  /** What every stored run fulfils: its sources are written without surrounding space. */
  ghost predicate TrimmedSources(run: Run) {
    forall k :: 0 <= k < |run.summaries| ==> run.summaries[k].source in {SOURCE_X, SOURCE_YOUTUBE}
  }

  lemma {:induction false} ReadFinds(summaries: seq<Summary>, insights: seq<Insight>, actions: seq<Action>, wanted: set<CacheKey>, key: CacheKey)
    ensures var cache := ReadCachedSyntheses(summaries, insights, actions, wanted);
      key in cache ==> cache[key].summary in summaries && RecordMatches(key, cache[key])
  {
    if summaries != [] {
      ReadFinds(summaries[..|summaries| - 1], insights, actions, wanted, key);
    }
  }

  /** A lookup by source finds a synthesis of every wanted source that has one. */
  lemma {:induction false} ReadCovers(summaries: seq<Summary>, insights: seq<Insight>, actions: seq<Action>, wanted: set<CacheKey>, s: Summary)
    requires s in summaries && CacheKey(s.source, s.id, "", s.promptVersion, s.model) in wanted
    requires forall key :: key in wanted ==> key.captureHash == ""
    ensures CacheKey(s.source, s.id, "", s.promptVersion, s.model) in ReadCachedSyntheses(summaries, insights, actions, wanted)
  {
    var init := summaries[..|summaries| - 1];
    assert summaries == init + [summaries[|summaries| - 1]];
    if s in init {
      ReadCovers(init, insights, actions, wanted, s);
    }
  }

  /** In a sound run only one summary has the key of a candidate. */
  lemma OneSummary(run: Run, s: Summary, t: Summary, key: MaterialKey)
    requires Sound(run) && TrimmedSources(run) && s in run.summaries && t in run.summaries
    requires s.source == key.sourceType && s.id == key.externalID
    requires Trim(t.source) == key.sourceType && t.id == key.externalID
    ensures s == t
  {
    var j :| 0 <= j < |run.summaries| && run.summaries[j] == s;
    var k :| 0 <= k < |run.summaries| && run.summaries[k] == t;
    KnownType(t.source);
    assert Identities(run.summaries)[j] == Identities(run.summaries)[k];
  }

  lemma {:induction false} LastHashSummary(summaries: seq<Summary>, key: MaterialKey) returns (s: Summary)
    requires LastHash(summaries, key).Some?
    ensures s in summaries && SummaryKey(s) == Some(key) && s.captureHash == LastHash(summaries, key).value
  {
    var n := |summaries| - 1;
    if SummaryKey(summaries[n]) == Some(key) {
      s := summaries[n];
    } else {
      s := LastHashSummary(summaries[..n], key);
    }
  }

  lemma {:induction false} LastHashExists(summaries: seq<Summary>, key: MaterialKey, s: Summary)
    requires s in summaries && SummaryKey(s) == Some(key)
    ensures LastHash(summaries, key).Some?
  {
    var n := |summaries| - 1;
    assert summaries == summaries[..n] + [summaries[n]];
    if SummaryKey(summaries[n]) != Some(key) {
      LastHashExists(summaries[..n], key, s);
    }
  }

  /** The post was synthesised before, from a capture with another hash. */
  ghost predicate Edited(e: Engine, run: Run, c: Candidate) {
    var before := LastHash(run.summaries, CandidateKey(e, c));
    c.sourceType == SOURCE_X && before.Some? && before.value != "" && before.value != e.hash(c)
  }

  lemma EditedIsStale(e: Engine, i: Inputs, c: Candidate)
    requires LocalStore(e, i) && Sound(i.latest.value) && TrimmedSources(i.latest.value)
    requires c in Candidates(i.bookmarks, i.videos, i.processLimit) && e.hash(c) != ""
    requires Edited(e, i.latest.value, c)
    ensures Stale(e, i, c)
    ensures i.sourceCached[SourceKey(e, c)].summary.captureHash == LastHash(i.latest.value.summaries, CandidateKey(e, c)).value
  {
    var run, key := i.latest.value, CandidateKey(e, c);
    StateIsLastHash(run.summaries, key);
    var s := LastHashSummary(run.summaries, key);
    var k :| 0 <= k < |run.summaries| && run.summaries[k] == s;
    KnownType(s.source);
    var candidates := Candidates(i.bookmarks, i.videos, i.processLimit);
    var exact := set d | d in candidates && !Known(e, i.states, d) :: ExactKey(e, d);
    var any := set d | d in candidates && !Known(e, i.states, d) :: SourceKey(e, d);
    ReadFinds(run.summaries, run.insights, run.actions, exact, ExactKey(e, c));
    if ExactKey(e, c) in i.cached {
      OneSummary(run, i.cached[ExactKey(e, c)].summary, s, key);
    }
    ReadCovers(run.summaries, run.insights, run.actions, any, s);
    ReadFinds(run.summaries, run.insights, run.actions, any, SourceKey(e, c));
    OneSummary(run, i.sourceCached[SourceKey(e, c)].summary, s, key);
  }

  lemma StaleIsEdited(e: Engine, i: Inputs, c: Candidate)
    requires LocalStore(e, i) && Sound(i.latest.value) && TrimmedSources(i.latest.value)
    requires c in Candidates(i.bookmarks, i.videos, i.processLimit) && UsableKey(e, c)
    requires Stale(e, i, c)
    ensures Edited(e, i.latest.value, c)
  {
    var run, key := i.latest.value, CandidateKey(e, c);
    var candidates := Candidates(i.bookmarks, i.videos, i.processLimit);
    var any := set d | d in candidates && !Known(e, i.states, d) :: SourceKey(e, d);
    ReadFinds(run.summaries, run.insights, run.actions, any, SourceKey(e, c));
    var t := i.sourceCached[SourceKey(e, c)].summary;
    CandidateSource(i, c);
    KnownType(c.sourceType);
    PromptNotBlank();
    assert SummaryKey(t) == Some(key);
    LastHashExists(run.summaries, key, t);
    var s := LastHashSummary(run.summaries, key);
    OneSummary(run, t, s, key);
  }

  lemma LocalStoreInputs(e: Engine, i: Inputs)
    requires LocalStore(e, i)
    ensures FaithfulInputs(i)
  {
    var run := i.latest.value;
    var candidates := Candidates(i.bookmarks, i.videos, i.processLimit);
    LocalStoreIsFaithful(run.summaries, run.insights, run.actions, set c | c in candidates && !Known(e, i.states, c) :: ExactKey(e, c));
    LocalStoreIsFaithful(run.summaries, run.insights, run.actions, set c | c in candidates && !Known(e, i.states, c) :: SourceKey(e, c));
  }

  /** With the local store a saved cycle leaves exactly the edited posts, and candidates
      without a usable key, to be found new again. */
  lemma LocalQuiescence(e: Engine, i: Inputs, c: Candidate)
    requires LocalStore(e, i) && Sound(i.latest.value) && TrimmedSources(i.latest.value) && DistinctFetch(i)
    requires c in Candidates(i.bookmarks, i.videos, i.processLimit) && e.hash(c) != ""
    ensures var run := Result(e, i.latest, i.bookmarks, i.videos, Processed(e, i));
      !Known(e, StatesOf(run.summaries), c) <==> !UsableKey(e, c) || Edited(e, i.latest.value, c)
  {
    LocalStoreInputs(e, i);
    Quiescence(e, i, c);
    StateIsLastHash(i.latest.value.summaries, CandidateKey(e, c));
    if Edited(e, i.latest.value, c) {
      EditedIsStale(e, i, c);
    }
    if UsableKey(e, c) && Stale(e, i, c) {
      StaleIsEdited(e, i, c);
    }
  }

  lemma ResultTrimmed(e: Engine, i: Inputs)
    requires FaithfulInputs(i) && DistinctFetch(i) && i.latest.Some? && TrimmedSources(i.latest.value)
    ensures TrimmedSources(Result(e, i.latest, i.bookmarks, i.videos, Processed(e, i)))
  {
    var processed := Processed(e, i);
    ResultSummaries(e, i.latest, i.bookmarks, i.videos, processed);
    var kept, added := BaseSummaries(i.latest, processed), SummariesOf(processed);
    ExcludingSubset(i.latest.value.summaries, IdentitiesOf(processed));
    forall k | 0 <= k < |kept| ensures kept[k].source in {SOURCE_X, SOURCE_YOUTUBE} {
      assert kept[k] in kept;
      var m :| 0 <= m < |i.latest.value.summaries| && i.latest.value.summaries[m] == kept[k];
    }
    forall k | 0 <= k < |added| ensures added[k].source in {SOURCE_X, SOURCE_YOUTUBE} {
      var c := NewCandidates(e, i)[k];
      FilteredMembers(e, i.states, Candidates(i.bookmarks, i.videos, i.processLimit), false);
      assert c in NewCandidates(e, i);
      CandidateSource(i, c);
      ProcessedKeys(e, i, c, k);
      ProcessedMatches(e, c, e.hash(c), i.cached, i.sourceCached);
    }
  }

  lemma {:induction false} ExcludingSubset(summaries: seq<Summary>, exclude: set<string>)
    ensures forall s :: s in SummariesExcluding(summaries, exclude) ==> s in summaries
  {
    if summaries != [] {
      ExcludingSubset(summaries[..|summaries| - 1], exclude);
      assert summaries == summaries[..|summaries| - 1] + [summaries[|summaries| - 1]];
    }
  }

  // ---------------------------------------------------------------- every history

  /** The key of an X post. */
  function PostKey(e: Engine, id: string): MaterialKey {
    MaterialKey(SOURCE_X, id, PROMPT_VERSION, e.model)
  }

  /** The post is fetched under one spelling of its ID, if at all, and capture hashes are not empty. */
  ghost predicate OneSpelling(e: Engine, i: Inputs, id: string) {
    forall c :: c in Candidates(i.bookmarks, i.videos, i.processLimit) ==>
      e.hash(c) != "" && (c.sourceType == SOURCE_X && Trim(c.externalID) == Trim(id) ==> c.externalID == id)
  }

  ghost predicate Fetched(i: Inputs, id: string) {
    exists c :: c in Candidates(i.bookmarks, i.videos, i.processLimit) && c.sourceType == SOURCE_X && c.externalID == id
  }

  lemma ProcessedIsFetched(e: Engine, i: Inputs, id: string, d: Candidate, s: Summary)
    requires OneSpelling(e, i, id) && d in NewCandidates(e, i) && !Fetched(i, id)
    requires SummaryKey(s) == Some(PostKey(e, id))
    ensures SummaryIdentity(s) != CandidateIdentity(d)
  {
    FilteredMembers(e, i.states, Candidates(i.bookmarks, i.videos, i.processLimit), false);
    CandidateSource(i, d);
    if SummaryIdentity(s) == CandidateIdentity(d) {
      IdentityFixesSource(s.source, s.id, d.sourceType, d.externalID);
    }
  }

  lemma UnfetchedAddsNothing(e: Engine, i: Inputs, id: string)
    requires FaithfulInputs(i) && DistinctFetch(i) && !Fetched(i, id)
    ensures LastHash(SummariesOf(Processed(e, i)), PostKey(e, id)) == None
  {
    var candidates, key := NewCandidates(e, i), PostKey(e, id);
    var added := SummariesOf(Processed(e, i));
    FilteredMembers(e, i.states, Candidates(i.bookmarks, i.videos, i.processLimit), false);
    forall k | 0 <= k < |added| ensures SummaryKey(added[k]) != Some(key) {
      assert candidates[k] in candidates;
      ProcessedKeys(e, i, candidates[k], k);
      CandidateSource(i, candidates[k]);
      SummarySource(e, i, candidates[k], added[k], key);
    }
    LastHashNone(added, key);
  }

  lemma SummarySource(e: Engine, i: Inputs, d: Candidate, s: Summary, key: MaterialKey)
    requires FaithfulInputs(i) && s == ProcessSourceCandidate(e, d, e.hash(d), i.cached, i.sourceCached).record.summary
    requires d.sourceType == SOURCE_X || d.sourceType == SOURCE_YOUTUBE
    ensures SummaryKey(s) == Some(key) ==> d.sourceType == key.sourceType && d.externalID == key.externalID
  {
    ProcessedMatches(e, d, e.hash(d), i.cached, i.sourceCached);
    KnownType(d.sourceType);
  }

  lemma UnfetchedIsKept(e: Engine, i: Inputs, id: string, s: Summary)
    requires FaithfulInputs(i) && OneSpelling(e, i, id) && !Fetched(i, id) && SummaryKey(s) == Some(PostKey(e, id))
    ensures SummaryIdentity(s) !in IdentitiesOf(Processed(e, i))
  {
    var candidates := NewCandidates(e, i);
    ProcessedIdentities(e, candidates, i.cached, i.sourceCached);
    if SummaryIdentity(s) in CandidateIdentities(candidates) {
      var k :| 0 <= k < |candidates| && CandidateIdentities(candidates)[k] == SummaryIdentity(s);
      assert candidates[k] in candidates;
      ProcessedIsFetched(e, i, id, candidates[k], s);
    }
  }

  /** A post that is not fetched keeps its summary. */
  lemma HashStaysUnfetched(e: Engine, i: Inputs, id: string)
    requires FaithfulInputs(i) && DistinctFetch(i) && OneSpelling(e, i, id) && i.latest.Some? && !Fetched(i, id)
    ensures LastHash(SummariesOf(Processed(e, i)), PostKey(e, id)) == None
    ensures LastHash(BaseSummaries(i.latest, Processed(e, i)), PostKey(e, id)) == LastHash(i.latest.value.summaries, PostKey(e, id))
  {
    UnfetchedAddsNothing(e, i, id);
    forall s | s in i.latest.value.summaries && SummaryKey(s) == Some(PostKey(e, id))
      ensures SummaryIdentity(s) !in IdentitiesOf(Processed(e, i))
    {
      UnfetchedIsKept(e, i, id, s);
    }
    LastHashExcluding(i.latest.value.summaries, IdentitiesOf(Processed(e, i)), PostKey(e, id));
  }

  /** A post that is fetched, edited or not, keeps it as well. */
  lemma HashStaysFetched(e: Engine, i: Inputs, c: Candidate, h: string)
    requires LocalStore(e, i) && Sound(i.latest.value) && TrimmedSources(i.latest.value) && DistinctFetch(i)
    requires c in Candidates(i.bookmarks, i.videos, i.processLimit) && c.sourceType == SOURCE_X && e.hash(c) != ""
    requires LastHash(i.latest.value.summaries, PostKey(e, c.externalID)) == Some(h) && h != ""
    ensures var added, base := LastHash(SummariesOf(Processed(e, i)), PostKey(e, c.externalID)),
        LastHash(BaseSummaries(i.latest, Processed(e, i)), PostKey(e, c.externalID));
      (if added.Some? then added else base) == Some(h)
    ensures Known(e, i.states, c) <==> e.hash(c) == h
    ensures e.hash(c) != h ==> Stale(e, i, c) && i.sourceCached[SourceKey(e, c)].summary.captureHash == h
  {
    var key := PostKey(e, c.externalID);
    assert key == CandidateKey(e, c);
    LocalStoreInputs(e, i);
    StateIsLastHash(i.latest.value.summaries, key);
    if e.hash(c) == h {
      StateOfKnown(e, i, c);
    } else {
      EditedIsStale(e, i, c);
      var s := LastHashSummary(i.latest.value.summaries, key);
      assert UsableKey(e, c);
      StateOfNew(e, i, c);
    }
  }

  /** So a saved cycle leaves a post with the capture hash it was first synthesised from. */
  lemma HashStays(e: Engine, i: Inputs, id: string, h: string)
    requires LocalStore(e, i) && Sound(i.latest.value) && TrimmedSources(i.latest.value) && DistinctFetch(i) && OneSpelling(e, i, id)
    requires LastHash(i.latest.value.summaries, PostKey(e, id)) == Some(h) && h != ""
    ensures LastHash(Result(e, i.latest, i.bookmarks, i.videos, Processed(e, i)).summaries, PostKey(e, id)) == Some(h)
  {
    LocalStoreInputs(e, i);
    ResultSummaries(e, i.latest, i.bookmarks, i.videos, Processed(e, i));
    LastHashAppend(BaseSummaries(i.latest, Processed(e, i)), SummariesOf(Processed(e, i)), PostKey(e, id));
    if Fetched(i, id) {
      var c :| c in Candidates(i.bookmarks, i.videos, i.processLimit) && c.sourceType == SOURCE_X && c.externalID == id;
      HashStaysFetched(e, i, c, h);
    } else {
      HashStaysUnfetched(e, i, id);
    }
  }

  /** The run in the local store after a history of cycles that began with `start`. */
  function StoredFrom(e: Engine, start: Run, history: seq<Inputs>): Run {
    if history == [] then start
    else
      var before := StoredFrom(e, start, history[..|history| - 1]);
      match Cycle(e, history[|history| - 1].(latest := Some(before)))
      case Saved(run, _) => run
      case Unchanged(_) => before
      case Failed => before
      case Unsaved => before
  }

  /** What cycle `k` starts from. */
  function InputsAt(e: Engine, start: Run, history: seq<Inputs>, k: nat): Inputs
    requires k < |history|
  {
    history[k].(latest := Some(StoredFrom(e, start, history[..k])))
  }

  /** Every cycle reads the local store, unless the lookup of states fails. */
  ghost predicate LocalCycle(e: Engine, i: Inputs, id: string) {
    DistinctFetch(i) && OneSpelling(e, i, id) && (i.statesFailed || LocalStore(e, i))
  }

  ghost predicate LocalHistory(e: Engine, start: Run, history: seq<Inputs>, id: string) {
    forall k :: 0 <= k < |history| ==> LocalCycle(e, InputsAt(e, start, history, k), id)
  }

  /** A stored run with a synthesis of the post from a capture with hash `h`. */
  ghost predicate Holds(e: Engine, run: Run, id: string, h: string) {
    Sound(run) && TrimmedSources(run) && LastHash(run.summaries, PostKey(e, id)) == Some(h) && h != ""
  }

  lemma CycleHolds(e: Engine, i: Inputs, id: string, h: string)
    requires i.latest.Some? && Holds(e, i.latest.value, id, h) && LocalCycle(e, i, id) && Cycle(e, i).Saved?
    ensures Holds(e, Cycle(e, i).run, id, h)
  {
    LocalStoreInputs(e, i);
    HashStays(e, i, id, h);
    CycleConserves(e, i);
    ResultTrimmed(e, i);
  }

  lemma {:induction false} HistoryHolds(e: Engine, start: Run, history: seq<Inputs>, id: string, h: string)
    requires Holds(e, start, id, h) && LocalHistory(e, start, history, id)
    ensures Holds(e, StoredFrom(e, start, history), id, h)
  {
    if history != [] {
      var n := |history| - 1;
      forall k | 0 <= k < n ensures LocalCycle(e, InputsAt(e, start, history[..n], k), id) {
        assert history[..n][..k] == history[..k];
        assert LocalCycle(e, InputsAt(e, start, history, k), id);
      }
      HistoryHolds(e, start, history[..n], id, h);
      assert LocalCycle(e, InputsAt(e, start, history, n), id);
      if Cycle(e, InputsAt(e, start, history, n)).Saved? {
        CycleHolds(e, InputsAt(e, start, history, n), id, h);
      }
    }
  }

  /** Over every history of cycles: an X post is synthesised once. Whenever it is fetched with another
      capture than that one it is found new and served the old synthesis, and whatever happens the
      stored summary stays the one of the old capture, so that it is edited for ever. */
  lemma {:induction false} EditedForEver(e: Engine, start: Run, history: seq<Inputs>, k: nat, id: string, h: string, c: Candidate)
    requires Holds(e, start, id, h) && LocalHistory(e, start, history, id) && k < |history|
    requires c.sourceType == SOURCE_X && c.externalID == id && e.hash(c) != "" && e.hash(c) != h
    ensures Holds(e, StoredFrom(e, start, history), id, h) && Edited(e, StoredFrom(e, start, history), c)
    ensures var i := InputsAt(e, start, history, k);
      c in Candidates(i.bookmarks, i.videos, i.processLimit) && !i.statesFailed ==>
        Stale(e, i, c) && i.sourceCached[SourceKey(e, c)].summary.captureHash == h
  {
    HistoryHolds(e, start, history, id, h);
    forall j | 0 <= j < k ensures LocalCycle(e, InputsAt(e, start, history[..k], j), id) {
      assert history[..k][..j] == history[..j];
      assert LocalCycle(e, InputsAt(e, start, history, j), id);
    }
    HistoryHolds(e, start, history[..k], id, h);
    var i := InputsAt(e, start, history, k);
    assert LocalCycle(e, i, id);
    if c in Candidates(i.bookmarks, i.videos, i.processLimit) && !i.statesFailed {
      HashStaysFetched(e, i, c, h);
    }
  }

  // ---------------------------------------------------------------- an edited post

  lemma OneSummaryRun(run: Run, s: Summary, key: MaterialKey)
    requires run.summaries == [s] && SummaryKey(s) == Some(key) && s.source == SOURCE_X
    ensures LastHash(run.summaries, key) == Some(s.captureHash)
    ensures Distinct(Identities(run.summaries)) && NoEmptyIdentity(run.summaries) && TrimmedSources(run)
  {
    assert SummaryIdentity(s)[0] == 'x';
  }

  lemma XSummaryKey(e: Engine, s: Summary, id: string)
    requires s.source == SOURCE_X && s.id == id && s.promptVersion == PROMPT_VERSION && s.model == e.model
    requires !Blank(id) && !Blank(e.model)
    ensures SummaryKey(s) == Some(PostKey(e, id))
  {
    PromptNotBlank();
    KnownType(SOURCE_X);
  }

  /** A stored run with one post and its synthesis, and a cycle that fetches only that post, with a
      new text, and reads states and syntheses from that run. */
  ghost predicate OnePostEdited(e: Engine, i: Inputs, run: Run, held: Summary, c: Candidate) {
    && c.sourceType == SOURCE_X && !Blank(c.externalID) && !Blank(e.model)
    && held == Summary(SOURCE_X, c.externalID, "h1", PROMPT_VERSION, e.model, "old", [], "generated") && e.hash(c) == "h2"
    && run == Run([Item(c.externalID, Post("old text"))], [], [held], [], [])
    && i == Inputs([Item(c.externalID, Post(c.body))], [], 0, 0, false, StatesOf([held]), Some(run), false,
         ReadCachedSyntheses([held], [], [], {ExactKey(e, c)}), ReadCachedSyntheses([held], [], [], {SourceKey(e, c)}), false)
  }

  lemma OnePostIsNew(e: Engine, i: Inputs, run: Run, held: Summary, c: Candidate)
    requires OnePostEdited(e, i, run, held, c)
    ensures Candidates(i.bookmarks, i.videos, i.processLimit) == [c]
    ensures Holds(e, run, c.externalID, "h1") && !Known(e, i.states, c)
  {
    XSummaryKey(e, held, c.externalID);
    OneSummaryRun(run, held, PostKey(e, c.externalID));
    StateIsLastHash(run.summaries, CandidateKey(e, c));
    OneCandidate(i.bookmarks, c.externalID, c.body);
  }

  lemma OneWanted(e: Engine, i: Inputs, c: Candidate, candidates: seq<Candidate>)
    requires candidates == [c] && !Known(e, i.states, c)
    ensures (set d | d in candidates && !Known(e, i.states, d) :: ExactKey(e, d)) == {ExactKey(e, c)}
    ensures (set d | d in candidates && !Known(e, i.states, d) :: SourceKey(e, d)) == {SourceKey(e, c)}
  {
  }

  lemma OnePostIsLocal(e: Engine, i: Inputs, run: Run, held: Summary, c: Candidate)
    requires OnePostEdited(e, i, run, held, c)
    ensures LocalStore(e, i)
  {
    OnePostIsNew(e, i, run, held, c);
    OneWanted(e, i, c, Candidates(i.bookmarks, i.videos, i.processLimit));
  }

  lemma OnePostIsSaved(e: Engine, i: Inputs, c: Candidate)
    requires c in Candidates(i.bookmarks, i.videos, i.processLimit) && !Known(e, i.states, c) && !i.statesFailed && !i.saveFails
    ensures Cycle(e, i).Saved?
  {
    FilteredMembers(e, i.states, Candidates(i.bookmarks, i.videos, i.processLimit), false);
    assert c in NewCandidates(e, i);
  }

  /** A post that hashes to "h2" after an edit: the cycle that fetches it saves a run, and the
      summary in that run is still the one from the capture with hash "h1". */
  lemma EditedPost(e: Engine, i: Inputs, run: Run, held: Summary, c: Candidate)
    requires OnePostEdited(e, i, run, held, c)
    ensures Holds(e, run, c.externalID, "h1") && LocalHistory(e, run, [i], c.externalID)
    ensures c in Candidates(i.bookmarks, i.videos, i.processLimit) && Edited(e, run, c)
    ensures Cycle(e, i).Saved? && Holds(e, Cycle(e, i).run, c.externalID, "h1") && Edited(e, Cycle(e, i).run, c)
  {
    OnePostIsNew(e, i, run, held, c);
    OnePostIsLocal(e, i, run, held, c);
    OnePostIsSaved(e, i, c);
    assert [i][..0] == [] && InputsAt(e, run, [i], 0) == i;
    assert LocalCycle(e, i, c.externalID);
    CycleHolds(e, i, c.externalID, "h1");
  }

  /** Such a post: its ID is "1", the model "m", and every capture hashes to "h2" now. */
  lemma EditedPostExists() returns (e: Engine, i: Inputs, run: Run, held: Summary, c: Candidate)
    ensures OnePostEdited(e, i, run, held, c)
  {
    ShortTexts();
    c := Candidate(SOURCE_X, "1", "new text");
    e := Engine("m", (_: Candidate) => "h2", (_: Candidate, _: string) => Payload("", [], [], []), (ranked: seq<Insight>) => ranked);
    held := Summary(SOURCE_X, c.externalID, "h1", PROMPT_VERSION, e.model, "old", [], "generated");
    run := Run([Item(c.externalID, Post("old text"))], [], [held], [], []);
    i := Inputs([Item(c.externalID, Post(c.body))], [], 0, 0, false, StatesOf([held]), Some(run), false,
      ReadCachedSyntheses([held], [], [], {ExactKey(e, c)}), ReadCachedSyntheses([held], [], [], {SourceKey(e, c)}), false);
  }

  lemma ShortTexts()
    ensures !Blank("1") && !Blank("m")
  {
    assert Trim("1") == "1" && Trim("m") == "m";
  }
}
