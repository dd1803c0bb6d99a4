/** Looking again at the same candidates after a saved cycle: all are known then, except the
    ones without a usable key and the ones that a stale cached synthesis served. */
module RefreshQuiescence {
  import opened Basics
  import opened Text
  import opened SourceMaterial
  import opened RefreshCycle
  import opened RefreshTheorems
  import opened RefreshConservation

  // ---------------------------------------------------------------- the state of a key

  /** The capture hash of the last summary with that key. */
  function LastHash(summaries: seq<Summary>, key: MaterialKey): Option<string> {
    if summaries == [] then None
    else if SummaryKey(summaries[|summaries| - 1]) == Some(key) then Some(summaries[|summaries| - 1].captureHash)
    else LastHash(summaries[..|summaries| - 1], key)
  }

  lemma {:induction false} StateIsLastHash(summaries: seq<Summary>, key: MaterialKey)
    ensures key in StatesOf(summaries) <==> LastHash(summaries, key).Some?
    ensures key in StatesOf(summaries) ==>
      StatesOf(summaries)[key] == MaterialState(LastHash(summaries, key).value, true)
  {
    if summaries != [] {
      StateIsLastHash(summaries[..|summaries| - 1], key);
    }
  }

  lemma {:induction false} LastHashAppend(a: seq<Summary>, b: seq<Summary>, key: MaterialKey)
    ensures LastHash(a + b, key) == if LastHash(b, key).Some? then LastHash(b, key) else LastHash(a, key)
  {
    if b == [] {
      assert a + b == a;
    } else {
      assert (a + b)[..|a| + |b| - 1] == a + b[..|b| - 1];
      LastHashAppend(a, b[..|b| - 1], key);
    }
  }

  lemma {:induction false} LastHashExcluding(summaries: seq<Summary>, exclude: set<string>, key: MaterialKey)
    requires forall s :: s in summaries && SummaryKey(s) == Some(key) ==> SummaryIdentity(s) !in exclude
    ensures LastHash(SummariesExcluding(summaries, exclude), key) == LastHash(summaries, key)
  {
    if summaries != [] {
      var init, last := summaries[..|summaries| - 1], summaries[|summaries| - 1];
      assert summaries == init + [last];
      LastHashExcluding(init, exclude, key);
      var kept := SummariesExcluding(init, exclude);
      assert (kept + [last])[..|kept|] == kept;
    }
  }

  lemma {:induction false} LastHashNone(summaries: seq<Summary>, key: MaterialKey)
    requires forall k :: 0 <= k < |summaries| ==> SummaryKey(summaries[k]) != Some(key)
    ensures LastHash(summaries, key) == None
  {
    if summaries != [] {
      LastHashNone(summaries[..|summaries| - 1], key);
    }
  }

  lemma {:induction false} LastHashOnly(summaries: seq<Summary>, key: MaterialKey, j: nat)
    requires j < |summaries| && SummaryKey(summaries[j]) == Some(key)
    requires forall k :: 0 <= k < |summaries| && k != j ==> SummaryKey(summaries[k]) != Some(key)
    ensures LastHash(summaries, key) == Some(summaries[j].captureHash)
  {
    if j < |summaries| - 1 {
      LastHashOnly(summaries[..|summaries| - 1], key, j);
    }
  }

  // ---------------------------------------------------------------- sources and keys

  lemma {:induction false} TrimRightPrefix(s: string)
    ensures |TrimRight(s)| <= |s| && s[..|TrimRight(s)|] == TrimRight(s)
    ensures |TrimRight(s)| < |s| ==> IsSpace(s[|TrimRight(s)|])
  {
    if s != [] && IsSpace(s[|s| - 1]) {
      TrimRightPrefix(s[..|s| - 1]);
    }
  }

  lemma KnownType(sourceType: SourceType)
    requires sourceType == SOURCE_X || sourceType == SOURCE_YOUTUBE
    ensures Trim(sourceType) == sourceType && sourceType != ""
  {
  }

  lemma NoLaterColon(source: string, id: string, n: nat)
    requires n <= |source| && Identity(source, id)[n] == ':' && (n < |source| ==> IsSpace(source[n]))
    ensures n == |source|
  {
  }

  /** A source that trims to a known type can only share an identity with a source of that
      very type. */
  lemma IdentityFixesSource(source: SourceType, id: string, sourceType: SourceType, other: string)
    requires Trim(source) in {SOURCE_X, SOURCE_YOUTUBE} && sourceType in {SOURCE_X, SOURCE_YOUTUBE}
    requires Identity(source, id) == Identity(sourceType, other)
    ensures Trim(source) == sourceType && Trim(id) == Trim(other)
  {
    var a, b := Identity(source, id), Identity(sourceType, other);
    assert source != "";
    assert a[0] == source[0] && b[0] == sourceType[0];
    assert TrimLeft(source) == source;
    TrimRightPrefix(source);
    var trimmed := Trim(source);
    assert trimmed == source[..|trimmed|] && trimmed[0] == source[0];
    assert trimmed == sourceType;
    NoLaterColon(source, id, |trimmed|);
    assert source == sourceType;
    IdentityInjective(sourceType, id, other);
  }

  // ---------------------------------------------------------------- hashes and processing

  lemma {:induction false} HashFound(e: Engine, candidates: seq<Candidate>, k: nat)
    requires k < |candidates| && DistinctSources(candidates)
    requires forall c :: c in candidates ==> c.sourceType == SOURCE_X || c.sourceType == SOURCE_YOUTUBE
    ensures HashIn(CaptureHashes(e, candidates), candidates[k]) == e.hash(candidates[k])
  {
    var n := |candidates| - 1;
    if k < n {
      var init := candidates[..n];
      assert candidates == init + [candidates[n]];
      HashFound(e, init, k);
      SameKeySameIdentity(candidates[k], candidates[n]);
    }
  }

  lemma SameKeySameIdentity(a: Candidate, b: Candidate)
    requires a.sourceType in {SOURCE_X, SOURCE_YOUTUBE} && b.sourceType in {SOURCE_X, SOURCE_YOUTUBE}
    ensures a.sourceType + ":" + a.externalID == b.sourceType + ":" + b.externalID ==> CandidateIdentity(a) == CandidateIdentity(b)
  {
    var x, y := a.sourceType + ":" + a.externalID, b.sourceType + ":" + b.externalID;
    if x == y {
      assert x[0] == a.sourceType[0] && y[0] == b.sourceType[0];
      assert x[|a.sourceType| + 1..] == a.externalID && y[|b.sourceType| + 1..] == b.externalID;
    }
  }

  /** The candidate `c` is new and a synthesis of another capture of its source serves it. */
  ghost predicate Stale(e: Engine, i: Inputs, c: Candidate) {
    var exact := CacheKey(c.sourceType, c.externalID, e.hash(c), PROMPT_VERSION, e.model);
    var any := exact.(captureHash := "");
    && !Known(e, i.states, c)
    && exact !in i.cached
    && c.sourceType != SOURCE_YOUTUBE && any in i.sourceCached
    && i.sourceCached[any].summary.captureHash != "" && i.sourceCached[any].summary.captureHash != e.hash(c)
  }

  ghost predicate UsableKey(e: Engine, c: Candidate) {
    !Blank(c.externalID) && !Blank(e.model)
  }

  /** The latest run has a summary of this key whose capture hash, the last one, fits the candidate. */
  ghost predicate Recorded(e: Engine, i: Inputs, c: Candidate) {
    && i.latest.Some?
    && var before := LastHash(i.latest.value.summaries, CandidateKey(e, c));
       before.Some? && (before.value == "" || before.value == e.hash(c))
  }

  lemma PromptNotBlank()
    ensures !Blank(PROMPT_VERSION)
  {
    assert PROMPT_VERSION[0] == 's' && PROMPT_VERSION[|PROMPT_VERSION| - 1] == 'y';
    assert TrimLeft(PROMPT_VERSION) == PROMPT_VERSION;
  }

  /** What a processed candidate leaves in its summary. */
  lemma ProcessedHash(e: Engine, i: Inputs, c: Candidate)
    requires FaithfulInputs(i) && !Known(e, i.states, c) && e.hash(c) != ""
    ensures var s := ProcessSourceCandidate(e, c, e.hash(c), i.cached, i.sourceCached).record.summary;
      && (UsableKey(e, c) && c.sourceType in {SOURCE_X, SOURCE_YOUTUBE} ==> SummaryKey(s) == Some(CandidateKey(e, c)))
      && (s.captureHash != "" && s.captureHash != e.hash(c) <==> Stale(e, i, c))
  {
    var key := CacheKey(c.sourceType, c.externalID, e.hash(c), PROMPT_VERSION, e.model);
    ProcessedMatches(e, c, e.hash(c), i.cached, i.sourceCached);
    if key in i.cached {
      assert RecordMatches(key, i.cached[key]);
    }
    PromptNotBlank();
    if c.sourceType in {SOURCE_X, SOURCE_YOUTUBE} {
      KnownType(c.sourceType);
    }
  }

  /** The keys of processed summaries are those of their candidates. */
  lemma ProcessedKeys(e: Engine, i: Inputs, c: Candidate, j: nat)
    requires FaithfulInputs(i) && DistinctFetch(i)
    requires j < |NewCandidates(e, i)|
    requires c in Candidates(i.bookmarks, i.videos, i.processLimit)
    ensures SummaryKey(SummariesOf(Processed(e, i))[j]) == Some(CandidateKey(e, c)) ==> NewCandidates(e, i)[j].externalID == c.externalID && NewCandidates(e, i)[j].sourceType == c.sourceType
    ensures SummariesOf(Processed(e, i))[j] ==
      ProcessSourceCandidate(e, NewCandidates(e, i)[j], e.hash(NewCandidates(e, i)[j]), i.cached, i.sourceCached).record.summary
  {
    var candidates := NewCandidates(e, i);
    NewCandidatesDistinct(e, i);
    FilteredMembers(e, i.states, Candidates(i.bookmarks, i.videos, i.processLimit), false);
    forall d | d in candidates ensures d.sourceType == SOURCE_X || d.sourceType == SOURCE_YOUTUBE {
      CandidateSource(i, d);
    }
    HashFound(e, candidates, j);
    ProcessedAt(e, CaptureHashes(e, candidates), candidates, i.cached, i.sourceCached, j);
    ProcessedMatches(e, candidates[j], e.hash(candidates[j]), i.cached, i.sourceCached);
    KnownType(candidates[j].sourceType);
  }

  /** A new candidate's state after the cycle is the one its own summary gives. */
  lemma StateOfNew(e: Engine, i: Inputs, c: Candidate)
    requires FaithfulInputs(i) && DistinctFetch(i) && e.hash(c) != ""
    requires c in Candidates(i.bookmarks, i.videos, i.processLimit) && !Known(e, i.states, c) && UsableKey(e, c)
    ensures LastHash(SummariesOf(Processed(e, i)), CandidateKey(e, c)) ==
      Some(ProcessSourceCandidate(e, c, e.hash(c), i.cached, i.sourceCached).record.summary.captureHash)
  {
    var candidates, key := NewCandidates(e, i), CandidateKey(e, c);
    var summaries := SummariesOf(Processed(e, i));
    FilteredMembers(e, i.states, Candidates(i.bookmarks, i.videos, i.processLimit), false);
    NewCandidatesDistinct(e, i);
    var j :| 0 <= j < |candidates| && candidates[j] == c;
    ProcessedKeys(e, i, c, j);
    ProcessedHash(e, i, c);
    CandidateSource(i, c);
    forall k | 0 <= k < |summaries| && k != j ensures SummaryKey(summaries[k]) != Some(key) {
      ProcessedKeys(e, i, c, k);
      assert CandidateIdentity(candidates[j]) != CandidateIdentity(candidates[k]);
    }
    LastHashOnly(summaries, key, j);
  }

  lemma KnownIsNotNew(e: Engine, i: Inputs, c: Candidate, d: Candidate, s: Summary)
    requires FaithfulInputs(i) && DistinctFetch(i)
    requires c in Candidates(i.bookmarks, i.videos, i.processLimit) && Known(e, i.states, c) && d in NewCandidates(e, i)
    requires SummaryKey(s) == Some(CandidateKey(e, c))
    ensures SummaryIdentity(s) != CandidateIdentity(d)
  {
    FilteredMembers(e, i.states, Candidates(i.bookmarks, i.videos, i.processLimit), false);
    CandidateSource(i, c);
    CandidateSource(i, d);
    OtherIdentity(e, i, c, d);
    if SummaryIdentity(s) == CandidateIdentity(d) {
      IdentityFixesSource(s.source, s.id, d.sourceType, d.externalID);
    }
  }

  /** A summary with a known candidate's key does not belong to a source that was processed. */
  lemma KnownIsNotProcessed(e: Engine, i: Inputs, c: Candidate, s: Summary)
    requires FaithfulInputs(i) && DistinctFetch(i)
    requires c in Candidates(i.bookmarks, i.videos, i.processLimit) && Known(e, i.states, c)
    requires SummaryKey(s) == Some(CandidateKey(e, c))
    ensures SummaryIdentity(s) !in IdentitiesOf(Processed(e, i))
  {
    var candidates := NewCandidates(e, i);
    ProcessedIdentities(e, candidates, i.cached, i.sourceCached);
    if SummaryIdentity(s) in CandidateIdentities(candidates) {
      var k :| 0 <= k < |candidates| && CandidateIdentities(candidates)[k] == SummaryIdentity(s);
      KnownIsNotNew(e, i, c, candidates[k], s);
    }
  }

  lemma KnownHasNoNewSummary(e: Engine, i: Inputs, c: Candidate)
    requires FaithfulInputs(i) && DistinctFetch(i)
    requires c in Candidates(i.bookmarks, i.videos, i.processLimit) && Known(e, i.states, c)
    ensures LastHash(SummariesOf(Processed(e, i)), CandidateKey(e, c)) == None
  {
    var candidates, key := NewCandidates(e, i), CandidateKey(e, c);
    var summaries := SummariesOf(Processed(e, i));
    FilteredMembers(e, i.states, Candidates(i.bookmarks, i.videos, i.processLimit), false);
    DistinctCandidates(i);
    CandidateSource(i, c);
    forall k | 0 <= k < |summaries| ensures SummaryKey(summaries[k]) != Some(key) {
      ProcessedKeys(e, i, c, k);
      OtherIdentity(e, i, c, candidates[k]);
    }
    LastHashNone(summaries, key);
  }

  /** A known candidate keeps its state. */
  lemma StateOfKnown(e: Engine, i: Inputs, c: Candidate)
    requires FaithfulInputs(i) && DistinctFetch(i)
    requires c in Candidates(i.bookmarks, i.videos, i.processLimit) && Known(e, i.states, c)
    ensures LastHash(SummariesOf(Processed(e, i)), CandidateKey(e, c)) == None
    ensures LastHash(BaseSummaries(i.latest, Processed(e, i)), CandidateKey(e, c)) ==
      if i.latest.Some? then LastHash(i.latest.value.summaries, CandidateKey(e, c)) else None
  {
    KnownHasNoNewSummary(e, i, c);
    if i.latest.Some? {
      var key := CandidateKey(e, c);
      forall s | s in i.latest.value.summaries && SummaryKey(s) == Some(key)
        ensures SummaryIdentity(s) !in IdentitiesOf(Processed(e, i))
      {
        KnownIsNotProcessed(e, i, c, s);
      }
      LastHashExcluding(i.latest.value.summaries, IdentitiesOf(Processed(e, i)), key);
    }
  }

  lemma OtherIdentity(e: Engine, i: Inputs, c: Candidate, d: Candidate)
    requires DistinctFetch(i) && c in Candidates(i.bookmarks, i.videos, i.processLimit)
    requires Known(e, i.states, c) && d in NewCandidates(e, i)
    ensures CandidateIdentity(c) != CandidateIdentity(d)
  {
    var all := Candidates(i.bookmarks, i.videos, i.processLimit);
    FilteredMembers(e, i.states, all, false);
    DistinctCandidates(i);
    var j :| 0 <= j < |all| && all[j] == c;
    var k :| 0 <= k < |all| && all[k] == d;
    assert j != k;
  }

  // ---------------------------------------------------------------- quiescence

  /** After a saved cycle, wherever it looked up the states, a candidate is new again exactly when
      its key is unusable, or it was new and served from a cached synthesis of another capture of its
      source, or it was taken for known while the latest run has no fitting summary of it. */
  lemma Quiescence(e: Engine, i: Inputs, c: Candidate)
    requires FaithfulInputs(i) && DistinctFetch(i) && e.hash(c) != ""
    requires c in Candidates(i.bookmarks, i.videos, i.processLimit)
    ensures var run := Result(e, i.latest, i.bookmarks, i.videos, Processed(e, i));
      !Known(e, StatesOf(run.summaries), c) <==>
        !UsableKey(e, c) || (if Known(e, i.states, c) then !Recorded(e, i, c) else Stale(e, i, c))
  {
    var run := Result(e, i.latest, i.bookmarks, i.videos, Processed(e, i));
    var key := CandidateKey(e, c);
    ResultSummaries(e, i.latest, i.bookmarks, i.videos, Processed(e, i));
    StateIsLastHash(run.summaries, key);
    LastHashAppend(BaseSummaries(i.latest, Processed(e, i)), SummariesOf(Processed(e, i)), key);
    if !UsableKey(e, c) {
      LastHashNone(run.summaries, key);
    } else if Known(e, i.states, c) {
      StateOfKnown(e, i, c);
    } else {
      StateOfNew(e, i, c);
      ProcessedHash(e, i, c);
    }
  }
}
