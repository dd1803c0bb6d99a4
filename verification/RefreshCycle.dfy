/** One refresh: which candidates are new, what processing them gives, and how the result is
    assembled from the previous run and saved. */
module RefreshCycle {
  import opened Basics
  import opened Text
  import opened SourceMaterial

  datatype MaterialKey = MaterialKey(sourceType: SourceType, externalID: string, promptVersion: string, model: string)

  datatype MaterialState = MaterialState(latestCaptureHash: string, processed: bool)

  type States = map<MaterialKey, MaterialState>

  datatype CacheKey = CacheKey(
    sourceType: SourceType, externalID: string, captureHash: string, promptVersion: string, model: string)

  type Cache = map<CacheKey, Record>

  /** What the language model answers for one source. */
  datatype Payload = Payload(body: string, markers: seq<string>, insights: seq<string>, actions: seq<string>)

  /** The parts of the service that are not modelled: the configured model, the capture hash
      of a candidate, the answer for it, and the ranking of insights. */
  datatype Engine = Engine(
    model: string,
    hash: Candidate -> string,
    answer: (Candidate, string) -> Payload,
    rank: seq<Insight> -> seq<Insight>)

  // ---------------------------------------------------------------- candidates

  function BookmarkCandidates(bookmarks: seq<Bookmark>): seq<Candidate> {
    if bookmarks == [] then []
    else
      var b := bookmarks[|bookmarks| - 1];
      BookmarkCandidates(bookmarks[..|bookmarks| - 1]) + [Candidate(SOURCE_X, b.id, b.detail.body)]
  }

  /** A video without a transcript is no candidate. */
  function VideoCandidates(videos: seq<Video>): seq<Candidate> {
    if videos == [] then []
    else
      var v := videos[|videos| - 1];
      VideoCandidates(videos[..|videos| - 1]) +
      (if Blank(v.detail.transcript) then [] else [Candidate(SOURCE_YOUTUBE, v.id, v.detail.transcript)])
  }

  function Candidates(bookmarks: seq<Bookmark>, videos: seq<Video>, processLimit: int): seq<Candidate> {
    var x := BookmarkCandidates(bookmarks);
    (if processLimit > 0 && |x| > processLimit then x[..processLimit] else x) + VideoCandidates(videos)
  }

  // ---------------------------------------------------------------- what is new

  function CandidateKey(e: Engine, c: Candidate): MaterialKey {
    MaterialKey(c.sourceType, c.externalID, PROMPT_VERSION, e.model)
  }

  predicate Known(e: Engine, states: States, c: Candidate) {
    var key := CandidateKey(e, c);
    key in states && states[key].processed
    && (states[key].latestCaptureHash == "" || states[key].latestCaptureHash == e.hash(c))
  }

  /** The candidates that are known, or those that are not, in their order. */
  function Filtered(e: Engine, states: States, candidates: seq<Candidate>, known: bool): seq<Candidate> {
    if candidates == [] then []
    else
      var rest := Filtered(e, states, candidates[..|candidates| - 1], known);
      var c := candidates[|candidates| - 1];
      if Known(e, states, c) == known then rest + [c] else rest
  }

  method FilterNewSourceCandidates(e: Engine, candidates: seq<Candidate>, states: States)
    returns (newCandidates: seq<Candidate>, skipped: seq<Candidate>)
    ensures newCandidates == Filtered(e, states, candidates, false)
    ensures skipped == Filtered(e, states, candidates, true)
  {
    newCandidates, skipped := [], [];
    for i := 0 to |candidates|
      invariant newCandidates == Filtered(e, states, candidates[..i], false)
      invariant skipped == Filtered(e, states, candidates[..i], true)
    {
      var candidate := candidates[i];
      assert candidates[..i + 1][..i] == candidates[..i];
      var key := MaterialKey(candidate.sourceType, candidate.externalID, PROMPT_VERSION, e.model);
      if key in states && states[key].processed {
        var captureHash := e.hash(candidate);
        if states[key].latestCaptureHash == "" || states[key].latestCaptureHash == captureHash {
          skipped := skipped + [candidate];
          continue;
        }
      }
      newCandidates := newCandidates + [candidate];
    }
    assert candidates[..|candidates|] == candidates;
  }

  /** The state a summary stands for, if it stands for one. */
  function SummaryKey(s: Summary): Option<MaterialKey> {
    if Trim(s.source) == "" || Blank(s.id) || Blank(s.promptVersion) || Blank(s.model) then None
    else Some(MaterialKey(Trim(s.source), s.id, s.promptVersion, s.model))
  }

  function StatesOf(summaries: seq<Summary>): States {
    if summaries == [] then map[]
    else
      var rest, s := StatesOf(summaries[..|summaries| - 1]), summaries[|summaries| - 1];
      match SummaryKey(s)
      case None => rest
      case Some(key) => rest[key := MaterialState(s.captureHash, true)]
  }

  method SourceMaterialStatesFromResult(run: Run) returns (states: States)
    ensures states == StatesOf(run.summaries)
  {
    states := map[];
    for i := 0 to |run.summaries|
      invariant states == StatesOf(run.summaries[..i])
    {
      var summary := run.summaries[i];
      assert run.summaries[..i + 1][..i] == run.summaries[..i];
      var sourceType := Trim(summary.source);
      if sourceType == "" || Blank(summary.id) || Blank(summary.promptVersion) || Blank(summary.model) {
        continue;
      }
      states := states[MaterialKey(sourceType, summary.id, summary.promptVersion, summary.model) :=
        MaterialState(summary.captureHash, true)];
    }
    assert run.summaries[..|run.summaries|] == run.summaries;
  }

  // ---------------------------------------------------------------- processing

  function NotBlank(values: seq<string>): seq<string> {
    if values == [] then []
    else
      NotBlank(values[..|values| - 1]) + (if Blank(values[|values| - 1]) then [] else [values[|values| - 1]])
  }

  function Thoughts(c: Candidate, bodies: seq<string>): seq<Insight> {
    if bodies == [] then []
    else Thoughts(c, bodies[..|bodies| - 1]) + [Note(c.sourceType, c.externalID, Thought(bodies[|bodies| - 1], "generated"))]
  }

  function Tasks(c: Candidate, bodies: seq<string>): seq<Action> {
    if bodies == [] then []
    else Tasks(c, bodies[..|bodies| - 1]) + [Note(c.sourceType, c.externalID, Task(bodies[|bodies| - 1], "generated"))]
  }

  function SynthesizeCandidate(e: Engine, c: Candidate, captureHash: string): Record {
    var payload := e.answer(c, captureHash);
    Record(
      captureHash,
      Summary(c.sourceType, c.externalID, captureHash, PROMPT_VERSION, e.model, payload.body, payload.markers, "generated"),
      Thoughts(c, NotBlank(payload.insights)),
      Tasks(c, NotBlank(payload.actions)))
  }

  function MarkThoughts(insights: seq<Insight>): seq<Insight> {
    if insights == [] then []
    else
      var last := insights[|insights| - 1];
      MarkThoughts(insights[..|insights| - 1]) + [last.(detail := last.detail.(cacheStatus := "cached"))]
  }

  function MarkTasks(actions: seq<Action>): seq<Action> {
    if actions == [] then []
    else
      var last := actions[|actions| - 1];
      MarkTasks(actions[..|actions| - 1]) + [last.(detail := last.detail.(cacheStatus := "cached"))]
  }

  function MarkCached(record: Record): Record {
    record.(summary := record.summary.(cacheStatus := "cached"),
            insights := MarkThoughts(record.insights), actions := MarkTasks(record.actions))
  }

  /** The cached synthesis that serves a candidate: the one of its very capture, or, unless it
      is a video, any one of its source. */
  function CacheHit(e: Engine, c: Candidate, captureHash: string, cached: Cache, sourceCached: Cache): Option<Record> {
    var key := CacheKey(c.sourceType, c.externalID, captureHash, PROMPT_VERSION, e.model);
    var sourceKey := key.(captureHash := "");
    if key in cached then Some(cached[key])
    else if c.sourceType != SOURCE_YOUTUBE && sourceKey in sourceCached then Some(sourceCached[sourceKey])
    else None
  }

  function ProcessSourceCandidate(e: Engine, c: Candidate, captureHash: string, cached: Cache, sourceCached: Cache): ProcessedSource {
    match CacheHit(e, c, captureHash, cached, sourceCached)
    case Some(record) =>
      var exact := CacheKey(c.sourceType, c.externalID, captureHash, PROMPT_VERSION, e.model) in cached;
      ProcessedSource(c.sourceType, c.externalID, if exact then captureHash else record.captureHash, MarkCached(record), true)
    case None =>
      ProcessedSource(c.sourceType, c.externalID, captureHash, SynthesizeCandidate(e, c, captureHash), false)
  }

  /** The capture hashes by source; of two candidates of one source the last one wins. */
  function CaptureHashes(e: Engine, candidates: seq<Candidate>): map<string, string> {
    if candidates == [] then map[]
    else
      var c := candidates[|candidates| - 1];
      CaptureHashes(e, candidates[..|candidates| - 1])[c.sourceType + ":" + c.externalID := e.hash(c)]
  }

  /** The sources that processing gives, in the order of the candidates (`WorkerPool` shows
      that the concurrent workers compute this map). */
  function ProcessWith(e: Engine, hashes: map<string, string>, candidates: seq<Candidate>, cached: Cache, sourceCached: Cache): (r: seq<ProcessedSource>)
    ensures |r| == |candidates|
  {
    if candidates == [] then []
    else
      var c := candidates[|candidates| - 1];
      var key := c.sourceType + ":" + c.externalID;
      var captureHash := if key in hashes then hashes[key] else "";
      ProcessWith(e, hashes, candidates[..|candidates| - 1], cached, sourceCached) +
      [ProcessSourceCandidate(e, c, captureHash, cached, sourceCached)]
  }

  function ProcessAll(e: Engine, candidates: seq<Candidate>, cached: Cache, sourceCached: Cache): (r: seq<ProcessedSource>)
    ensures |r| == |candidates|
  {
    ProcessWith(e, CaptureHashes(e, candidates), candidates, cached, sourceCached)
  }

  // ---------------------------------------------------------------- the previous run's share

  function Elements(identities: seq<string>): set<string> {
    set x | x in identities
  }

  function SourceIdentities(sources: seq<ProcessedSource>): (r: seq<string>)
    ensures |r| == |sources|
    ensures forall k :: 0 <= k < |r| ==> r[k] == SourceIdentity(sources[k])
  {
    if sources == [] then []
    else SourceIdentities(sources[..|sources| - 1]) + [SourceIdentity(sources[|sources| - 1])]
  }

  function IdentitiesOf(sources: seq<ProcessedSource>): set<string> {
    Elements(SourceIdentities(sources))
  }

  function SummariesExcluding(summaries: seq<Summary>, exclude: set<string>): seq<Summary> {
    if summaries == [] then []
    else
      var rest, s := SummariesExcluding(summaries[..|summaries| - 1], exclude), summaries[|summaries| - 1];
      if SummaryIdentity(s) in exclude then rest else rest + [s]
  }

  function NotesExcluding<T>(notes: seq<Note<T>>, exclude: set<string>): seq<Note<T>> {
    if notes == [] then []
    else
      var rest, n := NotesExcluding(notes[..|notes| - 1], exclude), notes[|notes| - 1];
      if NoteIdentity(n) in exclude then rest else rest + [n]
  }

  method SummariesExcludingLoop(summaries: seq<Summary>, exclude: set<string>) returns (filtered: seq<Summary>)
    ensures filtered == SummariesExcluding(summaries, exclude)
  {
    if |exclude| == 0 {
      NothingExcluded(summaries);
      return summaries;
    }
    filtered := [];
    for i := 0 to |summaries|
      invariant filtered == SummariesExcluding(summaries[..i], exclude)
    {
      assert summaries[..i + 1][..i] == summaries[..i];
      if SummaryIdentity(summaries[i]) in exclude {
        continue;
      }
      filtered := filtered + [summaries[i]];
    }
    assert summaries[..|summaries|] == summaries;
  }

  lemma NothingExcluded(summaries: seq<Summary>)
    ensures SummariesExcluding(summaries, {}) == summaries
  {
  }

  method NotesExcludingLoop<T>(notes: seq<Note<T>>, exclude: set<string>) returns (filtered: seq<Note<T>>)
    ensures filtered == NotesExcluding(notes, exclude)
  {
    if |exclude| == 0 {
      NoNoteExcluded(notes);
      return notes;
    }
    filtered := [];
    for i := 0 to |notes|
      invariant filtered == NotesExcluding(notes[..i], exclude)
    {
      assert notes[..i + 1][..i] == notes[..i];
      if NoteIdentity(notes[i]) in exclude {
        continue;
      }
      filtered := filtered + [notes[i]];
    }
    assert notes[..|notes|] == notes;
  }

  lemma NoNoteExcluded<T>(notes: seq<Note<T>>)
    ensures NotesExcluding(notes, {}) == notes
  {
  }

  /** The notes of one source, in their order. */
  function Owned<T>(notes: seq<Note<T>>, identity: string): seq<Note<T>> {
    if notes == [] then []
    else
      var rest, n := Owned(notes[..|notes| - 1], identity), notes[|notes| - 1];
      if NoteIdentity(n) == identity then rest + [n] else rest
  }

  /** The summaries of a run as processed sources, each with the notes it owns: one for each
      identity, and none for the identity ":" of a summary without source and ID. */
  function Regrouped(summaries: seq<Summary>, insights: seq<Insight>, actions: seq<Action>, exclude: set<string>): seq<ProcessedSource> {
    if summaries == [] then []
    else
      var rest, s := Regrouped(summaries[..|summaries| - 1], insights, actions, exclude), summaries[|summaries| - 1];
      WithSource(rest, SummaryIdentity(s), Regroup(s, insights, actions), exclude)
  }

  function WithSource(sources: seq<ProcessedSource>, key: string, source: ProcessedSource, exclude: set<string>): seq<ProcessedSource> {
    if key == ":" || key in exclude || key in IdentitiesOf(sources) then sources else sources + [source]
  }

  function Regroup(s: Summary, insights: seq<Insight>, actions: seq<Action>): ProcessedSource {
    ProcessedSource(s.source, s.id, s.captureHash,
      Record(s.captureHash, s, Owned(insights, SummaryIdentity(s)), Owned(actions, SummaryIdentity(s))), true)
  }

  function NotesOf<T>(bySource: map<string, seq<Note<T>>>, identity: string): seq<Note<T>> {
    if identity in bySource then bySource[identity] else []
  }

  method GroupBySource<T>(notes: seq<Note<T>>) returns (bySource: map<string, seq<Note<T>>>)
    ensures forall identity :: NotesOf(bySource, identity) == Owned(notes, identity)
  {
    bySource := map[];
    for i := 0 to |notes|
      invariant forall identity :: NotesOf(bySource, identity) == Owned(notes[..i], identity)
    {
      assert notes[..i + 1][..i] == notes[..i];
      var identity := NoteIdentity(notes[i]);
      bySource := bySource[identity := NotesOf(bySource, identity) + [notes[i]]];
    }
    assert notes[..|notes|] == notes;
  }

  /** One more summary. */
  method AddSource(sources: seq<ProcessedSource>, seen: set<string>, summary: Summary, insights: seq<Insight>, actions: seq<Action>,
                   exclude: set<string>, ghost source: ProcessedSource)
    returns (more: seq<ProcessedSource>, taken: set<string>)
    requires seen == IdentitiesOf(sources)
    requires source == ProcessedSource(summary.source, summary.id, summary.captureHash, Record(summary.captureHash, summary, insights, actions), true)
    ensures more == WithSource(sources, SummaryIdentity(summary), source, exclude) && taken == IdentitiesOf(more)
  {
    var key := Identity(summary.source, summary.id);
    if key == ":" || key in exclude || key in seen {
      return sources, seen;
    }
    var added := ProcessedSource(summary.source, summary.id, summary.captureHash,
      Record(summary.captureHash, summary, insights, actions), true);
    SourceIdentitiesAppendOne(sources, added);
    more, taken := sources + [added], seen + {key};
  }

  method ProcessedSourcesFromResult(run: Run, exclude: set<string>) returns (sources: seq<ProcessedSource>)
    ensures sources == Regrouped(run.summaries, run.insights, run.actions, exclude)
  {
    var insightsBySource := GroupBySource(run.insights);
    var actionsBySource := GroupBySource(run.actions);
    sources := [];
    var seen: set<string> := {};
    for i := 0 to |run.summaries|
      invariant sources == Regrouped(run.summaries[..i], run.insights, run.actions, exclude)
      invariant seen == IdentitiesOf(sources)
    {
      var summary := run.summaries[i];
      assert run.summaries[..i + 1][..i] == run.summaries[..i];
      var key := Identity(summary.source, summary.id);
      sources, seen := AddSource(sources, seen, summary, NotesOf(insightsBySource, key), NotesOf(actionsBySource, key),
        exclude, Regroup(summary, run.insights, run.actions));
    }
    assert run.summaries[..|run.summaries|] == run.summaries;
  }

  lemma SourceIdentitiesAppendOne(sources: seq<ProcessedSource>, source: ProcessedSource)
    ensures SourceIdentities(sources + [source]) == SourceIdentities(sources) + [SourceIdentity(source)]
    ensures IdentitiesOf(sources + [source]) == IdentitiesOf(sources) + {SourceIdentity(source)}
  {
    assert (sources + [source])[..|sources|] == sources;
  }

  // ---------------------------------------------------------------- assembling the result

  /** The first video with that ID gets the markers. */
  function WithMarkers(videos: seq<Video>, videoID: string, markers: seq<string>): seq<Video> {
    if videos == [] then []
    else if videos[0].id == videoID then [videos[0].(detail := videos[0].detail.(markers := markers))] + videos[1..]
    else [videos[0]] + WithMarkers(videos[1..], videoID, markers)
  }

  function AppendOne(run: Run, p: ProcessedSource): Run {
    run.(summaries := run.summaries + [p.record.summary],
         insights := run.insights + p.record.insights,
         actions := run.actions + p.record.actions,
         videos := if p.sourceType == SOURCE_YOUTUBE && |p.record.summary.markers| > 0
                   then WithMarkers(run.videos, p.externalID, p.record.summary.markers) else run.videos)
  }

  function Appended(run: Run, processed: seq<ProcessedSource>): Run {
    if processed == [] then run
    else AppendOne(Appended(run, processed[..|processed| - 1]), processed[|processed| - 1])
  }

  /** The result under construction. */
  class Draft {
    var bookmarks: seq<Bookmark>
    var videos: seq<Video>
    var summaries: seq<Summary>
    var insights: seq<Insight>
    var actions: seq<Action>

    constructor (bookmarks: seq<Bookmark>, videos: seq<Video>)
      ensures Value() == Run(bookmarks, videos, [], [], [])
    {
      this.bookmarks, this.videos := bookmarks, videos;
      summaries, insights, actions := [], [], [];
    }

    function Value(): Run
      reads this
    {
      Run(bookmarks, videos, summaries, insights, actions)
    }

    method AttachYouTubeTimeMarkers(videoID: string, markers: seq<string>)
      modifies this`videos
      ensures videos == WithMarkers(old(videos), videoID, markers)
    {
      var index := 0;
      while index < |videos|
        invariant index <= |videos| && videos == old(videos)
        invariant WithMarkers(videos, videoID, markers) == videos[..index] + WithMarkers(videos[index..], videoID, markers)
      {
        if videos[index].id == videoID {
          var marked := videos[index].(detail := videos[index].detail.(markers := markers));
          assert WithMarkers(videos[index..], videoID, markers) == [marked] + videos[index..][1..];
          videos := videos[index := marked];
          return;
        }
        assert videos[index..] == [videos[index]] + videos[index + 1..];
        index := index + 1;
      }
    }

    method AppendProcessedOutput(processed: seq<ProcessedSource>)
      modifies this
      ensures Value() == Appended(old(Value()), processed)
    {
      for i := 0 to |processed|
        invariant Value() == Appended(old(Value()), processed[..i])
      {
        var item := processed[i];
        assert processed[..i + 1][..i] == processed[..i];
        summaries := summaries + [item.record.summary];
        insights := insights + item.record.insights;
        actions := actions + item.record.actions;
        if item.sourceType == SOURCE_YOUTUBE && |item.record.summary.markers| > 0 {
          AttachYouTubeTimeMarkers(item.externalID, item.record.summary.markers);
        }
      }
      assert processed[..|processed|] == processed;
    }

    /** Takes over the previous run, except for the sources processed anew. */
    method MergePrevious(latest: Run, exclude: set<string>)
      modifies this
      ensures Value() == Carried(latest, old(Value()), exclude)
    {
      bookmarks := MergeXBookmarks(latest.bookmarks, bookmarks);
      videos := MergeYouTubeItems(latest.videos, videos);
      var oldSummaries := SummariesExcludingLoop(latest.summaries, exclude);
      var oldInsights := NotesExcludingLoop(latest.insights, exclude);
      var oldActions := NotesExcludingLoop(latest.actions, exclude);
      summaries := summaries + oldSummaries;
      insights := insights + oldInsights;
      actions := actions + oldActions;
    }
  }

  function Carried(latest: Run, fetched: Run, exclude: set<string>): Run {
    Run(Merged(latest.bookmarks, fetched.bookmarks),
        MergedVideos(latest.videos, fetched.videos),
        fetched.summaries + SummariesExcluding(latest.summaries, exclude),
        fetched.insights + NotesExcluding(latest.insights, exclude),
        fetched.actions + NotesExcluding(latest.actions, exclude))
  }

  /** The run that is saved, for a fetch, the latest run if it could be read, and what was
      processed. */
  function Result(e: Engine, latest: Option<Run>, bookmarks: seq<Bookmark>, videos: seq<Video>, processed: seq<ProcessedSource>): Run {
    var fetched := Run(bookmarks, videos, [], [], []);
    var base := if latest.Some? then Carried(latest.value, fetched, IdentitiesOf(processed)) else fetched;
    var run := Appended(base, processed);
    run.(insights := e.rank(run.insights))
  }

  /** The sources handed to the store together with that run. */
  function SaveSources(latest: Option<Run>, processed: seq<ProcessedSource>): seq<ProcessedSource> {
    if latest.None? then processed
    else
      Regrouped(latest.value.summaries, latest.value.insights, latest.value.actions, IdentitiesOf(processed)) + processed
  }

  // ---------------------------------------------------------------- one cycle

  /** What a cycle starts from. `failures`: the blockers met while fetching;
      `latest` is None when there is no run yet or, with `latestFailed`, when it could not be read. */
  datatype Inputs = Inputs(
    bookmarks: seq<Bookmark>,
    videos: seq<Video>,
    processLimit: int,
    failures: nat,
    statesFailed: bool,
    states: States,
    latest: Option<Run>,
    latestFailed: bool,
    cached: Cache,
    sourceCached: Cache,
    saveFails: bool)

  datatype Outcome =
    | Saved(run: Run, sources: seq<ProcessedSource>)
    | Unchanged(run: Run)  // nothing is saved, the latest run is returned
    | Failed
    | Unsaved              // the store did not take the new run

  predicate HasContent(run: Run) {
    |run.bookmarks| > 0 || |run.videos| > 0 || |run.summaries| > 0 || |run.insights| > 0
  }

  function NewCandidates(e: Engine, i: Inputs): seq<Candidate> {
    Filtered(e, i.states, Candidates(i.bookmarks, i.videos, i.processLimit), false)
  }

  function Processed(e: Engine, i: Inputs): seq<ProcessedSource> {
    ProcessAll(e, NewCandidates(e, i), i.cached, i.sourceCached)
  }

  function Cycle(e: Engine, i: Inputs): Outcome {
    var blockers := i.failures + (if i.statesFailed then 1 else 0) + (if i.latestFailed then 1 else 0);
    if i.statesFailed then
      if i.latest.Some? then Unchanged(i.latest.value) else Failed
    else if NewCandidates(e, i) == [] && i.latest.Some? && blockers == 0 && (|i.videos| > 0 || |i.bookmarks| > 0) then
      Unchanged(i.latest.value)
    else if NewCandidates(e, i) == [] && i.latest.Some? && blockers > 0 && HasContent(i.latest.value) then
      Unchanged(i.latest.value)
    else if i.saveFails then
      Unsaved
    else
      Saved(Result(e, i.latest, i.bookmarks, i.videos, Processed(e, i)), SaveSources(i.latest, Processed(e, i)))
  }

  method BuildResult(e: Engine, latest: Option<Run>, bookmarks: seq<Bookmark>, videos: seq<Video>, processed: seq<ProcessedSource>)
    returns (run: Run, saveSources: seq<ProcessedSource>)
    ensures run == Result(e, latest, bookmarks, videos, processed)
    ensures saveSources == SaveSources(latest, processed)
  {
    var exclude := IdentitiesOf(processed);
    saveSources := processed;
    var draft := new Draft(bookmarks, videos);
    if latest.Some? {
      draft.MergePrevious(latest.value, exclude);
      var kept := ProcessedSourcesFromResult(latest.value, exclude);
      saveSources := kept + processed;
    }
    draft.AppendProcessedOutput(processed);
    draft.insights := e.rank(draft.insights);
    run := draft.Value();
  }

  method RunCycle(e: Engine, i: Inputs) returns (outcome: Outcome)
    ensures outcome == Cycle(e, i)
  {
    var blockers := i.failures + (if i.statesFailed then 1 else 0) + (if i.latestFailed then 1 else 0);
    if i.statesFailed {
      if i.latest.Some? {
        return Unchanged(i.latest.value);
      }
      return Failed;
    }
    var candidates := Candidates(i.bookmarks, i.videos, i.processLimit);
    var newCandidates, skipped := FilterNewSourceCandidates(e, candidates, i.states);
    if |newCandidates| == 0 && blockers == 0 && i.latest.Some? && (|candidates| > 0 || |i.videos| > 0 || |i.bookmarks| > 0) {
      CandidatesNeedItems(i);
      return Unchanged(i.latest.value);
    }
    if |newCandidates| == 0 && blockers > 0 && i.latest.Some? && HasContent(i.latest.value) {
      return Unchanged(i.latest.value);
    }
    outcome := SaveCycle(e, i, newCandidates);
  }

  method SaveCycle(e: Engine, i: Inputs, newCandidates: seq<Candidate>) returns (outcome: Outcome)
    requires newCandidates == NewCandidates(e, i)
    ensures outcome ==
      if i.saveFails then Unsaved
      else Saved(Result(e, i.latest, i.bookmarks, i.videos, Processed(e, i)), SaveSources(i.latest, Processed(e, i)))
  {
    var processed := ProcessAll(e, newCandidates, i.cached, i.sourceCached);
    var run, sources := BuildResult(e, i.latest, i.bookmarks, i.videos, processed);
    if i.saveFails {
      return Unsaved;
    }
    return Saved(run, sources);
  }

  lemma CandidatesNeedItems(i: Inputs)
    ensures |Candidates(i.bookmarks, i.videos, i.processLimit)| > 0 ==> |i.videos| > 0 || |i.bookmarks| > 0
  {
  }
}
