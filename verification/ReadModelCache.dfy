/** Publishing and reading the read models. A publisher writes ten blobs under its run ID,
    one command after the other, and then points the manifest at the run; a reader takes
    the manifest and then fetches blobs. Any number of publishers and readers interleave
    command by command, any command may fail, a publisher may crash anywhere, and a blob
    may expire at any time. */
module ReadModelCache {
  import opened Basics
  import opened Text
  import opened AppStates

  type RunID = string

  /** What one publisher publishes. */
  datatype Publication = Publication(runID: RunID, content: map<Blob, Raw>)

  datatype Phase =
    | Begin
    | Setting(next: nat, failed: bool)  // the pipeline of SET commands
    | Materials                         // the source material hash
    | Manifest
    | Stopped

  datatype Publisher = Publisher(publication: Publication, attempt: nat, phase: Phase)

  /** ReadAppState, ReadLatest, ReadInsightGraph and ReadDigests fetch one blob; a view fetches
      the run's meta data, if it can, and its blob; the newsletter view is a view followed by
      a read of the digests with a manifest of its own. */
  datatype Query = One(blob: Blob) | View(blob: Blob) | NewsletterView

  datatype Stage = AtManifest | AtMeta | AtBlob | AtNewsletter | AtSecondManifest | AtDigests | Returned | Missed

  datatype Reader = Reader(
    query: Query,
    stage: Stage,
    runID: RunID,              // the run of the manifest it read
    digestRunID: RunID,        // and of the one it read for the digests
    found: map<Blob, Raw>,
    first: int,                // history: which installations those were
    second: int)

  datatype System = System(
    blobs: map<(RunID, Blob), Raw>,
    manifest: Option<RunID>,
    publishers: seq<Publisher>,
    readers: seq<Reader>,
    written: set<(RunID, Blob, Raw)>,  // history: every value ever stored
    installed: seq<RunID>)             // history: the runs the manifest was pointed at

  predicate Complete(publication: Publication) {
    forall k :: 0 <= k < |BLOBS| ==> BLOBS[k] in publication.content
  }

  predicate Initial(s: System) {
    && s.blobs == map[] && s.manifest == None && s.written == {} && s.installed == []
    && (forall p :: 0 <= p < |s.publishers| ==>
          s.publishers[p].phase == Begin && s.publishers[p].attempt == 1 && Complete(s.publishers[p].publication))
    && (forall r :: 0 <= r < |s.readers| ==> s.readers[r].stage == AtManifest && s.readers[r].found == map[])
  }

  /** `applied`: the server executed the command; `acknowledged`: the client saw it succeed. */
  datatype Step =
    | Start(p: nat)
    | Set(p: nat, applied: bool, acknowledged: bool)
    | EndPipeline(p: nat)
    | PutMaterials(p: nat, acknowledged: bool)
    | PointManifest(p: nat, applied: bool, acknowledged: bool)
    | Crash(p: nat)
    | Expire(runID: RunID, blob: Blob)
    | Read(r: nat, fault: bool)

  predicate Enabled(s: System, step: Step) {
    match step
    case Start(p) => p < |s.publishers| && s.publishers[p].phase.Begin?
    case Set(p, applied, acknowledged) =>
      && p < |s.publishers| && s.publishers[p].phase.Setting? && s.publishers[p].phase.next < |BLOBS|
      && BLOBS[s.publishers[p].phase.next] in s.publishers[p].publication.content
      && (acknowledged ==> applied)
    case EndPipeline(p) => p < |s.publishers| && s.publishers[p].phase.Setting? && s.publishers[p].phase.next >= |BLOBS|
    case PutMaterials(p, _) => p < |s.publishers| && s.publishers[p].phase.Materials?
    case PointManifest(p, applied, acknowledged) =>
      p < |s.publishers| && s.publishers[p].phase.Manifest? && (acknowledged ==> applied)
    case Crash(p) => p < |s.publishers|
    case Expire(runID, blob) => (runID, blob) in s.blobs
    case Read(r, _) => r < |s.readers| && !s.readers[r].stage.Returned? && !s.readers[r].stage.Missed?
  }

  function Run(publisher: Publisher): RunID {
    Trim(publisher.publication.runID)
  }

  /** A failed attempt is repeated up to three times in all. */
  function Failed(publisher: Publisher): Publisher {
    if publisher.attempt < 3 then publisher.(attempt := publisher.attempt + 1, phase := Begin)
    else publisher.(phase := Stopped)
  }

  function WithPhase(s: System, p: nat, phase: Phase): System
    requires p < |s.publishers|
  {
    s.(publishers := s.publishers[p := s.publishers[p].(phase := phase)])
  }

  function WithFailure(s: System, p: nat): System
    requires p < |s.publishers|
  {
    s.(publishers := s.publishers[p := Failed(s.publishers[p])])
  }

  function Store(s: System, runID: RunID, blob: Blob, raw: Raw): System {
    s.(blobs := s.blobs[(runID, blob) := raw], written := s.written + {(runID, blob, raw)})
  }

  function Install(s: System, runID: RunID): System {
    s.(manifest := Some(runID), installed := s.installed + [runID])
  }

  function Apply(s: System, step: Step): System
    requires Enabled(s, step)
  {
    match step
    case Start(p) => WithPhase(s, p, if Run(s.publishers[p]) == "" then Stopped else Setting(0, false))
    case Set(p, applied, acknowledged) =>
      var publisher := s.publishers[p];
      var blob := BLOBS[publisher.phase.next];
      var after := WithPhase(s, p, Setting(publisher.phase.next + 1, publisher.phase.failed || !acknowledged));
      if applied then Store(after, Run(publisher), blob, publisher.publication.content[blob]) else after
    case EndPipeline(p) => if s.publishers[p].phase.failed then WithFailure(s, p) else WithPhase(s, p, Materials)
    case PutMaterials(p, acknowledged) => if acknowledged then WithPhase(s, p, Manifest) else WithFailure(s, p)
    case PointManifest(p, applied, acknowledged) =>
      var after := if acknowledged then WithPhase(s, p, Stopped) else WithFailure(s, p);
      if applied then Install(after, Run(s.publishers[p])) else after
    case Crash(p) => WithPhase(s, p, Stopped)
    case Expire(runID, blob) => s.(blobs := s.blobs - {(runID, blob)})
    case Read(r, fault) => s.(readers := s.readers[r := ReadOne(s, s.readers[r], fault)])
  }

  /** A GET of the reader's run, which may fail. */
  function Get(s: System, reader: Reader, blob: Blob, fault: bool): Option<Raw> {
    var runID := if reader.stage.AtDigests? then reader.digestRunID else reader.runID;
    if !fault && (runID, blob) in s.blobs then Some(s.blobs[(runID, blob)]) else None
  }

  function Keep(reader: Reader, blob: Blob, got: Option<Raw>, stage: Stage): Reader {
    reader.(stage := stage, found := if got.Some? then reader.found[blob := got.value] else reader.found)
  }

  /** A graph blob without an insight graph is no answer. */
  predicate Refused(blob: Blob, raw: Raw) {
    blob == Graph && raw.GraphRaw? && raw.insightGraph.None?
  }

  function ReadOne(s: System, reader: Reader, fault: bool): Reader {
    match reader.stage
    case AtManifest =>
      if fault || s.manifest.None? then reader.(stage := Missed)
      else
        reader.(runID := s.manifest.value, first := |s.installed| - 1,
                stage := if reader.query.One? then AtBlob else AtMeta)
    case AtMeta =>
      Keep(reader, Meta, Get(s, reader, Meta, fault), if reader.query.NewsletterView? then AtNewsletter else AtBlob)
    case AtBlob =>
      if reader.query.NewsletterView? then reader.(stage := Missed)
      else
        var got := Get(s, reader, reader.query.blob, fault);
        Keep(reader, reader.query.blob, got, if got.Some? && !Refused(reader.query.blob, got.value) then Returned else Missed)
    case AtNewsletter => Keep(reader, Newsletter, Get(s, reader, Newsletter, fault), AtSecondManifest)
    case AtSecondManifest =>
      if fault || s.manifest.None? then reader.(stage := Missed)
      else reader.(digestRunID := s.manifest.value, second := |s.installed| - 1, stage := AtDigests)
    case AtDigests =>
      var got := Get(s, reader, Digests, fault);
      Keep(reader, Digests, got, if got.Some? then Returned else Missed)
    case Returned => reader
    case Missed => reader
  }

  // ---------------------------------------------------------------- what every step keeps

  /** `raw` was published under `runID`: a publisher of that run had it as its content. */
  ghost predicate Published(s: System, runID: RunID, blob: Blob, raw: Raw) {
    exists p :: 0 <= p < |s.publishers| && PublishedBy(s, p, runID, blob, raw)
  }

  ghost predicate PublishedBy(s: System, p: nat, runID: RunID, blob: Blob, raw: Raw)
    requires p < |s.publishers|
  {
    Run(s.publishers[p]) == runID
    && blob in s.publishers[p].publication.content && s.publishers[p].publication.content[blob] == raw
  }

  /** The first `n` blobs of a publisher were all stored. */
  ghost predicate Stored(s: System, publisher: Publisher, n: nat) {
    forall k :: 0 <= k < n && k < |BLOBS| ==>
      BLOBS[k] in publisher.publication.content &&
      (Run(publisher), BLOBS[k], publisher.publication.content[BLOBS[k]]) in s.written
  }

  ghost predicate PublisherValid(s: System, publisher: Publisher) {
    && Complete(publisher.publication)
    && (publisher.phase.Setting? && !publisher.phase.failed ==> Stored(s, publisher, publisher.phase.next))
    && (publisher.phase.Materials? || publisher.phase.Manifest? ==> Stored(s, publisher, |BLOBS|))
  }

  /** Some publisher of the run had all of its blobs stored. */
  ghost predicate FullyWritten(s: System, runID: RunID) {
    exists p :: 0 <= p < |s.publishers| && Run(s.publishers[p]) == runID && Stored(s, s.publishers[p], |BLOBS|)
  }

  /** Which installation a value of a reader belongs to. */
  function Source(reader: Reader, blob: Blob): int {
    if reader.query.NewsletterView? && blob == Digests then reader.second else reader.first
  }

  /** The reader took `runID` from installation `k`. */
  ghost predicate TookFrom(s: System, k: int, runID: RunID) {
    0 <= k < |s.installed| && s.installed[k] == runID
  }

  ghost predicate ReaderValid(s: System, reader: Reader) {
    && (!reader.stage.AtManifest? && !reader.stage.Missed? ==> TookFrom(s, reader.first, reader.runID))
    && (reader.stage.AtManifest? ==> reader.found == map[])
    && (reader.stage.AtDigests? ==>
          reader.query.NewsletterView? && reader.first <= reader.second && TookFrom(s, reader.second, reader.digestRunID))
    && (reader.stage.AtNewsletter? || reader.stage.AtSecondManifest? ==> reader.query.NewsletterView?)
    && (reader.stage.AtBlob? ==> !reader.query.NewsletterView?)
    && (reader.stage.AtMeta? ==> !reader.query.One?)
    && (forall blob :: blob in reader.found ==> Fetched(reader.query, blob))
    && (reader.query.NewsletterView? && Digests in reader.found ==>
          reader.stage.Returned? && reader.first <= reader.second < |s.installed|)
    && (forall blob :: blob in reader.found && !reader.stage.Missed? ==>
          0 <= Source(reader, blob) < |s.installed| && (s.installed[Source(reader, blob)], blob, reader.found[blob]) in s.written)
    && (reader.stage.Returned? ==> Wanted(reader.query) in reader.found)
  }

  /** The blobs a query may find. */
  predicate Fetched(query: Query, blob: Blob) {
    match query
    case One(wanted) => blob == wanted
    case View(wanted) => blob == wanted || blob == Meta
    case NewsletterView => blob == Meta || blob == Newsletter || blob == Digests
  }

  /** The blob a query is for. */
  function Wanted(query: Query): Blob {
    if query.NewsletterView? then Digests else query.blob
  }

  ghost predicate StoreValid(s: System) {
    && s.manifest == (if s.installed == [] then None else Some(s.installed[|s.installed| - 1]))
    && (forall key :: key in s.blobs ==> (key.0, key.1, s.blobs[key]) in s.written)
  }

  ghost predicate HistoryValid(s: System) {
    && (forall w :: w in s.written ==> Published(s, w.0, w.1, w.2))
    && (forall k :: 0 <= k < |s.installed| ==> FullyWritten(s, s.installed[k]))
  }

  ghost predicate Valid(s: System) {
    && StoreValid(s)
    && HistoryValid(s)
    && (forall p :: 0 <= p < |s.publishers| ==> PublisherValid(s, s.publishers[p]))
    && (forall r :: 0 <= r < |s.readers| ==> ReaderValid(s, s.readers[r]))
  }

  /** Every step extends the histories and changes no publication. */
  lemma StepExtends(s: System, step: Step)
    requires Enabled(s, step)
    ensures var t := Apply(s, step);
      && s.written <= t.written && s.installed <= t.installed
      && |t.publishers| == |s.publishers| && |t.readers| == |s.readers|
      && (forall p :: 0 <= p < |s.publishers| ==> t.publishers[p].publication == s.publishers[p].publication)
  {
  }

  ghost predicate Extends(s: System, t: System) {
    && s.written <= t.written && s.installed <= t.installed
    && |t.publishers| == |s.publishers|
    && (forall p :: 0 <= p < |s.publishers| ==> t.publishers[p].publication == s.publishers[p].publication)
  }

  lemma ExtensionKeepsHistory(s: System, t: System, runID: RunID)
    requires Extends(s, t)
    ensures FullyWritten(s, runID) ==> FullyWritten(t, runID)
    ensures forall blob, raw :: Published(s, runID, blob, raw) ==> Published(t, runID, blob, raw)
  {
    if FullyWritten(s, runID) {
      var p :| 0 <= p < |s.publishers| && Run(s.publishers[p]) == runID && Stored(s, s.publishers[p], |BLOBS|);
      assert Run(t.publishers[p]) == runID && Stored(t, t.publishers[p], |BLOBS|);
    }
    forall blob, raw | Published(s, runID, blob, raw) ensures Published(t, runID, blob, raw) {
      var p :| 0 <= p < |s.publishers| && PublishedBy(s, p, runID, blob, raw);
      assert PublishedBy(t, p, runID, blob, raw);
    }
  }

  lemma StepKeepsStore(s: System, step: Step)
    requires StoreValid(s) && Enabled(s, step)
    ensures StoreValid(Apply(s, step))
  {
    if step.Set? {
      SetKeepsStore(s, step);
    }
  }

  lemma SetKeepsStore(s: System, step: Step)
    requires StoreValid(s) && Enabled(s, step) && step.Set?
    ensures StoreValid(Apply(s, step))
  {
    var publisher := s.publishers[step.p];
    var blob := BLOBS[publisher.phase.next];
    StoreKeeps(s, Run(publisher), blob, publisher.publication.content[blob]);
    var t := Apply(s, step);
    assert step.applied ==> t.blobs == Store(s, Run(publisher), blob, publisher.publication.content[blob]).blobs;
  }

  lemma StoreKeeps(s: System, runID: RunID, blob: Blob, raw: Raw)
    requires StoreValid(s)
    ensures StoreValid(Store(s, runID, blob, raw))
  {
  }

  lemma StepKeepsHistory(s: System, step: Step)
    requires Valid(s) && Enabled(s, step)
    ensures HistoryValid(Apply(s, step))
  {
    var t := Apply(s, step);
    StepExtends(s, step);
    forall w | w in t.written ensures Published(t, w.0, w.1, w.2) {
      ExtensionKeepsHistory(s, t, w.0);
      if w !in s.written {
        assert step.Set? && PublishedBy(t, step.p, w.0, w.1, w.2);
      }
    }
    forall k | 0 <= k < |t.installed| ensures FullyWritten(t, t.installed[k]) {
      if k < |s.installed| {
        ExtensionKeepsHistory(s, t, s.installed[k]);
      } else {
        assert PublisherValid(s, s.publishers[step.p]);
        assert Run(t.publishers[step.p]) == t.installed[k] && Stored(t, t.publishers[step.p], |BLOBS|);
      }
    }
  }

  lemma StoredGrows(s: System, t: System, before: Publisher, after: Publisher, n: nat)
    requires s.written <= t.written && before.publication == after.publication && Stored(s, before, n)
    ensures Stored(t, after, n)
  {
  }

  lemma StepKeepsPublisher(s: System, step: Step, p: nat)
    requires Valid(s) && Enabled(s, step) && p < |s.publishers|
    ensures PublisherValid(Apply(s, step), Apply(s, step).publishers[p])
  {
    var t := Apply(s, step);
    StepExtends(s, step);
    var before, after := s.publishers[p], t.publishers[p];
    assert PublisherValid(s, before);
    assert after.publication == before.publication;
    if before.phase.Setting? && !before.phase.failed {
      StoredGrows(s, t, before, after, before.phase.next);
    }
    if before.phase.Materials? || before.phase.Manifest? {
      StoredGrows(s, t, before, after, |BLOBS|);
    }
    if after.phase != before.phase {
      SteppedPublisher(s, step, p);
    }
  }

  lemma SteppedPublisher(s: System, step: Step, p: nat)
    requires Valid(s) && Enabled(s, step) && p < |s.publishers|
    requires Apply(s, step).publishers[p].phase != s.publishers[p].phase
    ensures PublisherValid(Apply(s, step), Apply(s, step).publishers[p])
  {
    var t := Apply(s, step);
    StepExtends(s, step);
    var before, after := s.publishers[p], t.publishers[p];
    assert PublisherValid(s, before);
    if step.Set? {
      SetKeepsPublisher(s, step, p);
    } else if step.EndPipeline? || step.PutMaterials? {
      EndKeepsPublisher(s, step, p);
    }
  }

  lemma EndKeepsPublisher(s: System, step: Step, p: nat)
    requires Valid(s) && Enabled(s, step) && (step.EndPipeline? || step.PutMaterials?) && step.p == p
    ensures PublisherValid(Apply(s, step), Apply(s, step).publishers[p])
  {
    var t := Apply(s, step);
    var before, after := s.publishers[p], t.publishers[p];
    assert PublisherValid(s, before);
    if !(before.phase.Setting? && before.phase.failed) {
      StoredGrows(s, t, before, after, |BLOBS|);
    }
  }

  lemma SetKeepsPublisher(s: System, step: Step, p: nat)
    requires Valid(s) && Enabled(s, step) && step.Set? && step.p == p
    ensures PublisherValid(Apply(s, step), Apply(s, step).publishers[p])
  {
    var t := Apply(s, step);
    var before, after := s.publishers[p], t.publishers[p];
    var n := before.phase.next;
    assert PublisherValid(s, before);
    assert after == before.(phase := Setting(n + 1, before.phase.failed || !step.acknowledged));
    if !after.phase.failed {
      assert t.written == s.written + {(Run(before), BLOBS[n], before.publication.content[BLOBS[n]])};
      StoredGrows(s, t, before, after, n);
      StoredNext(t, after, n);
    }
  }

  lemma StoredNext(s: System, publisher: Publisher, n: nat)
    requires n < |BLOBS| && Stored(s, publisher, n) && BLOBS[n] in publisher.publication.content
    requires (Run(publisher), BLOBS[n], publisher.publication.content[BLOBS[n]]) in s.written
    ensures Stored(s, publisher, n + 1)
  {
  }

  lemma StepKeepsReader(s: System, step: Step, r: nat)
    requires Valid(s) && Enabled(s, step) && r < |s.readers|
    ensures ReaderValid(Apply(s, step), Apply(s, step).readers[r])
  {
    var t := Apply(s, step);
    StepExtends(s, step);
    assert ReaderValid(s, s.readers[r]);
    if step.Read? && step.r == r {
      ReadKeepsReader(s, s.readers[r], step.fault);
      ReaderSeesGrowth(s, t, t.readers[r]);
    } else {
      ReaderSeesGrowth(s, t, s.readers[r]);
    }
  }

  lemma ReaderSeesGrowth(s: System, t: System, reader: Reader)
    requires ReaderValid(s, reader) && s.written <= t.written && s.installed <= t.installed
    ensures ReaderValid(t, reader)
  {
  }

  lemma ReadKeepsReader(s: System, reader: Reader, fault: bool)
    requires StoreValid(s) && ReaderValid(s, reader)
    ensures ReaderValid(s, ReadOne(s, reader, fault))
  {
  }

  lemma StepKeepsValid(s: System, step: Step)
    requires Valid(s) && Enabled(s, step)
    ensures Valid(Apply(s, step))
  {
    var t := Apply(s, step);
    StepExtends(s, step);
    StepKeepsStore(s, step);
    StepKeepsHistory(s, step);
    forall p | 0 <= p < |t.publishers| ensures PublisherValid(t, t.publishers[p]) {
      StepKeepsPublisher(s, step, p);
    }
    forall r | 0 <= r < |t.readers| ensures ReaderValid(t, t.readers[r]) {
      StepKeepsReader(s, step, r);
    }
  }

  // ---------------------------------------------------------------- every interleaving

  function After(s: System, schedule: seq<Step>): Option<System> {
    if schedule == [] then Some(s)
    else
      match After(s, schedule[..|schedule| - 1])
      case None => None
      case Some(t) =>
        var step := schedule[|schedule| - 1];
        if Enabled(t, step) then Some(Apply(t, step)) else None
  }

  lemma {:induction false} ReachableValid(s: System, schedule: seq<Step>)
    requires Initial(s) && After(s, schedule).Some?
    ensures Valid(After(s, schedule).value)
    ensures Extends(s, After(s, schedule).value)
  {
    if schedule != [] {
      var n := |schedule| - 1;
      ReachableValid(s, schedule[..n]);
      StepKeepsValid(After(s, schedule[..n]).value, schedule[n]);
      StepExtends(After(s, schedule[..n]).value, schedule[n]);
    }
  }

  /** The manifest only ever names a run all of whose blobs were stored before. */
  lemma ManifestNamesWrittenRun(s: System, schedule: seq<Step>)
    requires Initial(s) && After(s, schedule).Some?
    ensures After(s, schedule).value.manifest.Some? ==>
      FullyWritten(After(s, schedule).value, After(s, schedule).value.manifest.value)
  {
    ReachableValid(s, schedule);
  }

  /** A successful read returns only values published under the run of the manifest it read;
      the digests of the newsletter view come from that run or one installed after it. */
  lemma ReadsReturnPublishedValues(s: System, schedule: seq<Step>, r: nat)
    requires Initial(s) && After(s, schedule).Some?
    requires r < |s.readers| && r < |After(s, schedule).value.readers|
    requires After(s, schedule).value.readers[r].stage.Returned?
    ensures var t := After(s, schedule).value;
      var reader := t.readers[r];
      && 0 <= reader.first < |t.installed|
      && Wanted(reader.query) in reader.found
      && (forall blob :: blob in reader.found ==>
            reader.first <= Source(reader, blob) < |t.installed|
            && Published(t, t.installed[Source(reader, blob)], blob, reader.found[blob]))
  {
    ReachableValid(s, schedule);
    var t := After(s, schedule).value;
    assert ReaderValid(t, t.readers[r]);
  }

  /** Publishers of one run agree on this blob. */
  ghost predicate AgreeOn(s: System, blob: Blob) {
    forall p, q :: 0 <= p < |s.publishers| && 0 <= q < |s.publishers| && Run(s.publishers[p]) == Run(s.publishers[q])
      && blob in s.publishers[p].publication.content && blob in s.publishers[q].publication.content
      ==> s.publishers[p].publication.content[blob] == s.publishers[q].publication.content[blob]
  }

  /** What the reader found in its first installation is the content of publisher `p`. */
  ghost predicate Whole(s: System, p: nat, reader: Reader)
    requires p < |s.publishers|
  {
    forall blob :: blob in reader.found && Source(reader, blob) == reader.first ==>
      blob in s.publishers[p].publication.content && reader.found[blob] == s.publishers[p].publication.content[blob]
  }

  /** What the reader returns from its first installation is the content of one publisher of that run. */
  ghost predicate NotTorn(s: System, t: System, reader: Reader) {
    0 <= reader.first < |t.installed|
    && exists p :: 0 <= p < |s.publishers| && Run(s.publishers[p]) == t.installed[reader.first] && Whole(s, p, reader)
  }

  lemma PublisherOfWanted(t: System, reader: Reader) returns (p: nat)
    requires Valid(t) && ReaderValid(t, reader) && reader.stage.Returned?
    ensures p < |t.publishers| && 0 <= reader.first < |t.installed| && Run(t.publishers[p]) == t.installed[reader.first]
    ensures Wanted(reader.query) in reader.found
    ensures Source(reader, Wanted(reader.query)) == reader.first ==>
      PublishedBy(t, p, t.installed[reader.first], Wanted(reader.query), reader.found[Wanted(reader.query)])
  {
    var blob := Wanted(reader.query);
    var run := t.installed[reader.first];
    if Source(reader, blob) == reader.first {
      assert Published(t, run, blob, reader.found[blob]);
      p :| p < |t.publishers| && PublishedBy(t, p, run, blob, reader.found[blob]);
    } else {
      assert FullyWritten(t, run);
      p :| p < |t.publishers| && Run(t.publishers[p]) == run;
    }
  }

  lemma OtherBlobAgrees(s: System, t: System, reader: Reader, p: nat, blob: Blob)
    requires Extends(s, t) && Valid(t) && ReaderValid(t, reader) && reader.stage.Returned?
    requires AgreeOn(s, Meta) && (reader.query.NewsletterView? ==> AgreeOn(s, Newsletter))
    requires p < |t.publishers| && 0 <= reader.first < |t.installed| && Run(t.publishers[p]) == t.installed[reader.first]
    requires blob in reader.found && Source(reader, blob) == reader.first && blob != Wanted(reader.query)
    ensures blob in s.publishers[p].publication.content && reader.found[blob] == s.publishers[p].publication.content[blob]
  {
    assert Fetched(reader.query, blob) && PublisherValid(t, t.publishers[p]);
    assert (t.installed[Source(reader, blob)], blob, reader.found[blob]) in t.written;
    OneContent(s, t, p, blob, reader.found[blob]);
  }

  lemma ReaderIsNotTorn(s: System, t: System, reader: Reader)
    requires Extends(s, t) && Valid(t) && ReaderValid(t, reader) && reader.stage.Returned?
    requires AgreeOn(s, Meta) && (reader.query.NewsletterView? ==> AgreeOn(s, Newsletter))
    ensures NotTorn(s, t, reader)
  {
    var p := PublisherOfWanted(t, reader);
    var run := t.installed[reader.first];
    assert s.publishers[p].publication == t.publishers[p].publication;
    forall blob | blob in reader.found && Source(reader, blob) == reader.first && blob != Wanted(reader.query)
      ensures blob in s.publishers[p].publication.content && reader.found[blob] == s.publishers[p].publication.content[blob]
    {
      OtherBlobAgrees(s, t, reader, p, blob);
    }
    assert Run(s.publishers[p]) == run && Whole(s, p, reader);
  }

  /** If publishers of one run agree on its meta data, and for the newsletter view on the
      newsletter, a read never mixes two publications, however much they differ in other blobs. */
  lemma ReadsAreNotTorn(s: System, schedule: seq<Step>, r: nat)
    requires Initial(s) && After(s, schedule).Some? && AgreeOn(s, Meta)
    requires r < |After(s, schedule).value.readers| && After(s, schedule).value.readers[r].stage.Returned?
    requires After(s, schedule).value.readers[r].query.NewsletterView? ==> AgreeOn(s, Newsletter)
    ensures NotTorn(s, After(s, schedule).value, After(s, schedule).value.readers[r])
  {
    ReachableValid(s, schedule);
    ReaderIsNotTorn(s, After(s, schedule).value, After(s, schedule).value.readers[r]);
  }

  lemma OneContent(s: System, t: System, p: nat, blob: Blob, raw: Raw)
    requires AgreeOn(s, blob) && Extends(s, t) && p < |t.publishers| && Complete(t.publishers[p].publication)
    requires Published(t, Run(t.publishers[p]), blob, raw)
    ensures blob in s.publishers[p].publication.content && s.publishers[p].publication.content[blob] == raw
  {
    var q :| 0 <= q < |t.publishers| && PublishedBy(t, q, Run(t.publishers[p]), blob, raw);
    assert Run(s.publishers[p]) == Run(s.publishers[q]);
    BlobListed(blob);
  }

  // ---------------------------------------------------------------- hits

  /** Nothing that was stored has gone. */
  ghost predicate NothingExpired(s: System) {
    forall w :: w in s.written ==> (w.0, w.1) in s.blobs
  }

  lemma {:induction false} WithoutExpiryNothingExpires(s: System, schedule: seq<Step>)
    requires Initial(s) && After(s, schedule).Some?
    requires forall step :: step in schedule ==> !step.Expire?
    ensures NothingExpired(After(s, schedule).value)
  {
    if schedule != [] {
      var n := |schedule| - 1;
      WithoutExpiryNothingExpires(s, schedule[..n]);
      assert schedule[n] in schedule;
    }
  }

  /** While no blob expires, a reader that got past the manifest misses, unless a command fails,
      exactly if it is after the graph and the run it reads has no insight graph. */
  lemma HitsExactly(s: System, schedule: seq<Step>, r: nat)
    requires Initial(s) && After(s, schedule).Some?
    requires forall step :: step in schedule ==> !step.Expire?
    requires Enabled(After(s, schedule).value, Read(r, false))
    requires !After(s, schedule).value.readers[r].stage.AtManifest?
    ensures var t := After(s, schedule).value;
      var reader := t.readers[r];
      && Apply(t, Read(r, false)).readers[r].stage.Missed? <==>
        && reader.stage.AtBlob? && (reader.runID, Wanted(reader.query)) in t.blobs
        && Refused(Wanted(reader.query), t.blobs[(reader.runID, Wanted(reader.query))])
  {
    ReachableValid(s, schedule);
    WithoutExpiryNothingExpires(s, schedule);
    var t := After(s, schedule).value;
    var reader := t.readers[r];
    assert ReaderValid(t, reader);
    if reader.stage.AtBlob? || reader.stage.AtDigests? {
      var k := if reader.stage.AtDigests? then reader.second else reader.first;
      AllBlobsPresent(t, k, Wanted(reader.query));
    }
  }

  lemma AllBlobsPresent(t: System, k: nat, blob: Blob)
    requires Valid(t) && NothingExpired(t) && k < |t.installed|
    ensures (t.installed[k], blob) in t.blobs
  {
    var p :| 0 <= p < |t.publishers| && Run(t.publishers[p]) == t.installed[k] && Stored(t, t.publishers[p], |BLOBS|);
    StoredBlob(t, t.publishers[p], blob);
  }

  lemma StoredBlob(t: System, publisher: Publisher, blob: Blob)
    requires Stored(t, publisher, |BLOBS|)
    ensures blob in publisher.publication.content && (Run(publisher), blob, publisher.publication.content[blob]) in t.written
  {
    BlobListed(blob);
    var i :| 0 <= i < |BLOBS| && BLOBS[i] == blob;
  }

  lemma BlobListed(blob: Blob)
    ensures exists i :: 0 <= i < |BLOBS| && BLOBS[i] == blob
  {
    assert BLOBS[0] == Latest && BLOBS[1] == Meta && BLOBS[2] == AppState && BLOBS[3] == Digests && BLOBS[4] == Graph;
    assert BLOBS[5] == AskContext && BLOBS[6] == Insights && BLOBS[7] == Newsletter && BLOBS[8] == Bookmarks && BLOBS[9] == Videos;
    match blob
    case Latest => case Meta => case AppState => case Digests => case Graph =>
    case AskContext => case Insights => case Newsletter => case Bookmarks => case Videos =>
  }
}
