/** What readers see when everything that is published was built from a result and its digests. */
module PublishedStates {
  import opened Basics
  import opened Text
  import opened AppStates
  import opened ReadModelCache
  import opened ReadModelPublisher

  function PublicationOf(d: Derive, i: Inputs): Publication {
    Publication(RunIDOf(d, i), ContentOf(d, i))
  }

  /** Each publisher publishes a state built from its inputs, whose run IDs name results and digest
      versions. Two publishers of one run may differ in time, refresh status, graph status,
      deliveries and everything else that the run ID leaves out. */
  ghost predicate Built(s: System, d: Derive, inputs: seq<Inputs>) {
    && |inputs| == |s.publishers|
    && (forall p :: 0 <= p < |inputs| ==> s.publishers[p].publication == PublicationOf(d, inputs[p]))
    && (forall p, q :: 0 <= p < |inputs| && 0 <= q < |inputs| ==> Distinguishes(d, inputs[p], inputs[q]) && OneRun(inputs[p], inputs[q]))
  }

  lemma RunOfBuilt(s: System, d: Derive, inputs: seq<Inputs>, p: nat)
    requires Built(s, d, inputs) && p < |inputs|
    ensures Run(s.publishers[p]) == RunIDOf(d, inputs[p]) && Complete(s.publishers[p].publication)
  {
    assert Distinguishes(d, inputs[p], inputs[p]);
    RunIDIsTrimmed(d, inputs[p]);
  }

  lemma BuiltAgree(s: System, d: Derive, inputs: seq<Inputs>, blob: Blob)
    requires Built(s, d, inputs) && blob in {Meta, Insights, Bookmarks, Videos}
    ensures AgreeOn(s, blob)
  {
    forall p, q | 0 <= p < |s.publishers| && 0 <= q < |s.publishers| && Run(s.publishers[p]) == Run(s.publishers[q])
      && blob in s.publishers[p].publication.content && blob in s.publishers[q].publication.content
      ensures s.publishers[p].publication.content[blob] == s.publishers[q].publication.content[blob]
    {
      RunOfBuilt(s, d, inputs, p);
      RunOfBuilt(s, d, inputs, q);
      RunIDFixesBlobs(d, inputs[p], inputs[q], blob);
    }
  }

  /** So no read but the newsletter view ever mixes two publications. */
  lemma BuiltReadsAreNotTorn(s: System, d: Derive, inputs: seq<Inputs>, schedule: seq<Step>, r: nat)
    requires Initial(s) && Built(s, d, inputs) && After(s, schedule).Some?
    requires r < |After(s, schedule).value.readers| && After(s, schedule).value.readers[r].stage.Returned?
    requires !After(s, schedule).value.readers[r].query.NewsletterView?
    ensures NotTorn(s, After(s, schedule).value, After(s, schedule).value.readers[r])
  {
    BuiltAgree(s, d, inputs, Meta);
    ReadsAreNotTorn(s, schedule, r);
  }

  // ---------------------------------------------------------------- the newsletter view

  function Found(reader: Reader, blob: Blob): Option<Raw> {
    if blob in reader.found then Some(reader.found[blob]) else None
  }

  /** The newsletter view shows what it would show of the state of publisher `p`, as far as it found it. */
  ghost predicate ShowsStateOf(d: Derive, i: Inputs, reader: Reader) {
    && (Meta in reader.found ==> reader.found[Meta] == ValueOf(d, i, Meta))
    && Digests in reader.found && reader.found[Digests].DigestsRaw?
    && (Newsletter in reader.found ==> reader.found[Newsletter].NewsletterRaw?)
    && CompactAll(reader.found[Digests].digests) == CompactAll(WrittenAll(d, i.digests))
    && Shown(Found(reader, Newsletter), reader.found[Digests]) ==
       Shown(if Newsletter in reader.found then Some(ValueOf(d, i, Newsletter)) else None, ValueOf(d, i, Digests))
  }

  /** The publisher of a value, among the built ones. */
  lemma BuiltBy(s: System, d: Derive, inputs: seq<Inputs>, t: System, run: RunID, blob: Blob, raw: Raw) returns (p: nat)
    requires Built(s, d, inputs) && Extends(s, t) && Published(t, run, blob, raw)
    ensures p < |inputs| && RunIDOf(d, inputs[p]) == run && raw == ValueOf(d, inputs[p], blob)
  {
    p :| p < |t.publishers| && PublishedBy(t, p, run, blob, raw);
    RunOfBuilt(s, d, inputs, p);
    assert Run(t.publishers[p]) == Run(s.publishers[p]);
  }

  lemma DigestsAreWritten(d: Derive, i: Inputs)
    ensures ValueOf(d, i, Digests) == DigestsRaw(WrittenAll(d, i.digests))
  {
  }

  lemma SameCompactSameShown(newsletter: Option<Raw>, a: seq<Digest>, b: seq<Digest>)
    requires newsletter.Some? ==> newsletter.value.NewsletterRaw?
    requires CompactAll(a) == CompactAll(b)
    ensures Shown(newsletter, DigestsRaw(a)) == Shown(newsletter, DigestsRaw(b))
  {
    assert |CompactAll(a)| == |a| && |CompactAll(b)| == |b|;
    if a != [] {
      assert CompactAll(a)[0] == Compact(a[0]) && CompactAll(b)[0] == Compact(b[0]);
    }
  }

  /** The digests are from one publisher, the newsletter from another of the same run. */
  lemma ShownOfOne(d: Derive, j: Inputs, reader: Reader, a: seq<Digest>, b: seq<Digest>)
    requires b == WrittenAll(d, j.digests) && CompactAll(a) == CompactAll(b)
    requires Digests in reader.found && reader.found[Digests] == DigestsRaw(a)
    requires Newsletter in reader.found ==> reader.found[Newsletter] == ValueOf(d, j, Newsletter)
    requires Meta in reader.found ==> reader.found[Meta] == ValueOf(d, j, Meta)
    ensures ShowsStateOf(d, j, reader)
  {
    SameCompactSameShown(Found(reader, Newsletter), a, b);
    DigestsAreWritten(d, j);
  }

  /** A newsletter view whose two manifests named one run shows what the state of one publisher of
      that run shows, although its blobs may be from publishers that differ. */
  lemma NewsletterViewIsNotTorn(s: System, d: Derive, inputs: seq<Inputs>, schedule: seq<Step>, r: nat, t: System, reader: Reader)
    requires Initial(s) && Built(s, d, inputs) && After(s, schedule) == Some(t)
    requires forall p :: 0 <= p < |inputs| ==> AddressesFit(inputs[p].digests)
    requires r < |t.readers| && reader == t.readers[r] && reader.stage.Returned? && reader.query.NewsletterView?
    requires 0 <= reader.first < |t.installed| && 0 <= reader.second < |t.installed|
    requires t.installed[reader.first] == t.installed[reader.second]
    ensures exists p :: 0 <= p < |inputs| && RunIDOf(d, inputs[p]) == t.installed[reader.first] && ShowsStateOf(d, inputs[p], reader)
  {
    ReachableValid(s, schedule);
    assert ReaderValid(t, reader);
    var p, q := PublishersOfView(s, d, inputs, t, reader);
    assert Distinguishes(d, inputs[p], inputs[q]) && OneRun(inputs[p], inputs[q]);
    assert AddressesFit(inputs[p].digests) && AddressesFit(inputs[q].digests);
    ShownOfBoth(d, inputs[p], inputs[q], reader);
  }

  lemma ShownOfBoth(d: Derive, i: Inputs, j: Inputs, reader: Reader)
    requires Distinguishes(d, i, j) && OneRun(i, j) && RunIDOf(d, i) == RunIDOf(d, j)
    requires AddressesFit(i.digests) && AddressesFit(j.digests)
    requires Digests in reader.found && reader.found[Digests] == ValueOf(d, i, Digests)
    requires Newsletter in reader.found ==> reader.found[Newsletter] == ValueOf(d, j, Newsletter)
    requires Meta in reader.found ==> reader.found[Meta] == ValueOf(d, j, Meta)
    ensures ShowsStateOf(d, j, reader)
  {
    RunIDFixesCompact(d, i, j);
    DigestsAreWritten(d, i);
    ShownOfOne(d, j, reader, WrittenAll(d, i.digests), WrittenAll(d, j.digests));
  }

  lemma PublishersOfView(s: System, d: Derive, inputs: seq<Inputs>, t: System, reader: Reader) returns (p: nat, q: nat)
    requires Built(s, d, inputs) && Extends(s, t) && Valid(t) && ReaderValid(t, reader) && reader.stage.Returned?
    requires reader.query.NewsletterView? && 0 <= reader.first < |t.installed| && 0 <= reader.second < |t.installed|
    requires t.installed[reader.first] == t.installed[reader.second]
    ensures p < |inputs| && q < |inputs|
    ensures RunIDOf(d, inputs[p]) == t.installed[reader.first] == RunIDOf(d, inputs[q])
    ensures Digests in reader.found && reader.found[Digests] == ValueOf(d, inputs[p], Digests)
    ensures Newsletter in reader.found ==> reader.found[Newsletter] == ValueOf(d, inputs[q], Newsletter)
    ensures Meta in reader.found ==> reader.found[Meta] == ValueOf(d, inputs[q], Meta)
  {
    p := PublisherOfFound(s, d, inputs, t, reader, Digests);
    q := p;
    if Newsletter in reader.found {
      q := PublisherOfFound(s, d, inputs, t, reader, Newsletter);
    }
    if Meta in reader.found {
      var m := PublisherOfFound(s, d, inputs, t, reader, Meta);
      assert Distinguishes(d, inputs[m], inputs[q]) && OneRun(inputs[m], inputs[q]);
      RunIDFixesBlobs(d, inputs[m], inputs[q], Meta);
    }
  }

  lemma PublisherOfFound(s: System, d: Derive, inputs: seq<Inputs>, t: System, reader: Reader, blob: Blob) returns (p: nat)
    requires Built(s, d, inputs) && Extends(s, t) && Valid(t) && ReaderValid(t, reader) && reader.stage.Returned?
    requires blob in reader.found && 0 <= reader.first < |t.installed|
    requires reader.query.NewsletterView? ==> 0 <= reader.second < |t.installed| && t.installed[reader.first] == t.installed[reader.second]
    ensures p < |inputs| && RunIDOf(d, inputs[p]) == t.installed[reader.first] && reader.found[blob] == ValueOf(d, inputs[p], blob)
  {
    assert Published(t, t.installed[Source(reader, blob)], blob, reader.found[blob]);
    p := BuiltBy(s, d, inputs, t, t.installed[reader.first], blob, reader.found[blob]);
  }

  // ---------------------------------------------------------------- a run without a result

  lemma {:induction false} ReadersStay(s: System, schedule: seq<Step>)
    requires After(s, schedule).Some? && forall step :: step in schedule ==> !step.Read?
    ensures After(s, schedule).value.readers == s.readers
  {
    if schedule != [] {
      assert schedule[|schedule| - 1] in schedule;
      ReadersStay(s, schedule[..|schedule| - 1]);
    }
  }

  lemma {:induction false} PipeDoesNotRead(p: nat, sets: seq<Reply>, n: nat)
    requires n <= |sets|
    ensures forall step :: step in PipeSteps(p, sets, n) ==> !step.Read?
  {
    if n > 0 {
      PipeDoesNotRead(p, sets, n - 1);
    }
  }

  lemma AttemptDoesNotRead(publication: Publication, p: nat, w: World)
    requires |w.sets| == |BLOBS|
    ensures forall step :: step in AttemptSteps(publication, p, w) ==> !step.Read?
  {
    PipeDoesNotRead(p, w.sets, |BLOBS|);
  }

  /** A store in which one state is about to be published and one reader is after its graph. */
  function Fresh(publication: Publication): System {
    System(map[], None, [Publisher(publication, 1, Begin)], [Reader(One(Graph), AtManifest, "", "", map[], 0, 0)], {}, [])
  }

  /** Two commands of a reader that is after the graph. */
  lemma ReadGraph(t: System, run: RunID)
    requires |t.readers| == 1 && t.readers[0] == Reader(One(Graph), AtManifest, "", "", map[], 0, 0)
    requires t.manifest == Some(run) && (run, Graph) in t.blobs && t.blobs[(run, Graph)].GraphRaw?
    ensures Enabled(t, Read(0, false)) && Enabled(Apply(t, Read(0, false)), Read(0, false))
    ensures var end := Apply(Apply(t, Read(0, false)), Read(0, false));
      && end.manifest == t.manifest && |end.readers| == 1
      && end.readers[0].stage == if t.blobs[(run, Graph)].insightGraph.None? then Missed else Returned
  {
  }

  lemma OnePublication(d: Derive, i: Inputs, w: World, t: System)
    requires PlainParts(d, i) && Fair(w) && Succeeds(PublicationOf(d, i), w)
    requires After(Fresh(PublicationOf(d, i)), AttemptSteps(PublicationOf(d, i), 0, w)) == Some(t)
    ensures t.readers == Fresh(PublicationOf(d, i)).readers
    ensures t.manifest == Some(RunIDOf(d, i)) && (RunIDOf(d, i), Graph) in t.blobs
    ensures t.blobs[(RunIDOf(d, i), Graph)] == GraphOf(d, i)
  {
    var publication := PublicationOf(d, i);
    AttemptIsSchedule(Fresh(publication), 0, w);
    AttemptDoesNotRead(publication, 0, w);
    ReadersStay(Fresh(publication), AttemptSteps(publication, 0, w));
    RunIDIsTrimmed(d, i);
    PublishedCanBeRead(map[], None, publication, w, Graph);
  }

  /** A read of the graph after a state was published for the first time, all commands of publisher
      and reader succeeding, misses if and only if that state has no result. */
  lemma FirstGraphReadMisses(d: Derive, i: Inputs, w: World, steps: seq<Step>)
    requires PlainParts(d, i) && Fair(w) && Succeeds(PublicationOf(d, i), w)
    requires steps == AttemptSteps(PublicationOf(d, i), 0, w) + [Read(0, false)] + [Read(0, false)]
    ensures Initial(Fresh(PublicationOf(d, i)))
    ensures var end := After(Fresh(PublicationOf(d, i)), steps);
      && end.Some? && end.value.manifest == Some(RunIDOf(d, i)) && |end.value.readers| == 1
      && end.value.readers[0].stage == if i.latest.None? then Missed else Returned
  {
    var publication := PublicationOf(d, i);
    var s, first := Fresh(publication), AttemptSteps(publication, 0, w);
    AttemptIsSchedule(s, 0, w);
    var t := After(s, first).value;
    OnePublication(d, i, w, t);
    ReadGraph(t, RunIDOf(d, i));
    AfterMore(s, first, Read(0, false));
    AfterMore(s, first + [Read(0, false)], Read(0, false));
  }

  lemma {:induction false} NothingFails(sets: seq<Reply>, n: nat)
    requires n <= |sets| && forall k :: 0 <= k < |sets| ==> sets[k].acknowledged
    ensures !PipeFailed(sets, n)
  {
    if n > 0 {
      NothingFails(sets, n - 1);
    }
  }

  /** On a fresh installation nothing has to go wrong for that: its state is published as run "none",
      and its graph is missed although it is there. */
  lemma FreshInstallMisses(d: Derive, i: Inputs, w: World, steps: seq<Step>)
    requires i.latest == None && i.digests == [] && Plain(d.hash(Versions(None, [])))
    requires w == World(seq(|BLOBS|, _ => Reply(true, true)), true, Reply(true, true))
    requires steps == AttemptSteps(PublicationOf(d, i), 0, w) + [Read(0, false)] + [Read(0, false)]
    ensures RunIDOf(d, i) == "none" && Initial(Fresh(PublicationOf(d, i)))
    ensures var end := After(Fresh(PublicationOf(d, i)), steps);
      end.Some? && end.value.manifest == Some("none") && |end.value.readers| == 1 && end.value.readers[0].stage == Missed
  {
    assert AllVersions(i) == Versions(None, []);
    assert RunIDOf(d, i) == "none" + "";
    RunIDIsTrimmed(d, i);
    NothingFails(w.sets, |BLOBS|);
    FirstGraphReadMisses(d, i, w, steps);
  }
}
