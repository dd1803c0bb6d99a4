/** The program that publishes and reads the read models, command by command, and its place in the
    protocol: what it does alone is one schedule of the protocol's steps. */
module ReadModelPublisher {
  import opened Basics
  import opened Text
  import opened AppStates
  import opened ReadModelCache

  type Blobs = map<(RunID, Blob), Raw>

  /** How a command ends: `applied` on the server, `acknowledged` to the client. */
  datatype Reply = Reply(applied: bool, acknowledged: bool)

  predicate Honest(r: Reply) {
    r.acknowledged ==> r.applied
  }

  /** How the commands of one attempt end. */
  datatype World = World(sets: seq<Reply>, materials: bool, manifest: Reply)

  ghost predicate Fair(w: World) {
    |w.sets| == |BLOBS| && Honest(w.manifest) && forall k :: 0 <= k < |w.sets| ==> Honest(w.sets[k])
  }

  function RunOf(publication: Publication): RunID {
    Trim(publication.runID)
  }

  /** The blobs after the first `n` commands of the pipeline. */
  function Piped(blobs: Blobs, publication: Publication, sets: seq<Reply>, n: nat): Blobs
    requires n <= |BLOBS| == |sets| && Complete(publication)
  {
    if n == 0 then blobs
    else
      var before := Piped(blobs, publication, sets, n - 1);
      if sets[n - 1].applied then before[(RunOf(publication), BLOBS[n - 1]) := publication.content[BLOBS[n - 1]]] else before
  }

  /** One of the first `n` commands was not acknowledged. */
  predicate PipeFailed(sets: seq<Reply>, n: nat)
    requires n <= |sets|
  {
    n > 0 && (PipeFailed(sets, n - 1) || !sets[n - 1].acknowledged)
  }

  function BlobsAfter(blobs: Blobs, publication: Publication, w: World): Blobs
    requires |w.sets| == |BLOBS| && Complete(publication)
  {
    if RunOf(publication) == "" then blobs else Piped(blobs, publication, w.sets, |BLOBS|)
  }

  /** The manifest is written if all commands before it were acknowledged. */
  predicate Reaches(publication: Publication, w: World)
    requires |w.sets| == |BLOBS|
  {
    RunOf(publication) != "" && !PipeFailed(w.sets, |BLOBS|) && w.materials
  }

  function ManifestAfter(manifest: Option<RunID>, publication: Publication, w: World): Option<RunID>
    requires |w.sets| == |BLOBS|
  {
    if Reaches(publication, w) && w.manifest.applied then Some(RunOf(publication)) else manifest
  }

  predicate Succeeds(publication: Publication, w: World)
    requires |w.sets| == |BLOBS|
  {
    Reaches(publication, w) && w.manifest.acknowledged
  }

  class Cache {
    var blobs: Blobs
    var manifest: Option<RunID>

    method PublishAppState(publication: Publication, w: World) returns (ok: bool)
      requires Complete(publication) && |w.sets| == |BLOBS|
      modifies this
      ensures blobs == BlobsAfter(old(blobs), publication, w) && manifest == ManifestAfter(old(manifest), publication, w)
      ensures ok == Succeeds(publication, w)
    {
      var runID := Trim(publication.runID);
      if runID == "" {
        return false;
      }
      var failed := false;
      for k := 0 to |BLOBS|
        invariant blobs == Piped(old(blobs), publication, w.sets, k) && failed == PipeFailed(w.sets, k)
        invariant manifest == old(manifest)
      {
        if w.sets[k].applied {
          blobs := blobs[(runID, BLOBS[k]) := publication.content[BLOBS[k]]];
        }
        failed := failed || !w.sets[k].acknowledged;
      }
      if failed || !w.materials {
        return false;
      }
      if w.manifest.applied {
        manifest := Some(runID);
      }
      return w.manifest.acknowledged;
    }

    /** A read of the manifest and then of one blob of its run. */
    method ReadBlob(blob: Blob, manifestFails: bool, getFails: bool) returns (raw: Option<Raw>)
      ensures raw ==
        if manifestFails || getFails || manifest.None? || (manifest.value, blob) !in blobs then None
        else Some(blobs[(manifest.value, blob)])
    {
      if manifestFails || manifest.None? {
        return None;
      }
      var runID := manifest.value;
      if getFails || (runID, blob) !in blobs {
        return None;
      }
      return Some(blobs[(runID, blob)]);
    }

    /** Up to three attempts; a failed one is the last if the time for publishing has `ended`. */
    method PublishBestEffort(publication: Publication, worlds: seq<World>, ended: seq<bool>) returns (ok: bool, attempts: nat)
      requires Complete(publication) && |worlds| == |ended| == 3 && forall k :: 0 <= k < 3 ==> |worlds[k].sets| == |BLOBS|
      modifies this
      ensures 1 <= attempts <= 3 && (forall k :: 0 <= k < attempts - 1 ==> !Succeeds(publication, worlds[k]) && !ended[k])
      ensures ok == Succeeds(publication, worlds[attempts - 1]) && (ok || ended[attempts - 1] || attempts == 3)
      ensures blobs == BlobsAfterAll(old(blobs), publication, worlds, attempts)
      ensures manifest == ManifestAfterAll(old(manifest), publication, worlds, attempts)
    {
      attempts, ok := 0, false;
      while attempts < 3
        invariant attempts <= 3 && !ok && forall k :: 0 <= k < attempts ==> !Succeeds(publication, worlds[k]) && !ended[k]
        invariant blobs == BlobsAfterAll(old(blobs), publication, worlds, attempts)
        invariant manifest == ManifestAfterAll(old(manifest), publication, worlds, attempts)
      {
        ok := PublishAppState(publication, worlds[attempts]);
        attempts := attempts + 1;
        if ok || ended[attempts - 1] {
          return;
        }
      }
    }
  }

  function BlobsAfterAll(blobs: Blobs, publication: Publication, worlds: seq<World>, n: nat): Blobs
    requires n <= |worlds| && Complete(publication) && forall k :: 0 <= k < |worlds| ==> |worlds[k].sets| == |BLOBS|
  {
    if n == 0 then blobs else BlobsAfter(BlobsAfterAll(blobs, publication, worlds, n - 1), publication, worlds[n - 1])
  }

  function ManifestAfterAll(manifest: Option<RunID>, publication: Publication, worlds: seq<World>, n: nat): Option<RunID>
    requires n <= |worlds| && forall k :: 0 <= k < |worlds| ==> |worlds[k].sets| == |BLOBS|
  {
    if n == 0 then manifest else ManifestAfter(ManifestAfterAll(manifest, publication, worlds, n - 1), publication, worlds[n - 1])
  }

  // ---------------------------------------------------------------- what one attempt leaves

  lemma {:induction false} PipedHolds(blobs: Blobs, publication: Publication, sets: seq<Reply>, n: nat)
    requires n <= |BLOBS| == |sets| && Complete(publication) && !PipeFailed(sets, n)
    requires forall k :: 0 <= k < |sets| ==> Honest(sets[k])
    ensures forall k :: 0 <= k < n ==>
      (RunOf(publication), BLOBS[k]) in Piped(blobs, publication, sets, n)
      && Piped(blobs, publication, sets, n)[(RunOf(publication), BLOBS[k])] == publication.content[BLOBS[k]]
  {
    if n > 0 {
      PipedHolds(blobs, publication, sets, n - 1);
    }
  }

  /** After a success the manifest names the run and every blob is what was published. */
  lemma PublishedCanBeRead(blobs: Blobs, manifest: Option<RunID>, publication: Publication, w: World, blob: Blob)
    requires Fair(w) && Complete(publication) && Succeeds(publication, w)
    ensures ManifestAfter(manifest, publication, w) == Some(RunOf(publication))
    ensures blob in publication.content && (RunOf(publication), blob) in BlobsAfter(blobs, publication, w)
    ensures BlobsAfter(blobs, publication, w)[(RunOf(publication), blob)] == publication.content[blob]
  {
    PipedHolds(blobs, publication, w.sets, |BLOBS|);
    BlobListed(blob);
  }

  // ---------------------------------------------------------------- the program as a schedule

  lemma AfterMore(s: System, schedule: seq<Step>, step: Step)
    requires After(s, schedule).Some? && Enabled(After(s, schedule).value, step)
    ensures After(s, schedule + [step]) == Some(Apply(After(s, schedule).value, step))
  {
    assert (schedule + [step])[..|schedule|] == schedule;
  }

  /** The steps of the pipeline of publisher `p`. */
  function PipeSteps(p: nat, sets: seq<Reply>, n: nat): seq<Step>
    requires n <= |sets|
  {
    if n == 0 then [Start(p)] else PipeSteps(p, sets, n - 1) + [Set(p, sets[n - 1].applied, sets[n - 1].acknowledged)]
  }

  /** Publisher `p` of `t` is in the given phase of the attempt it was in, and the store is this. */
  ghost predicate Stands(s: System, t: System, p: nat, phase: Phase, blobs: Blobs, manifest: Option<RunID>)
    requires p < |s.publishers|
  {
    && |t.publishers| == |s.publishers| && t.publishers[p] == s.publishers[p].(phase := phase)
    && t.blobs == blobs && t.manifest == manifest
  }

  lemma OneSet(s: System, t: System, p: nat, n: nat, r: Reply, failed: bool, blobs: Blobs)
    requires p < |s.publishers| && n < |BLOBS| && Complete(s.publishers[p].publication) && Honest(r)
    requires Stands(s, t, p, Setting(n, failed), blobs, s.manifest)
    ensures Enabled(t, Set(p, r.applied, r.acknowledged))
    ensures Stands(s, Apply(t, Set(p, r.applied, r.acknowledged)), p, Setting(n + 1, failed || !r.acknowledged),
                   if r.applied then blobs[(Run(s.publishers[p]), BLOBS[n]) := s.publishers[p].publication.content[BLOBS[n]]] else blobs,
                   s.manifest)
  {
  }

  lemma {:induction false} PipeIsSchedule(s: System, p: nat, sets: seq<Reply>, n: nat)
    requires p < |s.publishers| && s.publishers[p].phase == Begin && Complete(s.publishers[p].publication)
    requires RunOf(s.publishers[p].publication) != "" && n <= |BLOBS| == |sets| && forall k :: 0 <= k < |sets| ==> Honest(sets[k])
    ensures After(s, PipeSteps(p, sets, n)).Some?
    ensures Stands(s, After(s, PipeSteps(p, sets, n)).value, p, Setting(n, PipeFailed(sets, n)),
                   Piped(s.blobs, s.publishers[p].publication, sets, n), s.manifest)
  {
    if n == 0 {
      assert [] + [Start(p)] == [Start(p)];
      AfterMore(s, [], Start(p));
    } else {
      PipeIsSchedule(s, p, sets, n - 1);
      var steps, last := PipeSteps(p, sets, n - 1), sets[n - 1];
      OneSet(s, After(s, steps).value, p, n - 1, last, PipeFailed(sets, n - 1), Piped(s.blobs, s.publishers[p].publication, sets, n - 1));
      AfterMore(s, steps, Set(p, last.applied, last.acknowledged));
    }
  }

  /** The steps of one attempt. */
  function AttemptSteps(publication: Publication, p: nat, w: World): seq<Step>
    requires |w.sets| == |BLOBS|
  {
    if RunOf(publication) == "" then [Start(p)]
    else
      PipeSteps(p, w.sets, |BLOBS|) + [EndPipeline(p)]
      + (if PipeFailed(w.sets, |BLOBS|) then [] else [PutMaterials(p, w.materials)])
      + (if Reaches(publication, w) then [PointManifest(p, w.manifest.applied, w.manifest.acknowledged)] else [])
  }

  /** What a publisher does next when its attempt is over. A blank run ID is refused each time. */
  function Over(publisher: Publisher, w: World): Publisher
    requires |w.sets| == |BLOBS|
  {
    if RunOf(publisher.publication) == "" || Succeeds(publisher.publication, w) then publisher.(phase := Stopped)
    else Failed(publisher)
  }

  /** The commands behind the pipeline. */
  lemma EndIsSchedule(s: System, t: System, steps: seq<Step>, p: nat, w: World, failed: bool)
    requires p < |s.publishers| && s.publishers[p].phase == Begin && After(s, steps) == Some(t) && Honest(w.manifest)
    requires Stands(s, t, p, Setting(|BLOBS|, failed), t.blobs, s.manifest)
    ensures var all := steps + [EndPipeline(p)] + (if failed then [] else [PutMaterials(p, w.materials)])
        + (if !failed && w.materials then [PointManifest(p, w.manifest.applied, w.manifest.acknowledged)] else []);
      var run := Run(s.publishers[p]);
      && After(s, all).Some? && |After(s, all).value.publishers| == |s.publishers| && After(s, all).value.blobs == t.blobs
      && After(s, all).value.manifest == (if !failed && w.materials && w.manifest.applied then Some(run) else s.manifest)
      && After(s, all).value.publishers[p] ==
         if !failed && w.materials && w.manifest.acknowledged then s.publishers[p].(phase := Stopped) else Failed(s.publishers[p])
  {
    var ended := steps + [EndPipeline(p)];
    AfterMore(s, steps, EndPipeline(p));
    if failed {
      assert ended + [] + [] == ended;
    } else {
      AfterMore(s, ended, PutMaterials(p, w.materials));
      var put := ended + [PutMaterials(p, w.materials)];
      if w.materials {
        AfterMore(s, put, PointManifest(p, w.manifest.applied, w.manifest.acknowledged));
      } else {
        assert put + [] == put;
      }
    }
  }

  /** One attempt of the program does to the store what its steps in the protocol do. */
  lemma AttemptIsSchedule(s: System, p: nat, w: World)
    requires p < |s.publishers| && s.publishers[p].phase == Begin && Complete(s.publishers[p].publication) && Fair(w)
    ensures var publication := s.publishers[p].publication;
      var end := After(s, AttemptSteps(publication, p, w));
      && end.Some? && |end.value.publishers| == |s.publishers| && end.value.publishers[p] == Over(s.publishers[p], w)
      && end.value.blobs == BlobsAfter(s.blobs, publication, w) && end.value.manifest == ManifestAfter(s.manifest, publication, w)
  {
    var publication := s.publishers[p].publication;
    if RunOf(publication) == "" {
      assert [] + [Start(p)] == [Start(p)];
      AfterMore(s, [], Start(p));
    } else {
      PipeIsSchedule(s, p, w.sets, |BLOBS|);
      EndIsSchedule(s, After(s, PipeSteps(p, w.sets, |BLOBS|)).value, PipeSteps(p, w.sets, |BLOBS|), p, w, PipeFailed(w.sets, |BLOBS|));
    }
  }

  lemma {:induction false} AfterAppend(s: System, a: seq<Step>, b: seq<Step>)
    requires After(s, a).Some?
    ensures After(s, a + b) == After(After(s, a).value, b)
  {
    if b == [] {
      assert a + b == a;
    } else {
      AfterAppend(s, a, b[..|b| - 1]);
      assert (a + b)[..|a + b| - 1] == a + b[..|b| - 1];
    }
  }

  function BestEffortSteps(publication: Publication, p: nat, worlds: seq<World>, n: nat): seq<Step>
    requires n <= |worlds| && forall k :: 0 <= k < |worlds| ==> |worlds[k].sets| == |BLOBS|
  {
    if n == 0 then [] else BestEffortSteps(publication, p, worlds, n - 1) + AttemptSteps(publication, p, worlds[n - 1])
  }

  /** The program's attempts, one after the other until one succeeds, are a schedule of the
      protocol as well: whatever the protocol keeps over all runs, the program keeps. */
  lemma {:induction false} BestEffortIsSchedule(s: System, p: nat, worlds: seq<World>, n: nat)
    requires p < |s.publishers| && s.publishers[p].phase == Begin && s.publishers[p].attempt == 1
    requires Complete(s.publishers[p].publication) && RunOf(s.publishers[p].publication) != ""
    requires n <= 3 == |worlds| && forall k :: 0 <= k < |worlds| ==> Fair(worlds[k]) && |worlds[k].sets| == |BLOBS|
    requires forall k :: 0 <= k < n - 1 ==> !Succeeds(s.publishers[p].publication, worlds[k])
    ensures var publication := s.publishers[p].publication;
      var end := After(s, BestEffortSteps(publication, p, worlds, n));
      && end.Some? && p < |end.value.publishers| && end.value.publishers[p].publication == publication
      && end.value.blobs == BlobsAfterAll(s.blobs, publication, worlds, n)
      && end.value.manifest == ManifestAfterAll(s.manifest, publication, worlds, n)
      && (n == 3 || (n > 0 && Succeeds(publication, worlds[n - 1])) ==> end.value.publishers[p].phase == Stopped)
      && (n < 3 && (n == 0 || !Succeeds(publication, worlds[n - 1])) ==>
            end.value.publishers[p].phase == Begin && end.value.publishers[p].attempt == n + 1)
  {
    if n > 0 {
      var publication := s.publishers[p].publication;
      BestEffortIsSchedule(s, p, worlds, n - 1);
      var steps := BestEffortSteps(publication, p, worlds, n - 1);
      AttemptIsSchedule(After(s, steps).value, p, worlds[n - 1]);
      AfterAppend(s, steps, AttemptSteps(publication, p, worlds[n - 1]));
    }
  }
}
