/** What a reader finds: exactly the blobs of its query whose commands succeeded, and all of them if
    nothing fails or expires. */
module ReadModelReaders {
  import opened Basics
  import opened Text
  import opened AppStates
  import opened ReadModelCache

  /** The blob that the next command of a reader is for. */
  function Asks(reader: Reader): Option<Blob> {
    match reader.stage
    case AtMeta => Some(Meta)
    case AtBlob => if reader.query.NewsletterView? then None else Some(reader.query.blob)
    case AtNewsletter => Some(Newsletter)
    case AtDigests => Some(Digests)
    case AtManifest => None
    case AtSecondManifest => None
    case Returned => None
    case Missed => None
  }

  /** The run it is for. */
  function AsksOf(reader: Reader): RunID {
    if reader.stage.AtDigests? then reader.digestRunID else reader.runID
  }

  /** The `k`-th step of the schedule is a command of reader `r` for the blob. */
  ghost predicate AskedAt(s: System, schedule: seq<Step>, r: nat, k: nat, blob: Blob) {
    && k < |schedule| && schedule[k].Read? && schedule[k].r == r
    && After(s, schedule[..k]).Some? && r < |After(s, schedule[..k]).value.readers|
    && Asks(After(s, schedule[..k]).value.readers[r]) == Some(blob)
  }

  /** It succeeds. */
  ghost predicate AnsweredAt(s: System, schedule: seq<Step>, r: nat, k: nat, blob: Blob) {
    && AskedAt(s, schedule, r, k, blob) && !schedule[k].fault
    && var t := After(s, schedule[..k]).value; (AsksOf(t.readers[r]), blob) in t.blobs
  }

  ghost predicate Asked(s: System, schedule: seq<Step>, r: nat, blob: Blob) {
    exists k: nat :: AskedAt(s, schedule, r, k, blob)
  }

  ghost predicate Answered(s: System, schedule: seq<Step>, r: nat, blob: Blob) {
    exists k: nat :: AnsweredAt(s, schedule, r, k, blob)
  }

  lemma SameBefore(s: System, schedule: seq<Step>, n: nat, r: nat, k: nat, blob: Blob)
    requires |schedule| == n + 1
    ensures k < n ==> (AskedAt(s, schedule[..n], r, k, blob) <==> AskedAt(s, schedule, r, k, blob))
    ensures k < n ==> (AnsweredAt(s, schedule[..n], r, k, blob) <==> AnsweredAt(s, schedule, r, k, blob))
    ensures AskedAt(s, schedule[..n], r, k, blob) ==> k < n
    ensures AskedAt(s, schedule, r, k, blob) ==> k <= n
  {
    if k < n {
      assert schedule[..n][..k] == schedule[..k];
    }
  }

  lemma AskedMore(s: System, schedule: seq<Step>, n: nat, r: nat, blob: Blob)
    requires |schedule| == n + 1
    ensures Asked(s, schedule, r, blob) <==> Asked(s, schedule[..n], r, blob) || AskedAt(s, schedule, r, n, blob)
  {
    if k: nat :| AskedAt(s, schedule, r, k, blob) {
      SameBefore(s, schedule, n, r, k, blob);
    }
    if k: nat :| AskedAt(s, schedule[..n], r, k, blob) {
      SameBefore(s, schedule, n, r, k, blob);
    }
  }

  lemma AnsweredMore(s: System, schedule: seq<Step>, n: nat, r: nat, blob: Blob)
    requires |schedule| == n + 1
    ensures Answered(s, schedule, r, blob) <==> Answered(s, schedule[..n], r, blob) || AnsweredAt(s, schedule, r, n, blob)
  {
    if k: nat :| AnsweredAt(s, schedule, r, k, blob) {
      SameBefore(s, schedule, n, r, k, blob);
    }
    if k: nat :| AnsweredAt(s, schedule[..n], r, k, blob) {
      SameBefore(s, schedule, n, r, k, blob);
    }
  }

  /** One command adds the blob it is for, if it succeeds, and no other. */
  lemma OneRead(t: System, reader: Reader, fault: bool, blob: Blob)
    ensures blob in ReadOne(t, reader, fault).found <==>
      blob in reader.found || (!fault && Asks(reader) == Some(blob) && (AsksOf(reader), blob) in t.blobs)
    ensures ReadOne(t, reader, fault).query == reader.query
  {
  }

  lemma OtherSteps(t: System, step: Step, r: nat)
    requires Enabled(t, step) && r < |t.readers| && (step.Read? ==> step.r != r)
    ensures Apply(t, step).readers[r] == t.readers[r]
  {
  }

  /** Over every schedule, whatever fails, crashes or expires: a reader has found a blob if and only if
      a command of its own for that blob succeeded. */
  lemma {:induction false} FoundExactly(s: System, schedule: seq<Step>, r: nat, blob: Blob)
    requires Initial(s) && After(s, schedule).Some? && r < |s.readers|
    ensures r < |After(s, schedule).value.readers|
    ensures blob in After(s, schedule).value.readers[r].found <==> Answered(s, schedule, r, blob)
  {
    if schedule != [] {
      var n := |schedule| - 1;
      FoundExactly(s, schedule[..n], r, blob);
      AnsweredMore(s, schedule, n, r, blob);
      var t, step := After(s, schedule[..n]).value, schedule[n];
      StepExtends(t, step);
      if step.Read? && step.r == r {
        OneRead(t, t.readers[r], step.fault, blob);
      } else {
        OtherSteps(t, step, r);
      }
    }
  }

  /** What a reader has behind it at a stage. */
  ghost predicate Behind(reader: Reader, blob: Blob) {
    match reader.stage
    case AtManifest => false
    case AtMeta => false
    case AtBlob => reader.query.View? && blob == Meta
    case AtNewsletter => blob == Meta
    case AtSecondManifest => blob == Meta || blob == Newsletter
    case AtDigests => blob == Meta || blob == Newsletter
    case Returned => Fetched(reader.query, blob)
    case Missed => false
  }

  lemma OneBehind(t: System, reader: Reader, fault: bool, blob: Blob)
    requires ReaderValid(t, reader)
    ensures Behind(ReadOne(t, reader, fault), blob) ==> Behind(reader, blob) || Asks(reader) == Some(blob)
  {
  }

  /** A reader that returned has asked for every blob of its query. */
  lemma {:induction false} BehindIsAsked(s: System, schedule: seq<Step>, r: nat, blob: Blob)
    requires Initial(s) && After(s, schedule).Some? && r < |s.readers|
    ensures r < |After(s, schedule).value.readers|
    ensures Behind(After(s, schedule).value.readers[r], blob) ==> Asked(s, schedule, r, blob)
  {
    if schedule != [] {
      var n := |schedule| - 1;
      BehindIsAsked(s, schedule[..n], r, blob);
      AskedMore(s, schedule, n, r, blob);
      ReachableValid(s, schedule[..n]);
      var t, step := After(s, schedule[..n]).value, schedule[n];
      StepExtends(t, step);
      assert ReaderValid(t, t.readers[r]);
      if step.Read? && step.r == r {
        OneBehind(t, t.readers[r], step.fault, blob);
      } else {
        OtherSteps(t, step, r);
      }
    }
  }

  lemma AskedIsPresent(t: System, reader: Reader, blob: Blob)
    requires Valid(t) && NothingExpired(t) && ReaderValid(t, reader) && Asks(reader) == Some(blob)
    ensures (AsksOf(reader), blob) in t.blobs
  {
    var k := if reader.stage.AtDigests? then reader.second else reader.first;
    AllBlobsPresent(t, k, blob);
  }

  lemma AskedIsAnswered(s: System, schedule: seq<Step>, r: nat, k: nat, blob: Blob)
    requires Initial(s) && (forall step :: step in schedule ==> !step.Expire?) && Read(r, true) !in schedule
    requires AskedAt(s, schedule, r, k, blob)
    ensures AnsweredAt(s, schedule, r, k, blob)
  {
    var t := After(s, schedule[..k]).value;
    assert schedule[k] in schedule;
    ReachableValid(s, schedule[..k]);
    WithoutExpiryNothingExpires(s, schedule[..k]);
    assert ReaderValid(t, t.readers[r]);
    AskedIsPresent(t, t.readers[r], blob);
  }

  /** While nothing expires, a reader that returns and none of whose own commands failed has found
      exactly the blobs of its query, whatever happens to publishers and other readers: its one blob; or
      the meta data and its blob; or the meta data, the newsletter and the digests. */
  lemma ReadsFindAll(s: System, schedule: seq<Step>, r: nat, blob: Blob)
    requires Initial(s) && After(s, schedule).Some? && r < |s.readers| && r < |After(s, schedule).value.readers|
    requires (forall step :: step in schedule ==> !step.Expire?) && Read(r, true) !in schedule
    requires After(s, schedule).value.readers[r].stage.Returned?
    ensures var reader := After(s, schedule).value.readers[r];
      blob in reader.found <==>
        match reader.query
        case One(wanted) => blob == wanted
        case View(wanted) => blob == Meta || blob == wanted
        case NewsletterView => blob == Meta || blob == Newsletter || blob == Digests
  {
    var reader := After(s, schedule).value.readers[r];
    ReachableValid(s, schedule);
    assert ReaderValid(After(s, schedule).value, reader);
    FoundExactly(s, schedule, r, blob);
    if Fetched(reader.query, blob) {
      BehindIsAsked(s, schedule, r, blob);
      var k: nat :| AskedAt(s, schedule, r, k, blob);
      AskedIsAnswered(s, schedule, r, k, blob);
    }
  }

  /** With failures and expiry: a reader that returns asked for every blob of its query, and has found
      those for which it was answered. */
  lemma ReadsFindWhatIsAnswered(s: System, schedule: seq<Step>, r: nat, blob: Blob)
    requires Initial(s) && After(s, schedule).Some? && r < |s.readers| && r < |After(s, schedule).value.readers|
    requires After(s, schedule).value.readers[r].stage.Returned?
    ensures var reader := After(s, schedule).value.readers[r];
      && (Fetched(reader.query, blob) ==> Asked(s, schedule, r, blob))
      && (blob in reader.found <==> Answered(s, schedule, r, blob))
      && (blob in reader.found ==> Fetched(reader.query, blob))
  {
    ReachableValid(s, schedule);
    assert ReaderValid(After(s, schedule).value, After(s, schedule).value.readers[r]);
    FoundExactly(s, schedule, r, blob);
    BehindIsAsked(s, schedule, r, blob);
  }
}
