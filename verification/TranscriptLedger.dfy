/** The persistent ledger of transcript requests: a request for a video is claimed before the
    provider is asked, at most once for each owner and video and within a monthly budget. */
module TranscriptLedger {
  import opened Basics
  import opened Text

  datatype Result<+T> = Ok(value: T) | Err(error: Error)

  datatype Error = Cancelled | KeyRequired | NotClaimed | Unreadable | Unwritable

  /** A point in time, by its calendar month in UTC and what has passed of it. */
  datatype Instant = Instant(month: int, passed: nat)

  datatype Record = Record(status: string, detail: string, attemptedAt: Instant, completedAt: Option<Instant>)

  /** What goes wrong outside of the ledger during one call, if anything. */
  datatype Fault = NoFault | ContextDone | ReadFails | WriteFails

  type Records = map<string, Record>

  function Key(ownerID: string, videoID: string): Option<string> {
    if Blank(ownerID) || Blank(videoID) then None else Some(Trim(ownerID) + ":" + Trim(videoID))
  }

  /** The records that are not from before the month. */
  function Since(records: Records, month: int): set<string> {
    set key | key in records && records[key].attemptedAt.month >= month
  }

  function Claimed(records: Records, key: string, now: Instant): Records {
    records[key := Record("claimed", "Supadata request claimed before provider call.", now, None)]
  }

  /** A claim: the records after it, and what the caller is told. */
  function Claim(records: Records, ownerID: string, videoID: string, limit: int, now: Instant, fault: Fault): (Records, Result<bool>) {
    if fault == ContextDone then (records, Err(Cancelled))
    else
      match Key(ownerID, videoID)
      case None => (records, Err(KeyRequired))
      case Some(key) =>
        if fault == ReadFails then (records, Err(Unreadable))
        else if key in records || limit <= 0 || |Since(records, now.month)| >= limit then (records, Ok(false))
        else if fault == WriteFails then (records, Err(Unwritable))
        else (Claimed(records, key, now), Ok(true))
  }

  function Completed(record: Record, status: string, detail: string, now: Instant): Record {
    record.(status := if Blank(status) then "completed" else Trim(status), detail := detail, completedAt := Some(now))
  }

  function Complete(records: Records, ownerID: string, videoID: string, status: string, detail: string, now: Instant, fault: Fault)
    : (Records, Result<bool>)
  {
    if fault == ContextDone then (records, Err(Cancelled))
    else
      match Key(ownerID, videoID)
      case None => (records, Err(KeyRequired))
      case Some(key) =>
        if fault == ReadFails then (records, Err(Unreadable))
        else if key !in records then (records, Err(NotClaimed))
        else if fault == WriteFails then (records, Err(Unwritable))
        else (records[key := Completed(records[key], status, detail, now)], Ok(true))
  }

  /** The number of records that are not from before the month. */
  method CountSince(records: Records, month: int) returns (count: nat)
    ensures count == |Since(records, month)|
  {
    count := 0;
    var open := records.Keys;
    ghost var counted: set<string> := {};
    while open != {}
      invariant open <= records.Keys && count == |counted|
      invariant counted == Since(records, month) - open
      decreases open
    {
      var key :| key in open;
      open := open - {key};
      if records[key].attemptedAt.month >= month {
        count := count + 1;
        counted := counted + {key};
      }
    }
    assert Since(records, month) - open == Since(records, month);
  }

  /** The store; `records` is the file that all stores on this path share. */
  class Store {
    var records: Records

    constructor ()
      ensures records == map[]
    {
      records := map[];
    }

    method ClaimYouTubeTranscriptRequest(ownerID: string, videoID: string, monthlyLimit: int, now: Instant, fault: Fault)
      returns (claimed: Result<bool>)
      modifies this
      ensures (records, claimed) == Claim(old(records), ownerID, videoID, monthlyLimit, now, fault)
    {
      if fault == ContextDone {
        return Err(Cancelled);
      }
      var owner, video := Trim(ownerID), Trim(videoID);
      if owner == "" || video == "" {
        return Err(KeyRequired);
      }
      var key := owner + ":" + video;
      if fault == ReadFails {
        return Err(Unreadable);
      }
      var file := records;
      if key in file {
        return Ok(false);
      }
      var requestsThisMonth := CountSince(file, now.month);
      if monthlyLimit <= 0 || requestsThisMonth >= monthlyLimit {
        return Ok(false);
      }
      file := file[key := Record("claimed", "Supadata request claimed before provider call.", now, None)];
      if fault == WriteFails {
        return Err(Unwritable);
      }
      records := file;
      return Ok(true);
    }

    method CompleteYouTubeTranscriptRequest(ownerID: string, videoID: string, status: string, detail: string, now: Instant, fault: Fault)
      returns (completed: Result<bool>)
      modifies this
      ensures (records, completed) == Complete(old(records), ownerID, videoID, status, detail, now, fault)
    {
      if fault == ContextDone {
        return Err(Cancelled);
      }
      var owner, video := Trim(ownerID), Trim(videoID);
      if owner == "" || video == "" {
        return Err(KeyRequired);
      }
      var key := owner + ":" + video;
      if fault == ReadFails {
        return Err(Unreadable);
      }
      var file := records;
      if key !in file {
        return Err(NotClaimed);
      }
      var record := file[key];
      record := record.(status := Trim(status));
      if record.status == "" {
        record := record.(status := "completed");
      }
      record := record.(detail := detail, completedAt := Some(now));
      file := file[key := record];
      if fault == WriteFails {
        return Err(Unwritable);
      }
      records := file;
      return Ok(true);
    }
  }

  // ---------------------------------------------------------------- runs

  /** One call by any of the stores on the path. */
  datatype Call =
    | Claiming(ownerID: string, videoID: string, limit: int, now: Instant, fault: Fault)
    | Completing(ownerID: string, videoID: string, status: string, detail: string, now: Instant, fault: Fault)

  function Answer(records: Records, call: Call): (Records, Result<bool>) {
    match call
    case Claiming(owner, video, limit, now, fault) => Claim(records, owner, video, limit, now, fault)
    case Completing(owner, video, status, detail, now, fault) => Complete(records, owner, video, status, detail, now, fault)
  }

  /** The records after a run that begins without a file. */
  function After(calls: seq<Call>): Records {
    if calls == [] then map[] else Answer(After(calls[..|calls| - 1]), calls[|calls| - 1]).0
  }

  /** The `k`-th call of a run is a claim, and it is granted: the provider will be asked. */
  predicate Granted(calls: seq<Call>, k: nat)
    requires k < |calls|
  {
    calls[k].Claiming? && Answer(After(calls[..k]), calls[k]).1 == Ok(true)
  }

  /** How often a claim is granted in a month by its own clock. */
  function Grants(calls: seq<Call>, month: int): nat {
    if calls == [] then 0
    else
      Grants(calls[..|calls| - 1], month)
      + if Granted(calls, |calls| - 1) && calls[|calls| - 1].now.month == month then 1 else 0
  }

  function InMonth(records: Records, month: int): set<string> {
    set key | key in records && records[key].attemptedAt.month == month
  }

  /** Records stay, and so does when they were attempted. */
  ghost predicate Keeps(before: Records, after: Records) {
    forall key :: key in before ==> key in after && after[key].attemptedAt == before[key].attemptedAt
  }

  lemma AnswerKeeps(records: Records, call: Call)
    ensures Keeps(records, Answer(records, call).0)
    ensures call.Completing? ==> Answer(records, call).0.Keys == records.Keys
  {
    match call
    case Claiming(owner, video, limit, now, fault) => ClaimKeeps(records, owner, video, limit, now, fault);
    case Completing(owner, video, status, detail, now, fault) => CompleteKeeps(records, owner, video, status, detail, now, fault);
  }

  lemma {:induction false} ClaimKeeps(records: Records, ownerID: string, videoID: string, limit: int, now: Instant, fault: Fault)
    ensures Keeps(records, Claim(records, ownerID, videoID, limit, now, fault).0)
  {
    var after := Claim(records, ownerID, videoID, limit, now, fault).0;
    var key := Key(ownerID, videoID);
    assert after == records || (key.Some? && key.value !in records && after == Claimed(records, key.value, now));
  }

  lemma {:induction false} CompleteKeeps(records: Records, ownerID: string, videoID: string, status: string, detail: string, now: Instant, fault: Fault)
    ensures Keeps(records, Complete(records, ownerID, videoID, status, detail, now, fault).0)
    ensures Complete(records, ownerID, videoID, status, detail, now, fault).0.Keys == records.Keys
  {
  }

  lemma {:induction false} RunKeeps(calls: seq<Call>, k: nat)
    requires k <= |calls|
    ensures Keeps(After(calls[..k]), After(calls))
  {
    if k == |calls| {
      assert calls[..k] == calls;
    } else {
      var init := calls[..|calls| - 1];
      assert init[..k] == calls[..k];
      RunKeeps(init, k);
      AnswerKeeps(After(init), calls[|calls| - 1]);
    }
  }

  lemma PrefixStep(calls: seq<Call>, k: nat)
    requires k < |calls|
    ensures After(calls[..k + 1]) == Answer(After(calls[..k]), calls[k]).0
  {
    assert calls[..k + 1][..k] == calls[..k];
  }

  /** Whatever the clock does and whatever fails, one owner is granted one video once. */
  lemma ClaimedAtMostOnce(calls: seq<Call>, i: nat, j: nat)
    requires i < j < |calls| && Granted(calls, i) && Granted(calls, j)
    ensures Key(calls[i].ownerID, calls[i].videoID) != Key(calls[j].ownerID, calls[j].videoID)
    ensures Trim(calls[i].ownerID) != Trim(calls[j].ownerID) || Trim(calls[i].videoID) != Trim(calls[j].videoID)
  {
    PrefixStep(calls, i);
    assert calls[..j][..i + 1] == calls[..i + 1];
    RunKeeps(calls[..j], i + 1);
  }

  lemma RecordAdds(records: Records, key: string, now: Instant, month: int)
    requires key !in records
    ensures |InMonth(Claimed(records, key, now), month)| == |InMonth(records, month)| + if now.month == month then 1 else 0
  {
    if now.month == month {
      assert InMonth(Claimed(records, key, now), month) == InMonth(records, month) + {key};
    } else {
      assert InMonth(Claimed(records, key, now), month) == InMonth(records, month);
    }
  }

  lemma GrantAdds(records: Records, call: Call, month: int)
    requires call.Claiming? && Answer(records, call).1 == Ok(true)
    ensures |InMonth(Answer(records, call).0, month)| == |InMonth(records, month)| + if call.now.month == month then 1 else 0
  {
    RecordAdds(records, Key(call.ownerID, call.videoID).value, call.now, month);
  }

  lemma OthersAddNothing(records: Records, call: Call, month: int)
    requires !(call.Claiming? && Answer(records, call).1 == Ok(true))
    ensures InMonth(Answer(records, call).0, month) == InMonth(records, month)
  {
    AnswerKeeps(records, call);
    if call.Claiming? {
      assert Answer(records, call).0 == records;
    }
  }

  /** The ledger counts exactly the grants: it forgets none and invents none. */
  lemma {:induction false} LedgerCountsGrants(calls: seq<Call>, month: int)
    ensures |InMonth(After(calls), month)| == Grants(calls, month)
  {
    if calls != [] {
      var init, last := calls[..|calls| - 1], calls[|calls| - 1];
      LedgerCountsGrants(init, month);
      if Granted(calls, |calls| - 1) {
        GrantAdds(After(init), last, month);
      } else {
        OthersAddNothing(After(init), last, month);
      }
    } else {
      assert InMonth(map[], month) == {};
    }
  }

  /** Whatever the clock does, no month sees more grants than the largest limit that was used. */
  lemma {:induction false} MonthlyBudget(calls: seq<Call>, month: int, largest: nat)
    requires forall k :: 0 <= k < |calls| && calls[k].Claiming? ==> calls[k].limit <= largest
    ensures Grants(calls, month) <= largest
  {
    if calls != [] {
      var init, last := calls[..|calls| - 1], calls[|calls| - 1];
      MonthlyBudget(init, month, largest);
      if Granted(calls, |calls| - 1) && last.now.month == month {
        LedgerCountsGrants(init, month);
        SubsetSize(InMonth(After(init), month), Since(After(init), month));
      }
    }
  }

  /** How often a claim is granted in a month or in a later one, by its own clock. */
  function GrantsSince(calls: seq<Call>, month: int): nat {
    if calls == [] then 0
    else
      GrantsSince(calls[..|calls| - 1], month)
      + if Granted(calls, |calls| - 1) && calls[|calls| - 1].now.month >= month then 1 else 0
  }

  lemma ClaimCounts(records: Records, key: string, now: Instant, month: int)
    requires key !in records
    ensures |Since(Claimed(records, key, now), month)| == |Since(records, month)| + if now.month >= month then 1 else 0
  {
    if now.month >= month {
      assert Since(Claimed(records, key, now), month) == Since(records, month) + {key};
    } else {
      assert Since(Claimed(records, key, now), month) == Since(records, month);
    }
  }

  lemma AnswerCounts(records: Records, call: Call, month: int, granted: bool)
    requires granted == (call.Claiming? && Answer(records, call).1 == Ok(true))
    ensures |Since(Answer(records, call).0, month)| == |Since(records, month)| + if granted && call.now.month >= month then 1 else 0
  {
    if granted {
      ClaimCounts(records, Key(call.ownerID, call.videoID).value, call.now, month);
    } else {
      AnswerKeeps(records, call);
      assert call.Claiming? ==> Answer(records, call).0 == records;
      assert Since(Answer(records, call).0, month) == Since(records, month);
    }
  }

  /** What a claim counts is the grants of its month and of all later ones. */
  lemma {:induction false} CountedAreGrants(calls: seq<Call>, month: int)
    ensures |Since(After(calls), month)| == GrantsSince(calls, month)
  {
    if calls != [] {
      var init, last := calls[..|calls| - 1], calls[|calls| - 1];
      CountedAreGrants(init, month);
      AnswerCounts(After(init), last, month, Granted(calls, |calls| - 1));
    } else {
      assert Since(map[], month) == {};
    }
  }

  /** Some claim with this key has been granted. */
  ghost predicate HasGrant(calls: seq<Call>, key: string) {
    calls != []
    && var n := |calls| - 1;
       HasGrant(calls[..n], key) || (Granted(calls, n) && Key(calls[n].ownerID, calls[n].videoID) == Some(key))
  }

  lemma AnswerAdds(records: Records, call: Call, key: string)
    ensures key in Answer(records, call).0 <==>
      key in records || (call.Claiming? && Answer(records, call).1 == Ok(true) && Key(call.ownerID, call.videoID) == Some(key))
  {
    AnswerKeeps(records, call);
  }

  /** The ledger has exactly the keys that were granted. */
  lemma {:induction false} KeysAreGranted(calls: seq<Call>, key: string)
    ensures key in After(calls) <==> HasGrant(calls, key)
  {
    if calls != [] {
      var n := |calls| - 1;
      KeysAreGranted(calls[..n], key);
      AnswerAdds(After(calls[..n]), calls[n], key);
    }
  }

  /** Whatever the clock does, a claim without faults is granted exactly if its key is valid and has
      had no grant, and its month and all later ones together have had fewer grants than the limit. */
  lemma {:induction false} GrantedExactly(calls: seq<Call>, k: nat, call: Call, before: seq<Call>)
    requires k < |calls| && call == calls[k] && before == calls[..k] && call.Claiming? && call.fault == NoFault
    ensures Granted(calls, k) <==>
      && Key(call.ownerID, call.videoID).Some?
      && !HasGrant(before, Key(call.ownerID, call.videoID).value)
      && GrantsSince(before, call.now.month) < call.limit
  {
    CountedAreGrants(before, call.now.month);
    if Key(call.ownerID, call.videoID).Some? {
      KeysAreGranted(before, Key(call.ownerID, call.videoID).value);
    }
  }

  lemma {:induction false} GrantsOfLaterMonths(calls: seq<Call>, month: int, next: int)
    requires next == month + 1
    ensures GrantsSince(calls, month) == Grants(calls, month) + GrantsSince(calls, next)
  {
    if calls != [] {
      GrantsOfLaterMonths(calls[..|calls| - 1], month, next);
    }
  }

  /** So a clock that went back makes the ledger refuse a claim that its own month has room for, and
      nothing else does: exactly if the grants of later months use up that room. */
  lemma {:induction false} RefusedWithRoomExactly(calls: seq<Call>, k: nat, call: Call, before: seq<Call>, month: int, next: int)
    requires k < |calls| && call == calls[k] && before == calls[..k] && call.Claiming? && call.fault == NoFault
    requires month == call.now.month && next == month + 1
    requires Key(call.ownerID, call.videoID).Some? && !HasGrant(before, Key(call.ownerID, call.videoID).value)
    requires Grants(before, month) < call.limit
    ensures !Granted(calls, k) <==> call.limit - Grants(before, month) <= GrantsSince(before, next)
  {
    GrantedExactly(calls, k, call, before);
    GrantsOfLaterMonths(before, month, next);
  }

  /** If the clock does go back, a claim may be refused in a month without any grant. */
  lemma BackwardClockRefuses(first: Call, second: Call)
    requires first.Claiming? && second.Claiming? && first.fault == second.fault == NoFault && first.limit == second.limit == 1
    requires Key(first.ownerID, first.videoID).Some? && Key(second.ownerID, second.videoID).Some?
    requires Key(first.ownerID, first.videoID) != Key(second.ownerID, second.videoID)
    requires second.now.month < first.now.month
    ensures Granted([first, second], 0) && !Granted([first, second], 1) && Grants([first], second.now.month) == 0
  {
    assert [first, second][..0] == [] && [first, second][..1] == [first] && [first][..0] == [];
    GrantedExactly([first, second], 0, first, []);
    GrantedExactly([first, second], 1, second, [first]);
    GrantedExactly([first], 0, first, []);
  }

  // ---------------------------------------------------------------- what is recorded

  /** The call is for this key and succeeds. */
  ghost predicate Touches(records: Records, call: Call, key: string) {
    Key(call.ownerID, call.videoID) == Some(key) && Answer(records, call).1 == Ok(true)
  }

  /** What a successful call leaves in the record of its key, where `attemptedAt` is when it was claimed:
      a claim a record without a completion; a completion its status, which is "completed" if none is
      given, its detail and its time. */
  ghost predicate Recorded(call: Call, record: Record, attemptedAt: Instant) {
    && record.attemptedAt == attemptedAt
    && match call
       case Claiming(_, _, _, now, _) =>
         attemptedAt == now && record.status == "claimed" && record.detail == "Supadata request claimed before provider call."
         && record.completedAt == None
       case Completing(_, _, status, detail, now, _) =>
         record.status == (if Blank(status) then "completed" else Trim(status)) && record.detail == detail
         && record.completedAt == Some(now)
  }

  lemma TouchedRecord(records: Records, call: Call, key: string)
    requires Touches(records, call, key)
    ensures var after := Answer(records, call).0;
      && key in after && (call.Completing? ==> key in records)
      && Recorded(call, after[key], if call.Completing? then records[key].attemptedAt else call.now)
  {
  }

  lemma UntouchedRecord(records: Records, call: Call, key: string)
    requires !Touches(records, call, key)
    ensures key in Answer(records, call).0 <==> key in records
    ensures key in records ==> Answer(records, call).0[key] == records[key]
  {
  }

  ghost predicate TouchedAt(calls: seq<Call>, j: nat, key: string) {
    j < |calls| && Touches(After(calls[..j]), calls[j], key)
  }

  lemma TouchedBefore(calls: seq<Call>, n: nat, j: nat, key: string)
    requires |calls| == n + 1
    ensures TouchedAt(calls[..n], j, key) ==> TouchedAt(calls, j, key)
  {
    if j < n {
      assert calls[..n][..j] == calls[..j];
    }
  }

  lemma UntouchedStep(calls: seq<Call>, n: nat, key: string, before: Records)
    requires |calls| == n + 1 && before == After(calls[..n]) && !TouchedAt(calls, n, key) && key in before
    ensures key in After(calls) && After(calls)[key] == before[key]
  {
    UntouchedRecord(before, calls[n], key);
  }

  lemma {:induction false} UntouchedSince(calls: seq<Call>, m: nat, key: string, record: Record)
    requires m <= |calls| && key in After(calls[..m]) && After(calls[..m])[key] == record
    requires forall j: nat :: m <= j ==> !TouchedAt(calls, j, key)
    ensures key in After(calls) && After(calls)[key] == record
  {
    if m == |calls| {
      assert calls[..m] == calls;
    } else {
      var n := |calls| - 1;
      assert calls[..n][..m] == calls[..m];
      forall j: nat | m <= j ensures !TouchedAt(calls[..n], j, key) {
        TouchedBefore(calls, n, j, key);
      }
      UntouchedSince(calls[..n], m, key, record);
      UntouchedStep(calls, n, key, After(calls[..n]));
    }
  }

  /** Over every run: the record of a key is what the last successful call for it recorded, and was
      attempted when it was claimed. */
  lemma {:induction false} LastCallDecides(calls: seq<Call>, k: nat, key: string, before: Records)
    requires TouchedAt(calls, k, key) && before == After(calls[..k])
    requires forall j: nat :: k < j ==> !TouchedAt(calls, j, key)
    ensures key in After(calls) && (calls[k].Completing? ==> key in before)
    ensures Recorded(calls[k], After(calls)[key], if calls[k].Completing? then before[key].attemptedAt else calls[k].now)
  {
    PrefixStep(calls, k);
    TouchedRecord(before, calls[k], key);
    UntouchedSince(calls, k + 1, key, Answer(before, calls[k]).0[key]);
  }

  // ---------------------------------------------------------------- keys

  /** Requests of owners without a colon share a key if and only if owner and video are the same but for
      surrounding space. */
  lemma KeyExact(owner: string, video: string, owner': string, video': string)
    requires !Blank(owner) && !Blank(video) && !Blank(owner') && !Blank(video')
    requires ':' !in Trim(owner) && ':' !in Trim(owner')
    ensures Key(owner, video) == Key(owner', video') <==> Trim(owner) == Trim(owner') && Trim(video) == Trim(video')
  {
    UpToOfJoin(Trim(owner), ':', Trim(video));
    UpToOfJoin(Trim(owner'), ':', Trim(video'));
  }

  /** A colon in an owner's ID can give two owners one key, so that the claim of one refuses the other. */
  lemma KeysCollide()
    ensures Key("a:b", "c") == Key("a", "b:c") != None
  {
    assert TrimLeft("a:b") == "a:b" && TrimLeft("b:c") == "b:c" && TrimLeft("a") == "a" && TrimLeft("c") == "c";
    assert TrimRight("a:b") == "a:b" && TrimRight("b:c") == "b:c" && TrimRight("a") == "a" && TrimRight("c") == "c";
    assert "a:b" + ":" + "c" == "a" + ":" + "b:c";
  }
}
