/** Source material: what is fetched, what is synthesised from it, how both are identified,
    and how a fetch is merged with the previous run. */
module SourceMaterial {
  import opened Text

  type SourceType = string

  const SOURCE_X: SourceType := "x"
  const SOURCE_YOUTUBE: SourceType := "youtube"
  const PROMPT_VERSION := "source-grounded-insights-v6-compact-retry"

  /** A fetched item: a bookmark or a video. */
  datatype Item<+T> = Item(id: string, detail: T)

  datatype Post = Post(body: string)

  datatype Clip = Clip(transcriptStatus: string, transcript: string, markers: seq<string>)

  type Bookmark = Item<Post>

  type Video = Item<Clip>

  datatype Summary = Summary(
    source: SourceType, id: string, captureHash: string, promptVersion: string, model: string,
    body: string, markers: seq<string>, cacheStatus: string)

  /** An insight or an action item, with the source it came from. */
  datatype Note<+T> = Note(source: SourceType, sourceID: string, detail: T)

  datatype Thought = Thought(body: string, cacheStatus: string)

  datatype Task = Task(body: string, cacheStatus: string)

  type Insight = Note<Thought>

  type Action = Note<Task>

  /** A synthesis as the cache keeps it. */
  datatype Record = Record(captureHash: string, summary: Summary, insights: seq<Insight>, actions: seq<Action>)

  datatype Candidate = Candidate(sourceType: SourceType, externalID: string, body: string)

  datatype ProcessedSource = ProcessedSource(
    sourceType: SourceType, externalID: string, captureHash: string, record: Record, cached: bool)

  /** A stored run. */
  datatype Run = Run(
    bookmarks: seq<Bookmark>, videos: seq<Video>,
    summaries: seq<Summary>, insights: seq<Insight>, actions: seq<Action>)

  /** The identity of a source, whatever its capture, prompt or model. */
  function Identity(sourceType: SourceType, externalID: string): string {
    sourceType + ":" + Trim(externalID)
  }

  function SummaryIdentity(s: Summary): string { Identity(s.source, s.id) }

  function NoteIdentity<T>(n: Note<T>): string { Identity(n.source, n.sourceID) }

  function SourceIdentity(p: ProcessedSource): string { Identity(p.sourceType, p.externalID) }

  function CandidateIdentity(c: Candidate): string { Identity(c.sourceType, c.externalID) }

  // ---------------------------------------------------------------- merging a fetch

  function IDs<T>(items: seq<Item<T>>): set<string> {
    set k | 0 <= k < |items| :: items[k].id
  }

  ghost predicate DistinctIDs<T>(items: seq<Item<T>>) {
    forall i, j :: 0 <= i < j < |items| ==> items[i].id != items[j].id
  }

  ghost predicate NoBlankIDs<T>(items: seq<Item<T>>) {
    forall k :: 0 <= k < |items| ==> !Blank(items[k].id)
  }

  /** The first item of every ID that is not blank. */
  function FirstOfEach<T>(items: seq<Item<T>>): seq<Item<T>> {
    if items == [] then []
    else
      var rest := FirstOfEach(items[..|items| - 1]);
      var last := items[|items| - 1];
      if Blank(last.id) || last.id in IDs(rest) then rest else rest + [last]
  }

  function Merged<T>(previous: seq<Item<T>>, fetched: seq<Item<T>>): seq<Item<T>> {
    if |previous| == 0 then fetched else FirstOfEach(fetched + previous)
  }

  /** The previous videos by ID; the last one wins. */
  function VideosByID(previous: seq<Video>): map<string, Video> {
    if previous == [] then map[]
    else VideosByID(previous[..|previous| - 1])[previous[|previous| - 1].id := previous[|previous| - 1]]
  }

  /** A video whose transcript was not fetched again gives way to the previous item. */
  function Restored(byID: map<string, Video>, v: Video): Video {
    if v.id in byID && v.detail.transcriptStatus == "cached" then byID[v.id] else v
  }

  function AllRestored(byID: map<string, Video>, fetched: seq<Video>): (r: seq<Video>)
    ensures |r| == |fetched|
    ensures forall k :: 0 <= k < |r| ==> r[k] == Restored(byID, fetched[k])
  {
    if fetched == [] then []
    else AllRestored(byID, fetched[..|fetched| - 1]) + [Restored(byID, fetched[|fetched| - 1])]
  }

  function MergedVideos(previous: seq<Video>, fetched: seq<Video>): seq<Video> {
    Merged(previous, AllRestored(VideosByID(previous), fetched))
  }

  lemma IDsAppend<T>(items: seq<Item<T>>, last: Item<T>)
    ensures IDs(items + [last]) == IDs(items) + {last.id}
  {
    var all := items + [last];
    assert all[|items|] == last;
    forall id | id in IDs(items) ensures id in IDs(all) {
      var k :| 0 <= k < |items| && items[k].id == id;
      assert all[k] == items[k];
    }
  }

  lemma FirstOfEachStep<T>(items: seq<Item<T>>, last: Item<T>)
    ensures var before, after := FirstOfEach(items), FirstOfEach(items + [last]);
      && after == (if Blank(last.id) || last.id in IDs(before) then before else before + [last])
      && IDs(after) == IDs(before) + (if Blank(last.id) then {} else {last.id})
  {
    assert (items + [last])[..|items|] == items;
    IDsAppend(FirstOfEach(items), last);
  }

  /** The body of a merge loop; `next` is `items` followed by `item`. */
  method AddIfNew<T>(ghost items: seq<Item<T>>, ghost next: seq<Item<T>>, item: Item<T>, key: string, merged0: seq<Item<T>>, seen0: set<string>)
    returns (merged: seq<Item<T>>, seen: set<string>)
    requires next == items + [item] && item.id == key
    requires merged0 == FirstOfEach(items) && seen0 == IDs(merged0)
    ensures merged == FirstOfEach(next) && seen == IDs(merged)
  {
    FirstOfEachStep(items, item);
    merged, seen := merged0, seen0;
    if Blank(key) || key in seen {
      return;
    }
    merged := merged + [item];
    seen := seen + {key};
  }

  /** The loop over one list of items, after the items of `before`. */
  method AddAll<T>(ghost before: seq<Item<T>>, items: seq<Item<T>>, merged0: seq<Item<T>>, seen0: set<string>)
    returns (merged: seq<Item<T>>, seen: set<string>)
    requires merged0 == FirstOfEach(before) && seen0 == IDs(merged0)
    ensures merged == FirstOfEach(before + items) && seen == IDs(merged)
  {
    merged, seen := merged0, seen0;
    ghost var done := before;
    for i := 0 to |items|
      invariant done == before + items[..i]
      invariant merged == FirstOfEach(done) && seen == IDs(merged)
    {
      ghost var next := done + [items[i]];
      assert items[..i + 1] == items[..i] + [items[i]];
      merged, seen := AddIfNew(done, next, items[i], items[i].id, merged, seen);
      done := next;
    }
    assert done == before + items;
  }

  method MergeXBookmarks(previous: seq<Bookmark>, fetched: seq<Bookmark>) returns (merged: seq<Bookmark>)
    ensures merged == Merged(previous, fetched)
  {
    if |previous| == 0 {
      return fetched;
    }
    var seen: set<string>;
    merged, seen := AddAll([], fetched, [], {});
    assert [] + fetched == fetched;
    merged, seen := AddAll(fetched, previous, merged, seen);
  }

  lemma VideosByIDMeaning(previous: seq<Video>)
    ensures forall id :: id in VideosByID(previous) ==>
      VideosByID(previous)[id] in previous && VideosByID(previous)[id].id == id
    ensures forall v :: v in previous ==> v.id in VideosByID(previous)
  {
    if previous != [] {
      var init, last := previous[..|previous| - 1], previous[|previous| - 1];
      VideosByIDMeaning(init);
      assert previous == init + [last];
    }
  }

  method IndexVideos(previous: seq<Video>) returns (previousByID: map<string, Video>)
    ensures previousByID == VideosByID(previous)
  {
    previousByID := map[];
    for i := 0 to |previous|
      invariant previousByID == VideosByID(previous[..i])
    {
      assert previous[..i + 1][..i] == previous[..i];
      previousByID := previousByID[previous[i].id := previous[i]];
    }
    assert previous[..|previous|] == previous;
  }

  /** The loop over the fetched videos. */
  /** A cached entry is replaced by the previous one. */
  method RestoreItem(previousByID: map<string, Video>, fetched: Video) returns (item: Video)
    ensures item == Restored(previousByID, fetched)
    ensures (forall id :: id in previousByID ==> previousByID[id].id == id) ==> item.id == fetched.id
  {
    item := fetched;
    if item.id in previousByID && item.detail.transcriptStatus == "cached" {
      item := previousByID[item.id];
    }
  }

  method AddRestored(previousByID: map<string, Video>, fetched: seq<Video>) returns (merged: seq<Video>, seen: set<string>)
    requires forall id :: id in previousByID ==> previousByID[id].id == id
    ensures merged == FirstOfEach(AllRestored(previousByID, fetched)) && seen == IDs(merged)
  {
    ghost var restored := AllRestored(previousByID, fetched);
    merged, seen := [], {};
    for i := 0 to |fetched|
      invariant merged == FirstOfEach(restored[..i]) && seen == IDs(merged)
    {
      var item := RestoreItem(previousByID, fetched[i]);
      assert restored[..i + 1] == restored[..i] + [item];
      merged, seen := AddIfNew(restored[..i], restored[..i + 1], item, fetched[i].id, merged, seen);
    }
    assert restored[..|fetched|] == restored;
  }

  method MergeYouTubeItems(previous: seq<Video>, fetched: seq<Video>) returns (merged: seq<Video>)
    ensures merged == MergedVideos(previous, fetched)
  {
    if |previous| == 0 {
      NothingRestored(fetched);
      return fetched;
    }
    var previousByID := IndexVideos(previous);
    VideosByIDMeaning(previous);
    var seen: set<string>;
    merged, seen := AddRestored(previousByID, fetched);
    merged, seen := AddAll(AllRestored(previousByID, fetched), previous, merged, seen);
  }

  lemma NothingRestored(fetched: seq<Video>)
    ensures AllRestored(map[], fetched) == fetched
  {
  }

  // ---------------------------------------------------------------- what merging keeps

  /** Each ID that is not blank is kept once. */
  lemma {:induction false} FirstOfEachExact<T>(items: seq<Item<T>>)
    ensures DistinctIDs(FirstOfEach(items)) && NoBlankIDs(FirstOfEach(items))
    ensures IDs(FirstOfEach(items)) == set id | id in IDs(items) && !Blank(id)
  {
    if items != [] {
      var init, last := items[..|items| - 1], items[|items| - 1];
      assert items == init + [last];
      FirstOfEachExact(init);
      FirstOfEachStep(init, last);
      IDsAppend(init, last);
      if !Blank(last.id) && last.id !in IDs(FirstOfEach(init)) {
        AppendDistinct(FirstOfEach(init), last);
      }
    }
  }

  lemma AppendDistinct<T>(items: seq<Item<T>>, last: Item<T>)
    requires DistinctIDs(items) && NoBlankIDs(items) && last.id !in IDs(items) && !Blank(last.id)
    ensures DistinctIDs(items + [last]) && NoBlankIDs(items + [last])
  {
    assert forall k :: 0 <= k < |items| ==> items[k].id in IDs(items);
  }

  /** The items of `items` whose ID is not among `ids`. */
  function Without<T>(items: seq<Item<T>>, ids: set<string>): seq<Item<T>> {
    if items == [] then []
    else
      var rest := Without(items[..|items| - 1], ids);
      if items[|items| - 1].id in ids then rest else rest + [items[|items| - 1]]
  }

  lemma {:induction false} WithoutIDs<T>(items: seq<Item<T>>, ids: set<string>)
    ensures IDs(Without(items, ids)) == IDs(items) - ids
  {
    if items != [] {
      var init, last := items[..|items| - 1], items[|items| - 1];
      assert items == init + [last];
      WithoutIDs(init, ids);
      IDsAppend(init, last);
      IDsAppend(Without(init, ids), last);
    }
  }

  lemma {:induction false} FirstOfEachFresh<T>(a: seq<Item<T>>, b: seq<Item<T>>)
    requires DistinctIDs(b) && NoBlankIDs(b)
    ensures FirstOfEach(a + b) == FirstOfEach(a) + Without(b, IDs(FirstOfEach(a)))
  {
    if b == [] {
      assert a + b == a;
    } else {
      var init, last := b[..|b| - 1], b[|b| - 1];
      assert b == init + [last] && a + b == (a + init) + [last];
      FirstOfEachFresh(a, init);
      FirstOfEachStep(a + init, last);
      var first := FirstOfEach(a);
      WithoutIDs(init, IDs(first));
      IDsUnion(first, Without(init, IDs(first)));
      assert last.id !in IDs(init);
    }
  }

  lemma IDsUnion<T>(a: seq<Item<T>>, b: seq<Item<T>>)
    ensures IDs(a + b) == IDs(a) + IDs(b)
  {
    forall id | id in IDs(a) + IDs(b) ensures id in IDs(a + b) {
      if id in IDs(a) {
        var k :| 0 <= k < |a| && a[k].id == id;
        assert (a + b)[k].id == id;
      } else {
        var k :| 0 <= k < |b| && b[k].id == id;
        assert (a + b)[|a| + k].id == id;
      }
    }
  }

  /** A fetch of distinct items comes first and unchanged, followed by the previous items
      that were not fetched again. */
  lemma MergeExact<T>(previous: seq<Item<T>>, fetched: seq<Item<T>>)
    requires DistinctIDs(fetched) && NoBlankIDs(fetched)
    requires DistinctIDs(previous) && NoBlankIDs(previous)
    ensures Merged(previous, fetched) == fetched + Without(previous, IDs(fetched))
    ensures DistinctIDs(Merged(previous, fetched)) && NoBlankIDs(Merged(previous, fetched))
    ensures IDs(Merged(previous, fetched)) == IDs(previous) + IDs(fetched)
  {
    DistinctIsKept(fetched);
    FirstOfEachFresh(fetched, previous);
    WithoutIDs(previous, IDs(fetched));
    IDsUnion(fetched, Without(previous, IDs(fetched)));
    FirstOfEachExact(fetched + previous);
  }

  lemma {:induction false} DistinctIsKept<T>(items: seq<Item<T>>)
    requires DistinctIDs(items) && NoBlankIDs(items)
    ensures FirstOfEach(items) == items
  {
    if items != [] {
      var init, last := items[..|items| - 1], items[|items| - 1];
      assert items == init + [last];
      DistinctIsKept(init);
      FirstOfEachStep(init, last);
    }
  }

  /** The fetch has the video with that transcript status. */
  ghost predicate FetchedAs(fetched: seq<Video>, id: string, status: string) {
    exists k :: 0 <= k < |fetched| && fetched[k].id == id && fetched[k].detail.transcriptStatus == status
  }

  /** After a merge, an ID names the previous video if it was not fetched or was fetched with
      its transcript still cached, and the fetched video otherwise. */
  lemma VideoMergeExact(previous: seq<Video>, fetched: seq<Video>, v: Video)
    requires DistinctIDs(fetched) && NoBlankIDs(fetched)
    requires DistinctIDs(previous) && NoBlankIDs(previous)
    ensures DistinctIDs(MergedVideos(previous, fetched))
    ensures IDs(MergedVideos(previous, fetched)) == IDs(previous) + IDs(fetched)
    ensures v in MergedVideos(previous, fetched) <==>
      if v.id !in IDs(fetched) || (v.id in IDs(previous) && FetchedAs(fetched, v.id, "cached"))
      then v in previous else v in fetched
  {
    var byID := VideosByID(previous);
    var restored := AllRestored(byID, fetched);
    RestoredIDs(previous, fetched);
    MergeExact(previous, restored);
    WithoutMembers(previous, IDs(fetched), v);
    if v.id in IDs(fetched) {
      var k :| 0 <= k < |fetched| && fetched[k].id == v.id;
      RestoredVideo(previous, fetched, k, v);
    }
  }

  lemma RestoredIDs(previous: seq<Video>, fetched: seq<Video>)
    ensures var restored := AllRestored(VideosByID(previous), fetched);
      && IDs(restored) == IDs(fetched)
      && (DistinctIDs(fetched) ==> DistinctIDs(restored))
      && (NoBlankIDs(fetched) ==> NoBlankIDs(restored))
  {
    VideosByIDMeaning(previous);
    var restored := AllRestored(VideosByID(previous), fetched);
    assert forall k :: 0 <= k < |fetched| ==> restored[k].id == fetched[k].id;
  }

  lemma RestoredVideo(previous: seq<Video>, fetched: seq<Video>, k: nat, v: Video)
    requires DistinctIDs(fetched) && DistinctIDs(previous) && k < |fetched| && fetched[k].id == v.id
    ensures v in AllRestored(VideosByID(previous), fetched) <==>
      if v.id in IDs(previous) && FetchedAs(fetched, v.id, "cached") then v in previous else v in fetched
  {
    var byID := VideosByID(previous);
    var restored := AllRestored(byID, fetched);
    VideosByIDMeaning(previous);
    RestoredIDs(previous, fetched);
    SameByID(restored, restored[k], v, k);
    SameByID(fetched, fetched[k], v, k);
    assert FetchedAs(fetched, v.id, "cached") <==> fetched[k].detail.transcriptStatus == "cached";
    if v.id in IDs(previous) {
      var m :| 0 <= m < |previous| && previous[m].id == v.id;
      assert previous[m] in previous && v.id in byID;
      var n :| 0 <= n < |previous| && previous[n] == byID[v.id];
      SameByID(previous, previous[n], v, n);
    } else {
      assert v.id !in byID;
    }
  }

  lemma {:induction false} WithoutMembers<T>(items: seq<Item<T>>, ids: set<string>, x: Item<T>)
    ensures x in Without(items, ids) <==> x in items && x.id !in ids
  {
    if items != [] {
      WithoutMembers(items[..|items| - 1], ids, x);
      assert items == items[..|items| - 1] + [items[|items| - 1]];
    }
  }

  lemma SameByID<T>(items: seq<Item<T>>, a: Item<T>, b: Item<T>, k: nat)
    requires DistinctIDs(items) && k < |items| && items[k] == a && a.id == b.id
    ensures b in items <==> a == b
  {
  }

  /** Item `k` is the first of its ID. */
  ghost predicate FirstOfID<T>(items: seq<Item<T>>, k: nat) {
    k < |items| && !Blank(items[k].id) && forall j :: 0 <= j < k ==> items[j].id != items[k].id
  }

  ghost predicate IsFirstOfID<T>(items: seq<Item<T>>, x: Item<T>) {
    exists k: nat :: FirstOfID(items, k) && items[k] == x
  }

  lemma IsFirstMore<T>(init: seq<Item<T>>, last: Item<T>, x: Item<T>)
    ensures IsFirstOfID(init + [last], x) <==> IsFirstOfID(init, x) || (x == last && !Blank(last.id) && last.id !in IDs(init))
  {
    var items := init + [last];
    assert items[|init|] == last && forall k :: 0 <= k < |init| ==> items[k] == init[k];
    if k: nat :| FirstOfID(init, k) && init[k] == x {
      assert FirstOfID(items, k);
    }
    if x == last && !Blank(last.id) && last.id !in IDs(init) {
      assert FirstOfID(items, |init|);
    }
    if k: nat :| FirstOfID(items, k) && items[k] == x {
      assert k < |init| ==> FirstOfID(init, k);
    }
  }

  /** What is kept of each ID that is not blank is its first item. */
  lemma {:induction false} FirstOfEachKeepsFirst<T>(items: seq<Item<T>>, x: Item<T>)
    ensures x in FirstOfEach(items) <==> IsFirstOfID(items, x)
  {
    if items != [] {
      var init, last := items[..|items| - 1], items[|items| - 1];
      assert items == init + [last];
      FirstOfEachKeepsFirst(init, x);
      FirstOfEachExact(init);
      IsFirstMore(init, last, x);
    }
  }
}
