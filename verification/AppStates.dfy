/** The app state that is built for publishing: its run ID, the ten blobs it is written as, and how
    far the run ID determines them. */
module AppStates {
  import opened Basics
  import opened Text

  /** The run-keyed values, in the order in which they are written. */
  datatype Blob = Latest | Meta | AppState | Digests | Graph | AskContext | Insights | Newsletter | Bookmarks | Videos

  const BLOBS := [Latest, Meta, AppState, Digests, Graph, AskContext, Insights, Newsletter, Bookmarks, Videos]

  /** A digest; `available` and `base64` are never written to a blob. */
  datatype Digest = Digest(
    id: string, digestDate: string, scheduledFor: int, idempotencyKey: string, subject: string, body: string, status: string,
    prompt: string, alt: string, mime: string, model: string, available: bool, base64: string, url: string,
    deliveries: seq<string>, refs: seq<string>)

  /** What the run ID takes in of a digest. */
  datatype Version = Version(
    id: string, digestDate: string, scheduledFor: int, idempotencyKey: string, subject: string, body: string, status: string,
    alt: string, mime: string, model: string, ready: bool)

  datatype Versions = Versions(latest: Option<Version>, digests: seq<Version>)

  /** The fields of a result that every cached view shows. */
  datatype Info = Info(sourceStatus: string, validation: seq<string>, blockers: seq<string>)

  /** A result without its time and digest; `themes` are its themes, clusters and connections. */
  datatype Core = Core(info: Info, bookmarks: seq<string>, videos: seq<string>, insights: seq<string>, themes: seq<string>, rest: string)

  datatype Result = Result(generatedAt: int, core: Core, digest: Option<Digest>)

  /** What a state is built from: the latest result, the digests, the refresh status, the graph status
      if one is given, and the time. */
  datatype Inputs = Inputs(latest: Option<Result>, digests: seq<Digest>, refresh: string, graphStatus: string, now: int)

  /** What is computed from these: the written form of a time, the hash of digest versions, the
      graph and the sources to ask of a result, and the public address of a digest's illustration. */
  datatype Derive = Derive(
    stamp: int -> string,
    hash: Versions -> string,
    graph: Core -> string,
    sources: Core -> seq<string>,
    address: string -> string)

  /** What a reader sees of a blob. The app state is without its manifest, for which a reader puts
      the one that it read. */
  datatype Raw =
    | LatestRaw(latest: Option<Result>)
    | MetaRaw(generatedAt: int, info: Option<Info>)
    | AppStateRaw(latest: Option<Result>, digests: seq<Digest>, refresh: string, graph: Raw, ask: Raw)
    | DigestsRaw(digests: seq<Digest>)
    | GraphRaw(status: string, themes: seq<string>, insightGraph: Option<string>)
    | AskRaw(runID: string, sources: seq<string>, updatedAt: int)
    | ItemsRaw(items: seq<string>)
    | NewsletterRaw(digest: Option<Digest>)

  // ---------------------------------------------------------------- building a state

  function VersionOf(d: Digest): Version {
    Version(d.id, d.digestDate, d.scheduledFor, d.idempotencyKey, d.subject, d.body, d.status, d.alt, d.mime, d.model,
      d.available || !Blank(d.base64))
  }

  function VersionsOf(digests: seq<Digest>): (r: seq<Version>)
    ensures |r| == |digests|
    ensures forall k :: 0 <= k < |digests| ==> r[k] == VersionOf(digests[k])
  {
    if digests == [] then [] else VersionsOf(digests[..|digests| - 1]) + [VersionOf(digests[|digests| - 1])]
  }

  function LatestDigest(i: Inputs): Option<Digest> {
    if i.latest.Some? then i.latest.value.digest else None
  }

  function AllVersions(i: Inputs): Versions {
    Versions(if LatestDigest(i).Some? then Some(VersionOf(LatestDigest(i).value)) else None, VersionsOf(i.digests))
  }

  /** The time 0 is the zero time. */
  function BaseRunID(d: Derive, i: Inputs): string {
    if i.latest.None? || i.latest.value.generatedAt == 0 then "none" else d.stamp(i.latest.value.generatedAt)
  }

  function RunIDOf(d: Derive, i: Inputs): string {
    BaseRunID(d, i) + if LatestDigest(i).None? && i.digests == [] then "" else "-d" + d.hash(AllVersions(i))
  }

  predicate Illustrated(digest: Digest) {
    !Blank(digest.id) && (digest.available || !Blank(digest.base64) || !Blank(digest.mime) || !Blank(digest.alt))
  }

  /** A digest gets the address of its illustration, if it has one. */
  function Annotated(d: Derive, digest: Digest): Digest {
    if Illustrated(digest) then digest.(url := d.address(digest.id)) else digest
  }

  /** A digest as it is written to a blob. */
  function Written(d: Derive, digest: Digest): Digest {
    Annotated(d, digest).(available := false, base64 := "")
  }

  function WrittenAll(d: Derive, digests: seq<Digest>): (r: seq<Digest>)
    ensures |r| == |digests|
    ensures forall k :: 0 <= k < |digests| ==> r[k] == Written(d, digests[k])
  {
    if digests == [] then [] else WrittenAll(d, digests[..|digests| - 1]) + [Written(d, digests[|digests| - 1])]
  }

  function WrittenOption(d: Derive, digest: Option<Digest>): Option<Digest> {
    if digest.Some? then Some(Written(d, digest.value)) else None
  }

  function WrittenLatest(d: Derive, i: Inputs): Option<Result> {
    if i.latest.Some? then Some(i.latest.value.(digest := WrittenOption(d, i.latest.value.digest))) else None
  }

  /** The given graph status, or the one that fits the result. */
  function GraphStatus(i: Inputs): string {
    if i.graphStatus != "" then i.graphStatus
    else if i.latest.None? then "none"
    else if i.latest.value.core.themes != [] then "derived" else "skipped"
  }

  function GraphOf(d: Derive, i: Inputs): Raw {
    if i.latest.None? then GraphRaw(GraphStatus(i), [], None)
    else GraphRaw(GraphStatus(i), i.latest.value.core.themes, Some(d.graph(i.latest.value.core)))
  }

  function AskOf(d: Derive, i: Inputs): Raw {
    AskRaw(RunIDOf(d, i), if i.latest.None? then [] else d.sources(i.latest.value.core), i.now)
  }

  function MetaOf(i: Inputs): Raw {
    if i.latest.None? then MetaRaw(0, None) else MetaRaw(i.latest.value.generatedAt, Some(i.latest.value.core.info))
  }

  /** The ten values of a state. */
  function ValueOf(d: Derive, i: Inputs, blob: Blob): Raw {
    match blob
    case Latest => LatestRaw(WrittenLatest(d, i))
    case Meta => MetaOf(i)
    case AppState => AppStateRaw(WrittenLatest(d, i), WrittenAll(d, i.digests), i.refresh, GraphOf(d, i), AskOf(d, i))
    case Digests => DigestsRaw(WrittenAll(d, i.digests))
    case Graph => GraphOf(d, i)
    case AskContext => AskOf(d, i)
    case Insights => ItemsRaw(if i.latest.None? then [] else i.latest.value.core.insights)
    case Newsletter => NewsletterRaw(WrittenOption(d, LatestDigest(i)))
    case Bookmarks => ItemsRaw(if i.latest.None? then [] else i.latest.value.core.bookmarks)
    case Videos => ItemsRaw(if i.latest.None? then [] else i.latest.value.core.videos)
  }

  function ContentOf(d: Derive, i: Inputs): map<Blob, Raw> {
    map blob: Blob | true :: ValueOf(d, i, blob)
  }

  // ---------------------------------------------------------------- what the blobs say

  /** A digest is written with an address if it has an illustration, without the image, and otherwise
      as it is. */
  ghost predicate WrittenAs(d: Derive, digest: Digest, written: Digest) {
    && written.url == (if Illustrated(digest) then d.address(digest.id) else digest.url)
    && !written.available && written.base64 == ""
    && written == digest.(url := written.url, available := false, base64 := "")
  }

  lemma WrittenDigest(d: Derive, digest: Digest)
    ensures WrittenAs(d, digest, Written(d, digest))
  {
  }

  /** The small blobs are the parts of the large ones: the result that the latest blob holds, with its
      digest written, is the one the state was built from, and every view, the meta data, the graph, the
      newsletter, and the app state's own parts are parts of it. */
  lemma BlobsAgree(d: Derive, i: Inputs, content: map<Blob, Raw>, latest: Option<Result>)
    requires content == ContentOf(d, i) && latest == ValueOf(d, i, Latest).latest
    ensures content[Latest] == LatestRaw(latest) && (latest.Some? <==> i.latest.Some?)
    ensures latest.Some? ==> latest.value.core == i.latest.value.core && latest.value.generatedAt == i.latest.value.generatedAt
    ensures latest.Some? ==> (latest.value.digest.Some? <==> i.latest.value.digest.Some?)
    ensures latest.Some? && latest.value.digest.Some? ==> WrittenAs(d, i.latest.value.digest.value, latest.value.digest.value)
    ensures content[Meta] == if latest.Some? then MetaRaw(latest.value.generatedAt, Some(latest.value.core.info)) else MetaRaw(0, None)
    ensures content[Insights] == ItemsRaw(if latest.Some? then latest.value.core.insights else [])
    ensures content[Bookmarks] == ItemsRaw(if latest.Some? then latest.value.core.bookmarks else [])
    ensures content[Videos] == ItemsRaw(if latest.Some? then latest.value.core.videos else [])
    ensures content[Newsletter] == NewsletterRaw(if latest.Some? then latest.value.digest else None)
    ensures content[Graph].GraphRaw? && content[Graph].themes == (if latest.Some? then latest.value.core.themes else [])
    ensures content[Graph].insightGraph == if latest.Some? then Some(d.graph(latest.value.core)) else None
    ensures content[AskContext] == AskRaw(RunIDOf(d, i), if latest.Some? then d.sources(latest.value.core) else [], i.now)
  {
    if i.latest.Some? && i.latest.value.digest.Some? {
      WrittenDigest(d, i.latest.value.digest.value);
    }
  }

  lemma AppStateAgrees(d: Derive, i: Inputs, content: map<Blob, Raw>, k: nat)
    requires content == ContentOf(d, i)
    ensures content[Latest].LatestRaw? && content[Digests].DigestsRaw?
    ensures content[AppState] == AppStateRaw(content[Latest].latest, content[Digests].digests, i.refresh, content[Graph], content[AskContext])
    ensures |content[Digests].digests| == |i.digests| && (k < |i.digests| ==> WrittenAs(d, i.digests[k], content[Digests].digests[k]))
  {
    if k < |i.digests| {
      WrittenDigest(d, i.digests[k]);
    }
  }

  /** The graph's status is the one that was given, or else tells whether there is a result and whether it
      has anything to draw. */
  lemma GraphStatusExact(d: Derive, i: Inputs)
    ensures ValueOf(d, i, Graph).GraphRaw?
    ensures i.graphStatus != "" ==> ValueOf(d, i, Graph).status == i.graphStatus
    ensures i.graphStatus == "" && i.latest.None? ==> ValueOf(d, i, Graph).status == "none"
    ensures i.graphStatus == "" && i.latest.Some? ==>
      ValueOf(d, i, Graph).status == if i.latest.value.core.themes == [] then "skipped" else "derived"
  {
  }

  /** What a run ID takes in of a digest: all but its deliveries, references, address, prompt and image,
      of which only whether there is one counts. */
  lemma VersionsAreEqual(a: Digest, b: Digest)
    ensures VersionOf(a) == VersionOf(b) <==>
      && a.id == b.id && a.digestDate == b.digestDate && a.scheduledFor == b.scheduledFor && a.idempotencyKey == b.idempotencyKey
      && a.subject == b.subject && a.body == b.body && a.status == b.status && a.alt == b.alt && a.mime == b.mime && a.model == b.model
      && (a.available || !Blank(a.base64) <==> b.available || !Blank(b.base64))
  {
  }

  // ---------------------------------------------------------------- what a run ID determines

  predicate Plain(s: string) {
    s != "" && forall k :: 0 <= k < |s| ==> s[k] != '-' && !IsSpace(s[k])
  }

  /** The written time and hash of a state hold no hyphen and no space, and the time is not "none". */
  predicate PlainParts(d: Derive, i: Inputs) {
    && Plain(d.hash(AllVersions(i)))
    && (i.latest.Some? ==> Plain(d.stamp(i.latest.value.generatedAt)) && d.stamp(i.latest.value.generatedAt) != "none")
  }

  /** Of two states the written times and hashes differ if what they stand for does. */
  predicate Distinguishes(d: Derive, i: Inputs, j: Inputs) {
    && PlainParts(d, i) && PlainParts(d, j)
    && (d.hash(AllVersions(i)) == d.hash(AllVersions(j)) ==> AllVersions(i) == AllVersions(j))
    && (i.latest.Some? && j.latest.Some? && d.stamp(i.latest.value.generatedAt) == d.stamp(j.latest.value.generatedAt) ==>
          i.latest.value.generatedAt == j.latest.value.generatedAt)
  }

  /** Stored results carry their time, and two of the same time are the same but for the digest. */
  predicate OneRun(i: Inputs, j: Inputs) {
    && (i.latest.Some? ==> i.latest.value.generatedAt != 0)
    && (j.latest.Some? ==> j.latest.value.generatedAt != 0)
    && (i.latest.Some? && j.latest.Some? && i.latest.value.generatedAt == j.latest.value.generatedAt ==>
          i.latest.value.core == j.latest.value.core)
  }

  lemma UpToHyphen(a: string, s: string)
    requires '-' !in a && (s == "" || s[0] == '-')
    ensures UpTo(a + s, '-') == a && (a + s)[|a|..] == s
  {
    if s == "" {
      UpToOfJoin(a, '-', "");
      NoHyphen(a);
      assert a + s == a;
    } else {
      UpToOfJoin(a, '-', s[1..]);
      assert a + s == a + ['-'] + s[1..];
    }
  }

  lemma {:induction false} NoHyphen(a: string)
    requires '-' !in a
    ensures UpTo(a, '-') == a
  {
    if a != "" {
      NoHyphen(a[1..]);
    }
  }

  /** The part of a run ID that comes from the digests. */
  function DigestPart(d: Derive, i: Inputs): (r: string)
    ensures RunIDOf(d, i) == BaseRunID(d, i) + r
    ensures r == "" || r[0] == '-'
  {
    if LatestDigest(i).None? && i.digests == [] then "" else "-d" + d.hash(AllVersions(i))
  }

  lemma SameDigestPart(d: Derive, i: Inputs, j: Inputs)
    requires Distinguishes(d, i, j)
    ensures DigestPart(d, i) == DigestPart(d, j) <==> AllVersions(i) == AllVersions(j)
  {
    if DigestPart(d, i) == DigestPart(d, j) && DigestPart(d, i) != "" {
      assert DigestPart(d, i)[2..] == d.hash(AllVersions(i)) && DigestPart(d, j)[2..] == d.hash(AllVersions(j));
    }
  }

  /** A run ID determines whether there is a result, its time, and the versions of all digests, and
      nothing else. */
  lemma RunIDDetermines(d: Derive, i: Inputs, j: Inputs)
    requires Distinguishes(d, i, j) && OneRun(i, j)
    ensures RunIDOf(d, i) == RunIDOf(d, j) <==>
      && (i.latest.Some? <==> j.latest.Some?)
      && (i.latest.Some? ==> i.latest.value.generatedAt == j.latest.value.generatedAt)
      && AllVersions(i) == AllVersions(j)
  {
    SameDigestPart(d, i, j);
    if RunIDOf(d, i) == RunIDOf(d, j) {
      UpToHyphen(BaseRunID(d, i), DigestPart(d, i));
      UpToHyphen(BaseRunID(d, j), DigestPart(d, j));
    }
  }

  /** What all states of a run have in common. */
  lemma RunIDFixesBlobs(d: Derive, i: Inputs, j: Inputs, blob: Blob)
    requires Distinguishes(d, i, j) && OneRun(i, j) && RunIDOf(d, i) == RunIDOf(d, j)
    requires blob in {Meta, Insights, Bookmarks, Videos}
    ensures ValueOf(d, i, blob) == ValueOf(d, j, blob)
  {
    RunIDDetermines(d, i, j);
  }

  /** The graph and the sources to ask depend on two inputs that the run ID leaves out. */
  lemma GraphAndAskVary(d: Derive, i: Inputs, j: Inputs)
    requires Distinguishes(d, i, j) && OneRun(i, j) && RunIDOf(d, i) == RunIDOf(d, j)
    ensures ValueOf(d, i, Graph) == ValueOf(d, j, Graph) <==> GraphStatus(i) == GraphStatus(j)
    ensures ValueOf(d, i, AskContext) == ValueOf(d, j, AskContext) <==> i.now == j.now
  {
    RunIDDetermines(d, i, j);
  }

  lemma LatestVaries(d: Derive, i: Inputs, j: Inputs)
    requires Distinguishes(d, i, j) && OneRun(i, j) && RunIDOf(d, i) == RunIDOf(d, j)
    ensures ValueOf(d, i, Latest) == ValueOf(d, j, Latest) <==>
      WrittenOption(d, LatestDigest(i)) == WrittenOption(d, LatestDigest(j))
  {
    RunIDDetermines(d, i, j);
    if i.latest.Some? {
      assert WrittenLatest(d, i).value.digest == WrittenOption(d, LatestDigest(i));
      assert WrittenLatest(d, j).value.digest == WrittenOption(d, LatestDigest(j));
    }
  }

  lemma AppStateVaries(d: Derive, i: Inputs, j: Inputs)
    ensures ValueOf(d, i, AppState) == ValueOf(d, j, AppState) <==>
      && i.refresh == j.refresh
      && ValueOf(d, i, Latest) == ValueOf(d, j, Latest) && ValueOf(d, i, Digests) == ValueOf(d, j, Digests)
      && ValueOf(d, i, Graph) == ValueOf(d, j, Graph) && ValueOf(d, i, AskContext) == ValueOf(d, j, AskContext)
  {
  }

  lemma DigestsVary(d: Derive, i: Inputs, j: Inputs)
    ensures ValueOf(d, i, Digests) == ValueOf(d, j, Digests) <==> WrittenAll(d, i.digests) == WrittenAll(d, j.digests)
    ensures ValueOf(d, i, Newsletter) == ValueOf(d, j, Newsletter) <==>
      WrittenOption(d, LatestDigest(i)) == WrittenOption(d, LatestDigest(j))
  {
  }

  /** Exactly when two states of a run share the other blobs. */
  lemma RunIDLeavesBlobs(d: Derive, i: Inputs, j: Inputs, digests: bool, newsletter: bool)
    requires Distinguishes(d, i, j) && OneRun(i, j) && RunIDOf(d, i) == RunIDOf(d, j)
    requires digests == (WrittenAll(d, i.digests) == WrittenAll(d, j.digests))
    requires newsletter == (WrittenOption(d, LatestDigest(i)) == WrittenOption(d, LatestDigest(j)))
    ensures ValueOf(d, i, Digests) == ValueOf(d, j, Digests) <==> digests
    ensures ValueOf(d, i, Newsletter) == ValueOf(d, j, Newsletter) <==> newsletter
    ensures ValueOf(d, i, Latest) == ValueOf(d, j, Latest) <==> newsletter
    ensures ValueOf(d, i, Graph) == ValueOf(d, j, Graph) <==> GraphStatus(i) == GraphStatus(j)
    ensures ValueOf(d, i, AskContext) == ValueOf(d, j, AskContext) <==> i.now == j.now
    ensures ValueOf(d, i, AppState) == ValueOf(d, j, AppState) <==>
      digests && newsletter && GraphStatus(i) == GraphStatus(j) && i.now == j.now && i.refresh == j.refresh
  {
    LatestVaries(d, i, j);
    GraphAndAskVary(d, i, j);
    DigestsVary(d, i, j);
    AppStateVaries(d, i, j);
  }

  lemma RunIDIsTrimmed(d: Derive, i: Inputs)
    requires PlainParts(d, i)
    ensures Trim(RunIDOf(d, i)) == RunIDOf(d, i) && RunIDOf(d, i) != ""
  {
    var base, part := BaseRunID(d, i), DigestPart(d, i);
    assert Plain(base);
    assert (base + part)[0] == base[0];
    if part == "" {
      assert base + part == base;
    } else {
      assert part[|part| - 1] == d.hash(AllVersions(i))[|part| - 3];
      assert (base + part)[|base + part| - 1] == part[|part| - 1];
    }
  }

  // ---------------------------------------------------------------- what a newsletter view shows

  function Compact(digest: Digest): Digest {
    digest.(deliveries := [], refs := [], prompt := "", model := "")
  }

  function CompactAll(digests: seq<Digest>): (r: seq<Digest>)
    ensures |r| == |digests|
    ensures forall k :: 0 <= k < |digests| ==> r[k] == Compact(digests[k])
  {
    if digests == [] then [] else CompactAll(digests[..|digests| - 1]) + [Compact(digests[|digests| - 1])]
  }

  /** The newsletter a view shows for what it read: the first compact digest, if there is any. */
  function Shown(newsletter: Option<Raw>, digests: Raw): Option<Digest>
    requires digests.DigestsRaw? && (newsletter.Some? ==> newsletter.value.NewsletterRaw?)
  {
    if digests.digests != [] then Some(Compact(digests.digests[0]))
    else if newsletter.Some? then newsletter.value.digest
    else None
  }

  /** Digests without an illustration have no address of one. */
  predicate AddressesFit(digests: seq<Digest>) {
    forall k :: 0 <= k < |digests| ==> Illustrated(digests[k]) || digests[k].url == ""
  }

  lemma SameVersionSameCompact(d: Derive, a: Digest, b: Digest)
    requires VersionOf(a) == VersionOf(b)
    requires Illustrated(a) || a.url == ""
    requires Illustrated(b) || b.url == ""
    ensures Compact(Written(d, a)) == Compact(Written(d, b))
  {
    assert Illustrated(a) == Illustrated(b);
  }

  /** Two states of one run may differ in their digest blobs, but a view shows the same compact
      digests of either. */
  lemma RunIDFixesCompact(d: Derive, i: Inputs, j: Inputs)
    requires Distinguishes(d, i, j) && OneRun(i, j) && RunIDOf(d, i) == RunIDOf(d, j)
    requires AddressesFit(i.digests) && AddressesFit(j.digests)
    ensures CompactAll(WrittenAll(d, i.digests)) == CompactAll(WrittenAll(d, j.digests))
  {
    RunIDDetermines(d, i, j);
    SameVersionsSameCompact(d, i.digests, j.digests);
  }

  lemma SameVersionsSameCompact(d: Derive, a: seq<Digest>, b: seq<Digest>)
    requires VersionsOf(a) == VersionsOf(b) && AddressesFit(a) && AddressesFit(b)
    ensures CompactAll(WrittenAll(d, a)) == CompactAll(WrittenAll(d, b))
  {
    assert |a| == |VersionsOf(a)| == |VersionsOf(b)| == |b|;
    forall k | 0 <= k < |a| ensures Compact(Written(d, a[k])) == Compact(Written(d, b[k])) {
      assert VersionOf(a[k]) == VersionsOf(a)[k] && VersionOf(b[k]) == VersionsOf(b)[k];
      SameVersionSameCompact(d, a[k], b[k]);
    }
  }

  lemma DeliveryIsNoVersion(d: Derive, x: Digest, sent: Digest)
    requires sent == x.(deliveries := x.deliveries + ["sent"])
    ensures VersionOf(x) == VersionOf(sent) && VersionsOf([x]) == VersionsOf([sent])
    ensures Written(d, x) != Written(d, sent) && WrittenAll(d, [x]) != WrittenAll(d, [sent])
  {
    assert |Written(d, x).deliveries| != |Written(d, sent).deliveries|;
    assert WrittenAll(d, [x])[0] == Written(d, x) && WrittenAll(d, [sent])[0] == Written(d, sent);
  }

  /** A second state of a run, built at another time, with another graph status and after a delivery,
      has the same run ID and shares none of these six blobs. */
  lemma RepublishedRunDiffers(d: Derive, i: Inputs, x: Digest, sent: Digest, j: Inputs)
    requires i.latest.Some? && i.latest.value.digest == Some(x) && i.digests == [x] && GraphStatus(i) != "refreshed"
    requires sent == x.(deliveries := x.deliveries + ["sent"])
    requires j == Inputs(Some(i.latest.value.(digest := Some(sent))), [sent], i.refresh, "refreshed", i.now + 1)
    ensures RunIDOf(d, i) == RunIDOf(d, j)
    ensures ValueOf(d, i, Digests) != ValueOf(d, j, Digests) && ValueOf(d, i, Newsletter) != ValueOf(d, j, Newsletter)
    ensures ValueOf(d, i, Latest) != ValueOf(d, j, Latest) && ValueOf(d, i, AppState) != ValueOf(d, j, AppState)
    ensures ValueOf(d, i, Graph) != ValueOf(d, j, Graph) && ValueOf(d, i, AskContext) != ValueOf(d, j, AskContext)
  {
    DeliveryIsNoVersion(d, x, sent);
    assert LatestDigest(i) == Some(x) && LatestDigest(j) == Some(sent);
    assert AllVersions(i) == AllVersions(j);
    DigestsVary(d, i, j);
    assert AskOf(d, i).updatedAt != AskOf(d, j).updatedAt && GraphOf(d, i).status != GraphOf(d, j).status;
    LatestShowsDigest(d, i);
    LatestShowsDigest(d, j);
    AppStateVaries(d, i, j);
  }

  lemma LatestShowsDigest(d: Derive, i: Inputs)
    requires i.latest.Some?
    ensures ValueOf(d, i, Latest).LatestRaw? && ValueOf(d, i, Latest).latest.Some?
    ensures ValueOf(d, i, Latest).latest.value.digest == WrittenOption(d, LatestDigest(i))
  {
  }
}
