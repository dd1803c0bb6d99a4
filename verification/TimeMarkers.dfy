/** The transcript with timestamps, as it is printed, and the time markers that are extracted
    from such a text. */
module TimeMarkers {
  import opened Basics
  import opened Text
  import opened Sorting
  import opened Timestamps
  import opened Words

  // ---------------------------------------------------------------- printing a transcript

  /** A chunk of a transcript as it arrives: `seconds` is None when it carries no usable time. */
  datatype Chunk = Chunk(text: string, seconds: Option<int>)

  datatype Segment = Segment(seconds: int, text: string)

  predicate SegmentLeq(a: Segment, b: Segment) {
    a.seconds <= b.seconds
  }

  /** The segment of a chunk, unless it has no text or no time. */
  function SegmentOf(chunk: Chunk): seq<Segment> {
    if Collapse(chunk.text) == "" || chunk.seconds.None? then []
    else [Segment(chunk.seconds.value, Collapse(chunk.text))]
  }

  function SegmentsOf(chunks: seq<Chunk>): seq<Segment> {
    if chunks == [] then [] else SegmentsOf(chunks[..|chunks| - 1]) + SegmentOf(chunks[|chunks| - 1])
  }

  function Line(s: Segment): string {
    "[" + FormatTimeMarkerTimestamp(s.seconds) + "] " + s.text
  }

  function Lines(segments: seq<Segment>): string {
    if segments == [] then ""
    else if |segments| == 1 then Line(segments[0])
    else Line(segments[0]) + ("\n" + Lines(segments[1..]))
  }

  /** The segments of a transcript by time; those of one second keep their order. */
  function Timed(chunks: seq<Chunk>): seq<Segment> {
    StableSort(SegmentLeq, SegmentsOf(chunks))
  }

  method CollectSegments(chunks: seq<Chunk>) returns (segments: seq<Segment>)
    ensures segments == SegmentsOf(chunks)
  {
    segments := [];
    for i := 0 to |chunks|
      invariant segments == SegmentsOf(chunks[..i])
    {
      assert chunks[..i + 1][..i] == chunks[..i];
      var text := Collapse(chunks[i].text);
      if text == "" || chunks[i].seconds.None? {
        continue;
      }
      segments := segments + [Segment(chunks[i].seconds.value, text)];
    }
    assert chunks[..|chunks|] == chunks;
  }

  method TranscriptTimedText(chunks: seq<Chunk>) returns (text: string)
    ensures text == Lines(Timed(chunks))
  {
    var segments := CollectSegments(chunks);
    var timed := StableSort(SegmentLeq, segments);
    text := Lines(timed);
  }

  // ---------------------------------------------------------------- the timestamp pattern

  /** `\s` of the pattern. */
  predicate PatternSpace(c: char) {
    c in {'\t', '\n', '\U{C}', '\r', ' '}
  }

  /** The length of the time `\d{1,2}:\d{2}(?::\d{2})?` at the start of `s`; no other length
      is possible there when a closing bracket has to follow. */
  function TimeLength(s: string): (n: Option<nat>)
    ensures n.Some? ==> 0 < n.value <= |s|
  {
    var h := if |s| > 1 && IsDigit(s[0]) && IsDigit(s[1]) then 2 else if |s| > 0 && IsDigit(s[0]) then 1 else 0;
    if h == 0 || |s| < h + 3 || s[h] != ':' || !IsDigit(s[h + 1]) || !IsDigit(s[h + 2]) then None
    else if |s| >= h + 6 && s[h + 3] == ':' && IsDigit(s[h + 4]) && IsDigit(s[h + 5]) then Some(h + 6)
    else Some(h + 3)
  }

  function PatternSpaceLength(s: string): (n: nat)
    ensures n <= |s|
    ensures n < |s| ==> !PatternSpace(s[n])
    ensures forall k :: 0 <= k < n ==> PatternSpace(s[k])
  {
    if s == [] || !PatternSpace(s[0]) then 0 else 1 + PatternSpaceLength(s[1..])
  }

  /** The length of the first line. */
  function LineLength(s: string): (n: nat)
    ensures n <= |s|
    ensures forall k :: 0 <= k < n ==> s[k] != '\n'
    ensures n < |s| ==> s[n] == '\n'
  {
    if s == [] || s[0] == '\n' then 0 else 1 + LineLength(s[1..])
  }

  /** The last position that holds no line break. */
  function LastVisible(s: string): (n: Option<nat>)
    ensures n.Some? ==> n.value < |s| && s[n.value] != '\n'
  {
    if s == [] then None
    else if s[|s| - 1] != '\n' then Some(|s| - 1)
    else LastVisible(s[..|s| - 1])
  }

  /** What `\s*([^\n]+)` captures at the start of `s`, and where: the spaces are greedy and
      give back only as much as the capture needs. */
  function Capture(s: string): (c: Option<(nat, nat)>)
    ensures c.Some? ==> c.value.0 < c.value.1 <= |s|
  {
    var n := PatternSpaceLength(s);
    if n < |s| then Some((n, n + LineLength(s[n..])))
    else
      match LastVisible(s)
      case None => None
      case Some(k) => Some((k, k + 1))
  }

  datatype Match = Match(stamp: string, quote: string, length: nat)

  /** A match of the whole pattern at the start of `s`. */
  function MatchHere(s: string): (m: Option<Match>)
    ensures m.Some? ==> 0 < m.value.length <= |s|
  {
    if s == [] || s[0] !in {'[', '('} then None
    else
      match TimeLength(s[1..])
      case None => None
      case Some(n) =>
        if n + 1 >= |s| || s[n + 1] !in {']', ')'} then None
        else
          match Capture(s[n + 2..])
          case None => None
          case Some(c) => Some(Match(s[1..n + 1], s[n + 2..][c.0..c.1], n + 2 + c.1))
  }

  /** `FindAllStringSubmatch`: the leftmost matches, one after the other. */
  function FindAll(s: string): seq<Match>
    decreases |s|
  {
    if s == [] then []
    else
      match MatchHere(s)
      case Some(m) => [m] + FindAll(s[m.length..])
      case None => FindAll(s[1..])
  }

  // ---------------------------------------------------------------- extracting markers

  datatype Marker = Marker(caption: string, timestamp: string, seconds: int, why: string, quote: string)

  function Truncate(s: string, limit: nat): string {
    if |s| <= limit then s else s[..limit]
  }

  function TruncateSummary(s: string): string { Truncate(Collapse(s), 420) }

  function TruncateQuote(s: string): string { Truncate(Collapse(s), 320) }

  /** The marker of a match, unless its time cannot be read or its quote is blank. */
  function MarkerOf(m: Match): Option<Marker> {
    match Parsed(m.stamp)
    case None => None
    case Some(seconds) =>
      var quote := Trim(m.quote);
      if quote == "" then None
      else Some(Marker("Transcript moment", FormatTimeMarkerTimestamp(seconds), seconds, TruncateSummary(quote), TruncateQuote(quote)))
  }

  function WithFound(markers: seq<Marker>, found: Option<Marker>, limit: nat): seq<Marker> {
    if |markers| >= limit || found.None? then markers else markers + [found.value]
  }

  /** The markers of the first matches that have one. */
  function FirstFound(marker: Match -> Option<Marker>, matches: seq<Match>, limit: nat): seq<Marker> {
    if matches == [] then []
    else WithFound(FirstFound(marker, matches[..|matches| - 1], limit), marker(matches[|matches| - 1]), limit)
  }

  function MarkersOf(matches: seq<Match>, limit: nat): seq<Marker> {
    FirstFound(MarkerOf, matches, limit)
  }

  function SecondsOf(m: Marker): int {
    if m.seconds <= 0 && Parsed(m.timestamp).Some? then Parsed(m.timestamp).value else m.seconds
  }

  function Renewed(m: Marker): Marker {
    Marker(if Trim(m.caption) == "" then "Important moment" else Trim(m.caption),
           FormatTimeMarkerTimestamp(SecondsOf(m)), SecondsOf(m), TruncateSummary(m.why), TruncateQuote(m.quote))
  }

  function Times(markers: seq<Marker>): set<int> {
    if markers == [] then {} else Times(markers[..|markers| - 1]) + {markers[|markers| - 1].seconds}
  }

  /** The markers so far with one more, unless they are enough or it has no time or text, or
      a time that is taken. */
  function WithMarker(normalized: seq<Marker>, m: Marker, limit: nat): seq<Marker> {
    if |normalized| >= limit || m.seconds < 0 || m.why == "" || m.seconds in Times(normalized) then normalized
    else normalized + [m]
  }

  /** The first marker of every second, each one renewed. */
  function FirstOfTimes(renew: Marker -> Marker, markers: seq<Marker>, limit: nat): seq<Marker> {
    if markers == [] then []
    else WithMarker(FirstOfTimes(renew, markers[..|markers| - 1], limit), renew(markers[|markers| - 1]), limit)
  }

  /** The limit is looked at when a marker has been taken, so that there is room for one at least. */
  function Normalized(markers: seq<Marker>, limit: int): seq<Marker> {
    FirstOfTimes(Renewed, markers, if limit <= 0 then 1 else limit)
  }

  function Extracted(text: string, limit: int): seq<Marker> {
    if limit <= 0 then [] else Normalized(MarkersOf(FindAll(text), limit), limit)
  }

  lemma {:induction false} TimesFull(renew: Marker -> Marker, markers: seq<Marker>, limit: nat, k: nat)
    requires k <= |markers| && |FirstOfTimes(renew, markers[..k], limit)| >= limit
    ensures FirstOfTimes(renew, markers, limit) == FirstOfTimes(renew, markers[..k], limit)
  {
    if k < |markers| {
      assert markers[..|markers| - 1][..k] == markers[..k];
      TimesFull(renew, markers[..|markers| - 1], limit, k);
    } else {
      assert markers[..k] == markers;
    }
  }

  /** `renew` stands for the program's own way to renew a marker. */
  ghost predicate Renews(renew: Marker -> Marker) {
    forall m {:trigger Renewed(m)} :: renew(m) == Renewed(m)
  }

  method Renew(marker: Marker) returns (renewed: Marker)
    ensures renewed == Renewed(marker)
  {
    var caption, seconds := Trim(marker.caption), marker.seconds;
    if seconds <= 0 {
      var parsed := ParseTimestampSeconds(marker.timestamp);
      if parsed.Some? {
        seconds := parsed.value;
      }
    }
    if caption == "" {
      caption := "Important moment";
    }
    renewed := Marker(caption, FormatTimeMarkerTimestamp(seconds), seconds, TruncateSummary(marker.why), TruncateQuote(marker.quote));
  }

  /** One round of the normalisation. */
  method AddMarker(ghost renew: Marker -> Marker, normalized: seq<Marker>, seen: set<int>, marker: Marker, ghost limit: nat)
    returns (extended: seq<Marker>, times: set<int>)
    requires Renews(renew) && seen == Times(normalized) && |normalized| < limit
    ensures extended == WithMarker(normalized, renew(marker), limit) && times == Times(extended)
  {
    var renewed := Renew(marker);
    if renewed.seconds < 0 || renewed.why == "" || renewed.seconds in seen {
      return normalized, seen;
    }
    extended, times := normalized + [renewed], seen + {renewed.seconds};
    assert extended[..|extended| - 1] == normalized;
  }

  method NormalizeAll(ghost renew: Marker -> Marker, markers: seq<Marker>, limit: int, ghost room: nat) returns (normalized: seq<Marker>)
    requires Renews(renew) && room == if limit <= 0 then 1 else limit
    ensures normalized == FirstOfTimes(renew, markers, room)
  {
    normalized := [];
    var seen: set<int> := {};
    for i := 0 to |markers|
      invariant normalized == FirstOfTimes(renew, markers[..i], room) && |normalized| < room
      invariant seen == Times(normalized)
    {
      assert markers[..i + 1][..i] == markers[..i];
      var before := |normalized|;
      normalized, seen := AddMarker(renew, normalized, seen, markers[i], room);
      if |normalized| > before && |normalized| >= limit {
        TimesFull(renew, markers, room, i + 1);
        return;
      }
    }
    assert markers[..|markers|] == markers;
  }

  method NormalizedTimeMarkers(markers: seq<Marker>, limit: int) returns (normalized: seq<Marker>)
    ensures normalized == Normalized(markers, limit)
  {
    normalized := NormalizeAll(Renewed, markers, limit, if limit <= 0 then 1 else limit);
  }

  lemma {:induction false} FoundFull(marker: Match -> Option<Marker>, matches: seq<Match>, limit: nat, k: nat)
    requires k <= |matches| && |FirstFound(marker, matches[..k], limit)| >= limit
    ensures FirstFound(marker, matches, limit) == FirstFound(marker, matches[..k], limit)
  {
    if k < |matches| {
      assert matches[..|matches| - 1][..k] == matches[..k];
      FoundFull(marker, matches[..|matches| - 1], limit, k);
    } else {
      assert matches[..k] == matches;
    }
  }

  /** `marker` stands for the program's own way to read a match. */
  ghost predicate Marks(marker: Match -> Option<Marker>) {
    forall m {:trigger MarkerOf(m)} :: marker(m) == MarkerOf(m)
  }

  /** One round of the collection. */
  method AddFound(ghost marker: Match -> Option<Marker>, markers: seq<Marker>, m: Match, limit: nat) returns (more: seq<Marker>)
    requires Marks(marker) && |markers| < limit
    ensures more == WithFound(markers, marker(m), limit)
  {
    assert marker(m) == MarkerOf(m);
    var seconds := ParseTimestampSeconds(m.stamp);
    if seconds.None? {
      return markers;
    }
    var quote := Trim(m.quote);
    if quote == "" {
      return markers;
    }
    more := markers + [Marker("Transcript moment", FormatTimeMarkerTimestamp(seconds.value), seconds.value,
      TruncateSummary(quote), TruncateQuote(quote))];
  }

  method CollectMarkers(ghost marker: Match -> Option<Marker>, matches: seq<Match>, limit: nat) returns (markers: seq<Marker>)
    requires Marks(marker) && limit > 0
    ensures markers == FirstFound(marker, matches, limit)
  {
    markers := [];
    for i := 0 to |matches|
      invariant markers == FirstFound(marker, matches[..i], limit) && |markers| < limit
    {
      assert matches[..i + 1][..i] == matches[..i];
      markers := AddFound(marker, markers, matches[i], limit);
      if |markers| >= limit {
        FoundFull(marker, matches, limit, i + 1);
        return;
      }
    }
    assert matches[..|matches|] == matches;
  }

  method ExtractTimeMarkers(text: string, limit: int) returns (markers: seq<Marker>)
    ensures markers == Extracted(text, limit)
  {
    if limit <= 0 {
      return [];
    }
    var collected := CollectMarkers(MarkerOf, FindAll(text), limit);
    markers := NormalizedTimeMarkers(collected, limit);
  }
}
