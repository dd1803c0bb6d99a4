/** Extracting time markers from a printed transcript gives back what was printed. */
module TimeMarkerRoundTrip {
  import opened Basics
  import opened Text
  import opened Sorting
  import opened Timestamps
  import opened Words
  import opened TimeMarkers

  /** One hundred hours: from here on the hours have three digits, which the pattern refuses. */
  const HUNDRED_HOURS: int := 360000

  ghost predicate Printable(s: Segment) {
    0 <= s.seconds < HUNDRED_HOURS && Tidy(s.text) && Collapse(s.text) == s.text
  }

  ghost predicate AllPrintable(segments: seq<Segment>) {
    forall k :: 0 <= k < |segments| ==> Printable(segments[k])
  }

  // ---------------------------------------------------------------- one line

  lemma DigitCounts(n: nat)
    requires n < 100
    ensures 1 <= |Decimal(n)| <= 2 && |TwoDigits(n)| == 2
  {
  }

  lemma ShortTime(a: string, b: string, tail: string)
    requires AllDigits(a) && 1 <= |a| <= 2 && AllDigits(b) && |b| == 2 && tail != "" && tail[0] == ']'
    ensures TimeLength(a + ":" + b + tail) == Some(|a| + 3)
  {
    var s := a + ":" + b + tail;
    assert s[|a|] == ':' && s[|a| + 1] == b[0] && s[|a| + 2] == b[1] && s[|a| + 3] == ']';
    assert s[0] == a[0];
    if |a| == 2 {
      assert s[1] == a[1];
    }
  }

  lemma LongTime(a: string, b: string, c: string, tail: string)
    requires AllDigits(a) && 1 <= |a| <= 2 && AllDigits(b) && |b| == 2 && AllDigits(c) && |c| == 2
    ensures TimeLength(a + ":" + b + ":" + c + tail) == Some(|a| + 6)
  {
    var s := a + ":" + b + ":" + c + tail;
    assert s[|a|] == ':' && s[|a| + 1] == b[0] && s[|a| + 2] == b[1];
    assert s[|a| + 3] == ':' && s[|a| + 4] == c[0] && s[|a| + 5] == c[1];
    assert s[0] == a[0];
    if |a| == 2 {
      assert s[1] == a[1];
    }
  }

  lemma TimeIsMatched(seconds: int, tail: string)
    requires 0 <= seconds < HUNDRED_HOURS && tail != "" && tail[0] == ']'
    ensures TimeLength(FormatTimeMarkerTimestamp(seconds) + tail) == Some(|FormatTimeMarkerTimestamp(seconds)|)
  {
    var hours, minutes, rest := seconds / 3600, seconds % 3600 / 60, seconds % 60;
    DigitCounts(hours);
    DigitCounts(minutes);
    DigitCounts(rest);
    if hours > 0 {
      LongTime(Decimal(hours), TwoDigits(minutes), TwoDigits(rest), tail);
    } else {
      ShortTime(Decimal(minutes), TwoDigits(rest), tail);
    }
  }

  /** The end of a line: nothing more, or a line break. */
  ghost predicate EndsLine(tail: string) {
    tail == "" || tail[0] == '\n'
  }

  lemma {:induction false} LineLengthOf(text: string, tail: string)
    requires EndsLine(tail) && forall k :: 0 <= k < |text| ==> text[k] != '\n'
    ensures LineLength(text + tail) == |text|
  {
    if text == "" {
      assert text + tail == tail;
    } else {
      assert (text + tail)[1..] == text[1..] + tail;
      LineLengthOf(text[1..], tail);
    }
  }

  lemma CaptureOf(text: string, tail: string)
    requires Tidy(text) && EndsLine(tail)
    ensures Capture(" " + text + tail) == Some((1, 1 + |text|))
  {
    var s := " " + text + tail;
    assert s[1..] == text + tail && s[1] == text[0];
    assert PatternSpaceLength(s) == 1;
    LineLengthOf(text, tail);
  }

  function LineMatch(s: Segment): Match {
    Match(FormatTimeMarkerTimestamp(s.seconds), s.text, |Line(s)|)
  }

  lemma MatchParts(s: string, n: nat, length: nat)
    requires n + 2 <= |s| && s[0] == '[' && s[n + 1] == ']' && TimeLength(s[1..]) == Some(n)
    requires length > 0 && n + 3 + length <= |s| && Capture(s[n + 2..]) == Some((1, 1 + length))
    ensures MatchHere(s) == Some(Match(s[1..n + 1], s[n + 3..n + 3 + length], n + 3 + length))
  {
    assert s[n + 2..][1..1 + length] == s[n + 3..n + 3 + length];
  }

  lemma LineParts(stamp: string, text: string, tail: string, s: string)
    requires s == "[" + stamp + "] " + text + tail
    ensures |s| == |stamp| + |text| + |tail| + 3 && s[0] == '[' && s[|stamp| + 1] == ']'
    ensures s[1..] == stamp + ("] " + text + tail) && s[|stamp| + 2..] == " " + text + tail
    ensures s[1..|stamp| + 1] == stamp && s[|stamp| + 3..|stamp| + 3 + |text|] == text
  {
  }

  lemma MatchStamped(stamp: string, text: string, tail: string, s: string)
    requires s == "[" + stamp + "] " + text + tail && text != ""
    requires TimeLength(stamp + ("] " + text + tail)) == Some(|stamp|)
    requires Capture(" " + text + tail) == Some((1, 1 + |text|))
    ensures MatchHere(s) == Some(Match(stamp, text, |s| - |tail|))
  {
    LineParts(stamp, text, tail, s);
    MatchParts(s, |stamp|, |text|);
  }

  lemma MatchTidy(stamp: string, text: string, tail: string, s: string)
    requires s == "[" + stamp + "] " + text + tail
    requires TimeLength(stamp + ("] " + text + tail)) == Some(|stamp|) && Tidy(text) && EndsLine(tail)
    ensures MatchHere(s) == Some(Match(stamp, text, |s| - |tail|))
  {
    CaptureOf(text, tail);
    MatchStamped(stamp, text, tail, s);
  }

  /** A printed line is matched as a whole. */
  lemma MatchLine(seg: Segment, tail: string, stamp: string, s: string)
    requires Printable(seg) && EndsLine(tail)
    requires stamp == FormatTimeMarkerTimestamp(seg.seconds) && s == "[" + stamp + "] " + seg.text + tail
    ensures MatchHere(s) == Some(Match(stamp, seg.text, |s| - |tail|))
  {
    TimeIsMatched(seg.seconds, "] " + seg.text + tail);
    MatchTidy(stamp, seg.text, tail, s);
  }

  lemma {:induction false} LongDecimal(n: nat)
    requires n >= 100
    ensures |Decimal(n)| >= 3
  {
    if n >= 1000 {
      LongDecimal(n / 10);
    } else {
      assert Decimal(n) == Decimal(n / 10) + [DigitChar(n % 10)];
      assert Decimal(n / 10) == Decimal(n / 10 / 10) + [DigitChar(n / 10 % 10)];
    }
  }

  lemma ThreeDigitsAreRefused(a: string, rest: string, s: string)
    requires AllDigits(a) && |a| >= 3 && s == "[" + (a + rest)
    ensures MatchHere(s) == None
  {
    assert s[1] == a[0] && s[2] == a[1] && s[3] == a[2];
  }

  lemma LongStamp(seconds: int) returns (rest: string)
    requires seconds >= HUNDRED_HOURS
    ensures FormatTimeMarkerTimestamp(seconds) == Decimal(seconds / 3600) + rest && |Decimal(seconds / 3600)| >= 3
  {
    var minutes, left := TwoDigits(seconds % 3600 / 60), TwoDigits(seconds % 60);
    LongDecimal(seconds / 3600);
    rest := ":" + minutes + ":" + left;
    assert Decimal(seconds / 3600) + ":" + minutes + ":" + left == Decimal(seconds / 3600) + rest;
  }

  lemma Regroup(stamp: string, hours: string, rest: string, text: string, tail: string)
    requires stamp == hours + rest
    ensures "[" + stamp + "] " + text + tail == "[" + (hours + (rest + "] " + text + tail))
  {
  }

  /** A printed line is found where it begins exactly if its time is under one hundred hours. */
  lemma FoundUpToHundredHours(seg: Segment, tail: string, stamp: string, s: string)
    requires seg.seconds >= 0 && Tidy(seg.text) && Collapse(seg.text) == seg.text && EndsLine(tail)
    requires stamp == FormatTimeMarkerTimestamp(seg.seconds) && s == "[" + stamp + "] " + seg.text + tail
    ensures MatchHere(s).Some? <==> seg.seconds < HUNDRED_HOURS
  {
    if seg.seconds < HUNDRED_HOURS {
      MatchLine(seg, tail, stamp, s);
    } else {
      var hours := Decimal(seg.seconds / 3600);
      var rest := LongStamp(seg.seconds);
      Regroup(stamp, hours, rest, seg.text, tail);
      ThreeDigitsAreRefused(hours, rest + "] " + seg.text + tail, s);
    }
  }

  // ---------------------------------------------------------------- all lines

  function Map<A, B>(f: A -> B, s: seq<A>): (r: seq<B>)
    ensures |r| == |s|
    ensures forall k :: 0 <= k < |s| ==> r[k] == f(s[k])
  {
    if s == [] then [] else Map(f, s[..|s| - 1]) + [f(s[|s| - 1])]
  }

  lemma MapFront<A, B>(f: A -> B, s: seq<A>)
    requires s != []
    ensures Map(f, s) == [f(s[0])] + Map(f, s[1..])
  {
  }

  lemma SkipBreak(s: string)
    ensures FindAll("\n" + s) == FindAll(s)
  {
    assert ("\n" + s)[1..] == s;
  }

  lemma FindNext(line: string, tail: string, s: string, m: Match)
    requires s == line + tail && line != ""
    requires MatchHere(s) == Some(m) && m.length == |s| - |tail|
    ensures FindAll(s) == [m] + FindAll(tail)
  {
    assert s[|line|..] == tail;
  }

  lemma LineIsFound(seg: Segment, tail: string, stamp: string, line: string, s: string)
    requires Printable(seg) && EndsLine(tail) && stamp == FormatTimeMarkerTimestamp(seg.seconds)
    requires line == "[" + stamp + "] " + seg.text && s == line + tail
    ensures FindAll(s) == [Match(stamp, seg.text, |line|)] + FindAll(tail)
  {
    MatchLine(seg, tail, stamp, s);
    FindNext(line, tail, s, Match(stamp, seg.text, |s| - |tail|));
  }

  lemma FirstLineIsFound(segments: seq<Segment>)
    requires segments != [] && Printable(segments[0])
    ensures FindAll(Lines(segments)) == [LineMatch(segments[0])] + FindAll(Lines(segments[1..]))
  {
    var first, rest := segments[0], Lines(segments[1..]);
    var stamp, line := FormatTimeMarkerTimestamp(first.seconds), Line(first);
    if |segments| == 1 {
      LineIsFound(first, "", stamp, line, line);
    } else {
      LineIsFound(first, "\n" + rest, stamp, line, line + ("\n" + rest));
      SkipBreak(rest);
    }
  }

  lemma Chained(all: seq<Match>, head: Match, rest: seq<Match>, middle: seq<Match>, tail: seq<Match>)
    requires all == [head] + rest && rest == middle + tail
    ensures all == ([head] + middle) + tail
  {
  }

  /** If the first `n` lines can be found, these are the first matches, whatever is found behind them. */
  lemma {:induction false} FirstLinesAreFound(segments: seq<Segment>, n: nat, first: seq<Segment>)
    requires n <= |segments| && first == segments[..n] && AllPrintable(first)
    ensures FindAll(Lines(segments)) == Map(LineMatch, first) + FindAll(Lines(segments[n..]))
    decreases n
  {
    if n == 0 {
      assert segments[0..] == segments && first == [];
    } else {
      var behind := segments[1..];
      assert first[0] == segments[0] && first[1..] == behind[..n - 1] && behind[n - 1..] == segments[n..];
      FirstLineIsFound(segments);
      FirstLinesAreFound(behind, n - 1, first[1..]);
      MapFront(LineMatch, first);
      Chained(FindAll(Lines(segments)), LineMatch(first[0]), FindAll(Lines(behind)), Map(LineMatch, first[1..]), FindAll(Lines(segments[n..])));
    }
  }

  lemma EveryLineIsFound(segments: seq<Segment>)
    requires AllPrintable(segments)
    ensures FindAll(Lines(segments)) == Map(LineMatch, segments)
  {
    FirstLinesAreFound(segments, |segments|, segments);
    assert segments[|segments|..] == [];
  }

  // ---------------------------------------------------------------- markers

  function FoundMarker(s: Segment): Marker {
    Marker("Transcript moment", FormatTimeMarkerTimestamp(s.seconds), s.seconds, TruncateSummary(s.text), TruncateQuote(s.text))
  }

  lemma LineHasMarker(s: Segment)
    requires Printable(s)
    ensures MarkerOf(LineMatch(s)) == Some(FoundMarker(s))
  {
    ParseFormat(s.seconds);
    NoTrim(s.text);
  }

  lemma TakeMore<T>(s: seq<T>, limit: nat)
    requires s != []
    ensures |s| <= limit ==> Take(s, limit) == s && Take(s[..|s| - 1], limit) == s[..|s| - 1]
    ensures |s| > limit ==> Take(s, limit) == Take(s[..|s| - 1], limit)
  {
  }

  lemma {:induction false} MarkersOfLines(segments: seq<Segment>, limit: nat,
                                          line: Segment -> Match, marker: Match -> Option<Marker>, found: Segment -> Marker)
    requires forall k :: 0 <= k < |segments| ==> marker(line(segments[k])) == Some(found(segments[k]))
    ensures FirstFound(marker, Map(line, segments), limit) == Map(found, Take(segments, limit))
  {
    if segments != [] {
      var init := segments[..|segments| - 1];
      MarkersOfLines(init, limit, line, marker, found);
      assert Map(line, segments)[..|segments| - 1] == Map(line, init);
      TakeMore(segments, limit);
    }
  }

  /** What the printed segment comes back as. */
  function Moment(s: Segment): Marker {
    Marker("Transcript moment", FormatTimeMarkerTimestamp(s.seconds), s.seconds,
           TruncateSummary(TruncateSummary(s.text)), TruncateQuote(TruncateQuote(s.text)))
  }

  lemma TruncatedStart(s: string, limit: nat)
    requires s != "" && !IsSpace(s[0]) && limit > 0
    ensures Truncate(Collapse(s), limit) != "" && !IsSpace(Truncate(Collapse(s), limit)[0])
  {
    CollapseKeepsFirst(s);
  }

  lemma RenewedIsMoment(s: Segment)
    requires Printable(s)
    ensures Renewed(FoundMarker(s)) == Moment(s) && Moment(s).why != ""
  {
    NoTrim("Transcript moment");
    ParseFormat(s.seconds);
    TruncatedStart(s.text, 420);
    TruncatedStart(TruncateSummary(s.text), 420);
  }

  // ---------------------------------------------------------------- one for each second

  function SecondsIn(segments: seq<Segment>): set<int> {
    if segments == [] then {} else SecondsIn(segments[..|segments| - 1]) + {segments[|segments| - 1].seconds}
  }

  /** The first segment of every second. */
  function Firsts(segments: seq<Segment>): seq<Segment> {
    if segments == [] then []
    else
      var rest, last := Firsts(segments[..|segments| - 1]), segments[|segments| - 1];
      if last.seconds in SecondsIn(rest) then rest else rest + [last]
  }

  lemma {:induction false} FirstsAreFewer(segments: seq<Segment>)
    ensures |Firsts(segments)| <= |segments|
    ensures forall k :: 0 <= k < |Firsts(segments)| ==> Firsts(segments)[k] in segments
  {
    if segments != [] {
      FirstsAreFewer(segments[..|segments| - 1]);
    }
  }

  lemma {:induction false} TimesOfMap(segments: seq<Segment>, moment: Segment -> Marker)
    requires forall k :: 0 <= k < |segments| ==> moment(segments[k]).seconds == segments[k].seconds
    ensures Times(Map(moment, segments)) == SecondsIn(segments)
  {
    if segments != [] {
      var init := segments[..|segments| - 1];
      TimesOfMap(init, moment);
      assert Map(moment, segments)[..|segments| - 1] == Map(moment, init);
    }
  }

  /** `moment` is what a segment, found as `found`, is normalised to. */
  ghost predicate Settles(renew: Marker -> Marker, found: Segment -> Marker, moment: Segment -> Marker, s: Segment) {
    && renew(found(s)) == moment(s)
    && moment(s).why != "" && moment(s).seconds == s.seconds >= 0
  }

  lemma {:induction false} NormalizedFirsts(segments: seq<Segment>, limit: nat,
                                            renew: Marker -> Marker, found: Segment -> Marker, moment: Segment -> Marker)
    requires |segments| <= limit && forall k :: 0 <= k < |segments| ==> Settles(renew, found, moment, segments[k])
    ensures FirstOfTimes(renew, Map(found, segments), limit) == Map(moment, Firsts(segments))
  {
    if segments != [] {
      var init, last := segments[..|segments| - 1], segments[|segments| - 1];
      NormalizedFirsts(init, limit, renew, found, moment);
      assert Map(found, segments)[..|segments| - 1] == Map(found, init);
      FirstsAreFewer(init);
      TimesOfMap(Firsts(init), moment);
      assert (Firsts(init) + [last])[..|Firsts(init)|] == Firsts(init);
      assert Settles(renew, found, moment, last);
    }
  }

  // ---------------------------------------------------------------- the round trip

  lemma {:induction false} SegmentsAreTidy(chunks: seq<Chunk>)
    ensures forall k :: 0 <= k < |SegmentsOf(chunks)| ==>
      Tidy(SegmentsOf(chunks)[k].text) && Collapse(SegmentsOf(chunks)[k].text) == SegmentsOf(chunks)[k].text
  {
    if chunks != [] {
      SegmentsAreTidy(chunks[..|chunks| - 1]);
      CollapseIsTidy(chunks[|chunks| - 1].text);
    }
  }

  lemma FirstMatchesAreTaken(segments: seq<Segment>, limit: nat, first: seq<Segment>, matches: seq<Match>)
    requires first == Take(segments, limit) && AllPrintable(first) && matches == FindAll(Lines(segments))
    ensures MarkersOf(matches, limit) == Map(FoundMarker, first)
  {
    forall k | 0 <= k < |first| ensures MarkerOf(LineMatch(first[k])) == Some(FoundMarker(first[k])) {
      LineHasMarker(first[k]);
    }
    MarkersOfLines(first, limit, LineMatch, MarkerOf, FoundMarker);
    if |segments| <= limit {
      EveryLineIsFound(segments);
    } else {
      FirstLinesAreFound(segments, limit, first);
      assert matches[..limit] == Map(LineMatch, first);
      FoundFull(MarkerOf, matches, limit, limit);
    }
  }

  lemma PrintedSegmentsAreRead(segments: seq<Segment>, text: string, limit: int)
    requires limit > 0 && AllPrintable(Take(segments, limit)) && text == Lines(segments)
    ensures Extracted(text, limit) == Map(Moment, Firsts(Take(segments, limit)))
  {
    var first := Take(segments, limit);
    FirstMatchesAreTaken(segments, limit, first, FindAll(text));
    forall k | 0 <= k < |first| ensures Settles(Renewed, FoundMarker, Moment, first[k]) {
      RenewedIsMoment(first[k]);
    }
    NormalizedFirsts(first, limit, Renewed, FoundMarker, Moment);
  }

  /** The first `limit` segments by time begin before one hundred hours. */
  ghost predicate FirstsAreEarly(chunks: seq<Chunk>, limit: nat) {
    var first := Take(Timed(chunks), limit);
    forall k :: 0 <= k < |first| ==> 0 <= first[k].seconds < HUNDRED_HOURS
  }

  /** The markers of a printed transcript are its first `limit` segments by time, one for
      each second. */
  lemma PrintedTranscriptIsRead(chunks: seq<Chunk>, limit: int)
    requires limit > 0 && FirstsAreEarly(chunks, limit)
    ensures Extracted(Lines(Timed(chunks)), limit) == Map(Moment, Firsts(Take(Timed(chunks), limit)))
  {
    var segments, timed := SegmentsOf(chunks), Timed(chunks);
    SegmentsAreTidy(chunks);
    SameElements(timed, segments);
    forall k | 0 <= k < |Take(timed, limit)| ensures Printable(Take(timed, limit)[k]) {
      assert timed[k] in segments;
    }
    PrintedSegmentsAreRead(timed, Lines(timed), limit);
  }

  /** A text that is short enough comes back letter for letter. */
  lemma ShortTextsComeBack(s: Segment)
    requires Printable(s)
    ensures |s.text| <= 420 ==> Moment(s).why == s.text
    ensures |s.text| <= 320 ==> Moment(s).quote == s.text
  {
  }

  /** No segment before position `k` has its second. */
  ghost predicate FirstOfSecond(segments: seq<Segment>, k: nat) {
    k < |segments| && forall j :: 0 <= j < k ==> segments[j].seconds != segments[k].seconds
  }

  ghost predicate HasSecond(segments: seq<Segment>, seconds: int) {
    exists k :: 0 <= k < |segments| && segments[k].seconds == seconds
  }

  lemma HasSecondMore(segments: seq<Segment>, init: seq<Segment>, last: Segment, seconds: int)
    requires segments == init + [last]
    ensures HasSecond(segments, seconds) <==> HasSecond(init, seconds) || last.seconds == seconds
  {
    if HasSecond(init, seconds) {
      var k :| 0 <= k < |init| && init[k].seconds == seconds;
      assert segments[k].seconds == seconds;
    }
    assert segments[|init|] == last;
  }

  lemma SecondsMore(kept: seq<Segment>, last: Segment)
    ensures SecondsIn(kept + [last]) == SecondsIn(kept) + {last.seconds}
  {
    assert (kept + [last])[..|kept|] == kept;
  }

  lemma {:induction false} SecondsOfFirsts(segments: seq<Segment>, seconds: int)
    ensures seconds in SecondsIn(Firsts(segments)) <==> HasSecond(segments, seconds)
  {
    if segments != [] {
      var init, last := segments[..|segments| - 1], segments[|segments| - 1];
      SecondsOfFirsts(init, seconds);
      HasSecondMore(segments, init, last, seconds);
      var before := Firsts(init);
      if last.seconds in SecondsIn(before) {
        assert Firsts(segments) == before;
      } else {
        assert Firsts(segments) == before + [last];
        SecondsMore(before, last);
      }
    }
  }

  lemma FirstsMore(init: seq<Segment>, last: Segment)
    ensures Firsts(init + [last]) == if HasSecond(init, last.seconds) then Firsts(init) else Firsts(init) + [last]
  {
    assert (init + [last])[..|init|] == init;
    SecondsOfFirsts(init, last.seconds);
  }

  ghost predicate IsFirst(segments: seq<Segment>, x: Segment) {
    exists k: nat :: FirstOfSecond(segments, k) && x == segments[k]
  }

  lemma FirstsOfMore(init: seq<Segment>, last: Segment, x: Segment)
    ensures IsFirst(init + [last], x) <==>
      IsFirst(init, x) || (x == last && !HasSecond(init, last.seconds))
  {
    var segments := init + [last];
    assert forall k :: 0 <= k < |init| ==> segments[k] == init[k];
    if IsFirst(init, x) {
      var k: nat :| FirstOfSecond(init, k) && x == init[k];
      assert FirstOfSecond(segments, k) && x == segments[k];
    }
    if x == last && !HasSecond(init, last.seconds) {
      assert FirstOfSecond(segments, |init|) && x == segments[|init|];
    }
    if IsFirst(segments, x) {
      var k: nat :| FirstOfSecond(segments, k) && x == segments[k];
      if k < |init| {
        assert FirstOfSecond(init, k) && x == init[k] by {
          assert forall j :: 0 <= j < k ==> segments[j].seconds == init[j].seconds;
        }
      } else {
        assert forall j :: 0 <= j < |init| ==> init[j].seconds == segments[j].seconds;
      }
    }
  }

  /** Which segments are kept. */
  lemma {:induction false} FirstsExact(segments: seq<Segment>, x: Segment)
    ensures x in Firsts(segments) <==> IsFirst(segments, x)
  {
    if segments != [] {
      var init, last := segments[..|segments| - 1], segments[|segments| - 1];
      FirstsExact(init, x);
      assert segments == init + [last];
      FirstsMore(init, last);
      FirstsOfMore(init, last, x);
    }
  }

  ghost predicate NonDecreasing(segments: seq<Segment>) {
    forall a, b :: 0 <= a < b < |segments| ==> segments[a].seconds <= segments[b].seconds
  }

  ghost predicate Increasing(segments: seq<Segment>) {
    forall a, b :: 0 <= a < b < |segments| ==> segments[a].seconds < segments[b].seconds
  }

  lemma LaterThanAll(init: seq<Segment>, last: Segment, earlier: seq<Segment>)
    requires NonDecreasing(init + [last]) && !HasSecond(init, last.seconds)
    requires Increasing(earlier) && forall k :: 0 <= k < |earlier| ==> earlier[k] in init
    ensures Increasing(earlier + [last])
  {
    forall x | x in init ensures x.seconds < last.seconds {
      var k :| 0 <= k < |init| && init[k] == x;
      assert (init + [last])[k].seconds <= (init + [last])[|init|].seconds;
    }
  }

  lemma {:induction false} FirstsIncrease(segments: seq<Segment>)
    requires NonDecreasing(segments)
    ensures Increasing(Firsts(segments))
  {
    if segments != [] {
      var init, last := segments[..|segments| - 1], segments[|segments| - 1];
      FirstsIncrease(init);
      assert segments == init + [last];
      FirstsMore(init, last);
      FirstsAreFewer(init);
      if !HasSecond(init, last.seconds) {
        LaterThanAll(init, last, Firsts(init));
      }
    }
  }

  /** `kept` holds the first segment of every second, in order of time. */
  ghost predicate KeepsFirsts(segments: seq<Segment>, kept: seq<Segment>) {
    Increasing(kept) && forall x :: x in kept <==> IsFirst(segments, x)
  }

  lemma FirstsAreKept(segments: seq<Segment>)
    requires NonDecreasing(segments)
    ensures KeepsFirsts(segments, Firsts(segments))
  {
    FirstsIncrease(segments);
    forall x ensures x in Firsts(segments) <==> IsFirst(segments, x) {
      FirstsExact(segments, x);
    }
  }

  lemma TimedInOrder(chunks: seq<Chunk>, limit: nat)
    ensures NonDecreasing(Take(Timed(chunks), limit))
  {
    var timed := Timed(chunks);
    StableSortOrdered(SegmentLeq, SegmentsOf(chunks));
    forall a, b | 0 <= a < b < |timed| ensures timed[a].seconds <= timed[b].seconds {
      assert SegmentLeq(timed[a], timed[b]);
    }
  }

  /** Every second among the first `limit` segments has exactly one marker, that of the
      segment that comes first at that second, and the markers are in order of time. */
  lemma ExtractedMarkersExact(chunks: seq<Chunk>, limit: int)
    requires limit > 0 && FirstsAreEarly(chunks, limit)
    ensures exists kept ::
      KeepsFirsts(Take(Timed(chunks), limit), kept) && Extracted(Lines(Timed(chunks)), limit) == Map(Moment, kept)
  {
    PrintedTranscriptIsRead(chunks, limit);
    TimedInOrder(chunks, limit);
    FirstsAreKept(Take(Timed(chunks), limit));
  }
}
