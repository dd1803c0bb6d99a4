/** What is taken for a timestamp, for a time marker in a text, and for a marker at all. */
module TimeMarkerTheorems {
  import opened Basics
  import opened Text
  import opened Timestamps
  import opened Words
  import opened TimeMarkers

  // ---------------------------------------------------------------- timestamps

  function JoinColon(parts: seq<string>): string
    requires parts != []
  {
    if |parts| == 1 then parts[0] else parts[0] + (":" + JoinColon(parts[1..]))
  }

  ghost predicate NoColons(parts: seq<string>) {
    forall k :: 0 <= k < |parts| ==> ':' !in parts[k]
  }

  lemma Associates(a: string, b: string, c: string)
    ensures (a + b) + c == a + (b + c)
  {
  }

  lemma JoinColonMore(c: char, first: string, rest: seq<string>)
    ensures JoinColon([[c] + first] + rest) == [c] + JoinColon([first] + rest)
    ensures JoinColon([""] + ([first] + rest)) == ":" + JoinColon([first] + rest)
  {
    assert ([[c] + first] + rest)[1..] == rest && ([first] + rest)[1..] == rest;
    assert ([""] + ([first] + rest))[1..] == [first] + rest;
    if rest != [] {
      Associates([c], first, ":" + JoinColon(rest));
    }
    Empty(":" + JoinColon([first] + rest));
  }

  lemma Empty(s: string)
    ensures "" + s == s
  {
  }

  /** Splitting at colons gives parts without colons, and joining them gives back the text. */
  lemma {:induction false} SplitColonExact(s: string)
    ensures NoColons(SplitColon(s)) && JoinColon(SplitColon(s)) == s
  {
    if s != [] {
      var rest := SplitColon(s[1..]);
      SplitColonExact(s[1..]);
      JoinColonMore(s[0], rest[0], rest[1..]);
      assert rest == [rest[0]] + rest[1..];
      assert s == [s[0]] + s[1..];
    }
  }

  /** What is a number of hours, minutes or seconds. */
  predicate IsPart(part: string) {
    Atoi(part).Some? && Atoi(part).value >= 0
  }

  function Worth(part: string): int {
    if IsPart(part) then Atoi(part).value else 0
  }

  lemma Three(a: string, b: string, c: string)
    ensures TotalOf([a]) == WithPart(Some(0), a)
    ensures TotalOf([a, b]) == WithPart(TotalOf([a]), b)
    ensures TotalOf([a, b, c]) == WithPart(TotalOf([a, b]), c)
  {
    assert [a][..0] == [] && [a, b][..1] == [a] && [a, b, c][..2] == [a, b];
  }

  lemma Small(x: int, y: int)
    requires 0 <= x && 0 <= y && x * 60 + y <= MAX_INT
    ensures Int64(Int64(x * 60) + y) == x * 60 + y
  {
    InRange(x * 60);
    InRange(x * 60 + y);
  }

  /** A text is read as a time if and only if it is two or three numbers joined by colons, none of them
      negative, up to space around it. */
  lemma ParsedExactly(value: string, parts: seq<string>)
    requires parts == SplitColon(Trim(value))
    ensures Parsed(value).Some? <==> 2 <= |parts| <= 3 && forall k :: 0 <= k < |parts| ==> IsPart(parts[k])
  {
    if |parts| == 2 {
      assert parts == [parts[0], parts[1]];
      ParsedTwo(parts[0], parts[1]);
    } else if |parts| == 3 {
      assert parts == [parts[0], parts[1], parts[2]];
      ParsedThird(parts[0], parts[1], parts[2]);
    }
  }

  /** Each number is worth sixty of the one behind it, as far as machine integers reach. */
  lemma ParsedValue(value: string, parts: seq<string>, total: int)
    requires parts == SplitColon(Trim(value)) && 2 <= |parts| <= 3 && (forall k :: 0 <= k < |parts| ==> IsPart(parts[k])) && total <= MAX_INT
    requires total ==
      if |parts| == 2 then Worth(parts[0]) * 60 + Worth(parts[1])
      else (Worth(parts[0]) * 60 + Worth(parts[1])) * 60 + Worth(parts[2])
    ensures Parsed(value) == Some(total)
  {
    ParsedExactly(value, parts);
    if |parts| == 2 {
      assert parts == [parts[0], parts[1]];
      ParsedTwo(parts[0], parts[1]);
    } else {
      assert parts == [parts[0], parts[1], parts[2]];
      ParsedThird(parts[0], parts[1], parts[2]);
    }
  }

  lemma OneMore(total: int, part: string, sum: int)
    requires 0 <= total && IsPart(part) && sum == total * 60 + Worth(part) <= MAX_INT
    ensures WithPart(Some(total), part) == Some(sum)
  {
    Small(total, Worth(part));
  }

  lemma OneMoreExactly(total: Option<int>, part: string)
    ensures WithPart(total, part).Some? <==> total.Some? && IsPart(part)
  {
  }

  lemma ParsedTwo(a: string, b: string)
    ensures TotalOf([a, b]).Some? <==> IsPart(a) && IsPart(b)
    ensures IsPart(a) && IsPart(b) && Worth(a) * 60 + Worth(b) <= MAX_INT ==> TotalOf([a, b]) == Some(Worth(a) * 60 + Worth(b))
  {
    Three(a, b, "");
    OneMoreExactly(Some(0), a);
    OneMoreExactly(TotalOf([a]), b);
    if IsPart(a) && IsPart(b) && Worth(a) * 60 + Worth(b) <= MAX_INT {
      OneMore(0, a, Worth(a));
      OneMore(Worth(a), b, Worth(a) * 60 + Worth(b));
    }
  }

  lemma ParsedThird(a: string, b: string, c: string)
    ensures TotalOf([a, b, c]).Some? <==> IsPart(a) && IsPart(b) && IsPart(c)
    ensures IsPart(a) && IsPart(b) && IsPart(c) && (Worth(a) * 60 + Worth(b)) * 60 + Worth(c) <= MAX_INT ==>
      TotalOf([a, b, c]) == Some((Worth(a) * 60 + Worth(b)) * 60 + Worth(c))
  {
    Three(a, b, c);
    ParsedTwo(a, b);
    OneMoreExactly(TotalOf([a, b]), c);
    if IsPart(a) && IsPart(b) && IsPart(c) && (Worth(a) * 60 + Worth(b)) * 60 + Worth(c) <= MAX_INT {
      OneMore(Worth(a) * 60 + Worth(b), c, (Worth(a) * 60 + Worth(b)) * 60 + Worth(c));
    }
  }

  // ---------------------------------------------------------------- one marker

  /** A marker that has no time, or a negative one, takes it from its timestamp, if that can be read, and
      keeps its own otherwise; then its timestamp is written anew and reads as its time. */
  lemma RenewedTime(m: Marker)
    ensures Renewed(m).seconds ==
      if m.seconds > 0 then m.seconds else if Parsed(m.timestamp).Some? then Parsed(m.timestamp).value else m.seconds
    ensures 0 <= Renewed(m).seconds <= MAX_INT ==> Parsed(Renewed(m).timestamp) == Some(Renewed(m).seconds)
  {
    if 0 <= Renewed(m).seconds <= MAX_INT {
      ParseFormat(Renewed(m).seconds);
    }
  }

  /** So a marker without a time whose timestamp was written for a time gets that time. */
  lemma TimestampGivesTime(m: Marker, seconds: int)
    requires m.seconds <= 0 <= seconds <= MAX_INT && m.timestamp == FormatTimeMarkerTimestamp(seconds)
    ensures Renewed(m).seconds == seconds && Renewed(m).timestamp == m.timestamp
  {
    ParseFormat(seconds);
  }

  /** The beginning of a text, at most so long, and all of it if it is short enough. */
  ghost predicate Beginning(s: string, whole: string, limit: nat) {
    s <= whole && |s| <= limit && (|whole| <= limit ==> s == whole) && (|whole| > limit ==> |s| == limit)
  }

  /** The texts of a marker are tidied and cut to 420 and 320 characters. */
  lemma RenewedTexts(m: Marker)
    ensures Beginning(Renewed(m).why, Collapse(m.why), 420) && Beginning(Renewed(m).quote, Collapse(m.quote), 320)
    ensures Renewed(m).caption == if Blank(m.caption) then "Important moment" else Trim(m.caption)
  {
  }

  // ---------------------------------------------------------------- which markers are taken

  predicate Usable(m: Marker) {
    m.seconds >= 0 && m.why != ""
  }

  /** The first usable marker of its second. */
  ghost predicate FirstAt(renew: Marker -> Marker, markers: seq<Marker>, j: nat) {
    && j < |markers| && Usable(renew(markers[j]))
    && forall i :: 0 <= i < j && Usable(renew(markers[i])) ==> renew(markers[i]).seconds != renew(markers[j]).seconds
  }

  ghost predicate FromFirst(renew: Marker -> Marker, markers: seq<Marker>, x: Marker) {
    exists j: nat :: FirstAt(renew, markers, j) && x == renew(markers[j])
  }

  lemma FirstMore(renew: Marker -> Marker, init: seq<Marker>, last: Marker, x: Marker)
    ensures FromFirst(renew, init + [last], x) <==>
      FromFirst(renew, init, x) || (x == renew(last) && Usable(x) && forall i :: 0 <= i < |init| && Usable(renew(init[i])) ==> renew(init[i]).seconds != x.seconds)
  {
    var all := init + [last];
    assert all[|init|] == last && forall i :: 0 <= i < |init| ==> all[i] == init[i];
    if FromFirst(renew, init, x) {
      var j: nat :| FirstAt(renew, init, j) && x == renew(init[j]);
      assert FirstAt(renew, all, j);
    }
    if x == renew(last) && Usable(x) && forall i :: 0 <= i < |init| && Usable(renew(init[i])) ==> renew(init[i]).seconds != x.seconds {
      assert FirstAt(renew, all, |init|);
    }
    if FromFirst(renew, all, x) {
      var j: nat :| FirstAt(renew, all, j) && x == renew(all[j]);
      assert j < |init| ==> FirstAt(renew, init, j);
      assert j == |init| ==> forall i :: 0 <= i < |init| ==> renew(all[i]) == renew(init[i]);
    }
  }

  lemma {:induction false} TimesExact(markers: seq<Marker>, seconds: int)
    ensures seconds in Times(markers) <==> exists k :: 0 <= k < |markers| && markers[k].seconds == seconds
  {
    if markers != [] {
      TimesExact(markers[..|markers| - 1], seconds);
    }
  }

  ghost predicate DistinctTimes(markers: seq<Marker>) {
    forall i, j :: 0 <= i < j < |markers| ==> markers[i].seconds != markers[j].seconds
  }

  /** Every second of a usable marker is there as long as there is room. */
  ghost predicate HasSeconds(renew: Marker -> Marker, markers: seq<Marker>, taken: seq<Marker>) {
    forall i :: 0 <= i < |markers| && Usable(renew(markers[i])) ==> renew(markers[i]).seconds in Times(taken)
  }

  lemma {:induction false} TakenMarkers(renew: Marker -> Marker, markers: seq<Marker>, room: nat, taken: seq<Marker>)
    requires taken == FirstOfTimes(renew, markers, room)
    ensures |taken| <= room && DistinctTimes(taken)
    ensures forall k :: 0 <= k < |taken| ==> Usable(taken[k]) && FromFirst(renew, markers, taken[k])
    ensures |taken| < room ==> HasSeconds(renew, markers, taken)
  {
    if markers != [] {
      var init, last := markers[..|markers| - 1], markers[|markers| - 1];
      var before := FirstOfTimes(renew, init, room);
      TakenMarkers(renew, init, room, before);
      assert markers == init + [last];
      TakenMore(renew, init, last, room, before);
    }
  }

  lemma TakenMore(renew: Marker -> Marker, init: seq<Marker>, last: Marker, room: nat, before: seq<Marker>)
    requires |before| <= room && DistinctTimes(before) && (|before| < room ==> HasSeconds(renew, init, before))
    requires forall k :: 0 <= k < |before| ==> Usable(before[k]) && FromFirst(renew, init, before[k])
    ensures var taken := WithMarker(before, renew(last), room);
      && |taken| <= room && DistinctTimes(taken)
      && (forall k :: 0 <= k < |taken| ==> Usable(taken[k]) && FromFirst(renew, init + [last], taken[k]))
      && (|taken| < room ==> HasSeconds(renew, init + [last], taken))
  {
    var x, taken := renew(last), WithMarker(before, renew(last), room);
    TimesExact(before, x.seconds);
    forall k | 0 <= k < |taken| ensures FromFirst(renew, init + [last], taken[k]) {
      FirstMore(renew, init, last, taken[k]);
    }
    if taken != before {
      assert taken[..|before|] == before;
    }
    assert forall i :: 0 <= i < |init| ==> (init + [last])[i] == init[i];
  }

  lemma {:induction false} TakenInOrder(renew: Marker -> Marker, markers: seq<Marker>, room: nat, k: nat)
    requires k <= |markers|
    ensures FirstOfTimes(renew, markers[..k], room) <= FirstOfTimes(renew, markers, room)
  {
    if k < |markers| {
      var init := markers[..|markers| - 1];
      assert init[..k] == markers[..k];
      TakenInOrder(renew, init, room, k);
    } else {
      assert markers[..k] == markers;
    }
  }

  /** The markers that are taken: no more than the limit, or one if that is not positive; no two of one
      second; each is the first usable one of its second, renewed; every second of a usable one is there
      unless there is no room; and they come in the order of the list. */
  lemma NormalizedExact(markers: seq<Marker>, limit: int, room: nat, k: nat)
    requires room == (if limit <= 0 then 1 else limit) && k <= |markers|
    ensures var taken := Normalized(markers, limit);
      && |taken| <= room && DistinctTimes(taken)
      && (forall i :: 0 <= i < |taken| ==> Usable(taken[i]) && FromFirst(Renewed, markers, taken[i]))
      && (|taken| < room ==> HasSeconds(Renewed, markers, taken))
      && Normalized(markers[..k], limit) <= taken
  {
    TakenMarkers(Renewed, markers, room, Normalized(markers, limit));
    TakenInOrder(Renewed, markers, room, k);
  }

  // ---------------------------------------------------------------- the pattern

  predicate DigitsAt(s: string, from: nat, n: nat) {
    from + n <= |s| && forall k :: from <= k < from + n ==> IsDigit(s[k])
  }

  /** One or two digits, a colon and two digits, and perhaps another colon and two digits. */
  ghost predicate IsStamp(t: string) {
    exists h: nat :: (h == 1 || h == 2) && IsStampOf(t, h)
  }

  ghost predicate IsStampOf(t: string, h: nat) {
    && DigitsAt(t, 0, h)
    && (|t| == h + 3 || (|t| == h + 6 && t[h + 3] == ':' && DigitsAt(t, h + 4, 2)))
    && t[h] == ':' && DigitsAt(t, h + 1, 2)
  }

  /** A bracket, a stamp of length `n` and a bracket, `a` characters of space, and then `b` characters
      none of which is a line break. */
  ghost predicate PatternAt(s: string, n: nat, a: nat, b: nat) {
    && n + 2 + a + b <= |s| && b > 0
    && s[0] in {'[', '('} && IsStamp(s[1..n + 1]) && s[n + 1] in {']', ')'}
    && (forall k :: n + 2 <= k < n + 2 + a ==> PatternSpace(s[k]))
    && (forall k :: n + 2 + a <= k < n + 2 + a + b ==> s[k] != '\n')
  }

  lemma StampLength(s: string, n: nat)
    requires n < |s| && s[n] in {']', ')'}
    ensures TimeLength(s) == Some(n) <==> IsStamp(s[..n])
  {
    var t := s[..n];
    assert forall k :: 0 <= k < n ==> t[k] == s[k];
    if IsStamp(t) {
      var h: nat :| (h == 1 || h == 2) && IsStampOf(t, h);
      assert s[h] == ':' && IsDigit(s[0]);
    }
    if TimeLength(s) == Some(n) {
      var h := if |s| > 1 && IsDigit(s[0]) && IsDigit(s[1]) then 2 else 1;
      assert IsStampOf(t, h);
    }
  }

  /** The match is what the pattern has in this way. */
  ghost predicate MatchedAs(s: string, m: Match, n: nat, a: nat, b: nat) {
    PatternAt(s, n, a, b) && m == Match(s[1..n + 1], s[n + 2 + a..n + 2 + a + b], n + 2 + a + b)
  }

  /** A marker is found at the beginning of a text if and only if the pattern fits there somehow; then its
      stamp and its quote are parts of one way in which it fits. */
  lemma MatchHereExact(s: string)
    ensures MatchHere(s).Some? <==> exists n: nat, a: nat, b: nat :: PatternAt(s, n, a, b)
    ensures MatchHere(s).Some? ==> exists n: nat, a: nat, b: nat :: MatchedAs(s, MatchHere(s).value, n, a, b)
  {
    if MatchHere(s).Some? {
      var n, c := MatchParts(s);
      MatchFits(s, n, c);
      var a, b := c.0, c.1 - c.0;
      assert MatchedAs(s, MatchHere(s).value, n, a, b);
      assert PatternAt(s, n, a, b);
    }
    if n: nat, a: nat, b: nat :| PatternAt(s, n, a, b) {
      FitIsMatched(s, n, a, b);
    }
  }

  lemma MatchParts(s: string) returns (n: nat, c: (nat, nat))
    requires MatchHere(s).Some?
    ensures n + 1 < |s| && s[0] in {'[', '('} && TimeLength(s[1..]) == Some(n) && s[n + 1] in {']', ')'} && Capture(s[n + 2..]) == Some(c)
    ensures c.0 < c.1 <= |s| - n - 2
    ensures MatchHere(s) == Some(Match(s[1..n + 1], s[n + 2..][c.0..c.1], n + 2 + c.1))
  {
    n := TimeLength(s[1..]).value;
    c := Capture(s[n + 2..]).value;
  }

  lemma MatchFits(s: string, n: nat, c: (nat, nat))
    requires n + 1 < |s| && s[0] in {'[', '('} && TimeLength(s[1..]) == Some(n) && s[n + 1] in {']', ')'} && Capture(s[n + 2..]) == Some(c)
    ensures c.0 < c.1 && MatchedAs(s, Match(s[1..n + 1], s[n + 2..][c.0..c.1], n + 2 + c.1), n, c.0, c.1 - c.0)
  {
    PartsFit(s, n, s[n + 2..], c.0, c.1);
  }

  lemma PartsFit(s: string, n: nat, rest: string, from: nat, to: nat)
    requires n + 1 < |s| && s[0] in {'[', '('} && TimeLength(s[1..]) == Some(n) && s[n + 1] in {']', ')'}
    requires rest == s[n + 2..] && Capture(rest) == Some((from, to))
    ensures PatternAt(s, n, from, to - from) && rest[from..to] == s[n + 2 + from..n + 2 + to]
  {
    StampLength(s[1..], n);
    assert s[1..][..n] == s[1..n + 1] && s[1..][n] == s[n + 1];
    CaptureFits(rest);
    SliceOfRest(s, n + 2, from, to);
    assert forall k :: 0 <= k < |rest| ==> rest[k] == s[n + 2 + k];
    forall k | n + 2 <= k < n + 2 + from ensures PatternSpace(s[k]) {
      assert rest[k - n - 2] == s[k];
    }
    forall k | n + 2 + from <= k < n + 2 + to ensures s[k] != '\n' {
      assert rest[k - n - 2] == s[k];
    }
  }

  lemma SliceOfRest(s: string, k: nat, from: nat, to: nat)
    requires k <= |s| && from <= to <= |s| - k
    ensures s[k..][from..to] == s[k + from..k + to]
  {
  }

  lemma CaptureFits(s: string)
    requires Capture(s).Some?
    ensures var c := Capture(s).value;
      && (forall k :: 0 <= k < c.0 ==> PatternSpace(s[k]))
      && (forall k :: c.0 <= k < c.1 ==> s[k] != '\n')
  {
    var n := PatternSpaceLength(s);
    if n < |s| {
      assert forall k :: 0 <= k < LineLength(s[n..]) ==> s[n..][k] == s[n + k];
    }
  }

  lemma {:induction false} VisibleExists(s: string, k: nat)
    requires k < |s| && s[k] != '\n'
    ensures LastVisible(s).Some?
  {
    if s[|s| - 1] == '\n' {
      VisibleExists(s[..|s| - 1], k);
    }
  }

  lemma FitIsMatched(s: string, n: nat, a: nat, b: nat)
    requires PatternAt(s, n, a, b)
    ensures MatchHere(s).Some?
  {
    assert s[1..][..n] == s[1..n + 1] && s[1..][n] == s[n + 1];
    StampLength(s[1..], n);
    var rest := s[n + 2..];
    assert rest[a] == s[n + 2 + a];
    VisibleExists(rest, a);
    if PatternSpaceLength(rest) < |rest| {
      assert Capture(rest).Some?;
    }
  }

  // ---------------------------------------------------------------- the segments of a transcript

  lemma {:induction false} SegmentsAppend(a: seq<Chunk>, b: seq<Chunk>)
    ensures SegmentsOf(a + b) == SegmentsOf(a) + SegmentsOf(b)
  {
    if b == [] {
      assert a + b == a;
    } else {
      assert (a + b)[..|a + b| - 1] == a + b[..|b| - 1];
      SegmentsAppend(a, b[..|b| - 1]);
    }
  }

  /** Each chunk that has a text and a time gives one segment, with its text collapsed, in the order of
      the chunks, and no other gives one. */
  lemma SegmentsExact(before: seq<Chunk>, chunk: Chunk, behind: seq<Chunk>)
    ensures SegmentsOf(before + [chunk] + behind) ==
      SegmentsOf(before)
      + (if chunk.seconds.Some? && Fields(chunk.text) != [] then [Segment(chunk.seconds.value, JoinWords(Fields(chunk.text)))] else [])
      + SegmentsOf(behind)
    ensures SegmentsOf([]) == []
  {
    SegmentsAppend(before + [chunk], behind);
    SegmentsAppend(before, [chunk]);
    assert [chunk][..0] == [];
    FieldsAreWords(chunk.text);
    assert Fields(chunk.text) != [] ==> IsWord(Fields(chunk.text)[0]);
  }
}
