/** The labels of the graph's nodes: how a text is wrapped into at most four lines when the browser
    does not measure it. */
module GraphLabels {
  import opened Words

  const CHAR_WIDTH: real := 7.2

  function Max(a: real, b: real): real {
    if a >= b then a else b
  }

  function Min(a: real, b: real): real {
    if a <= b then a else b
  }

  // ---------------------------------------------------------------- wrapping a label

  /** A label while it is wrapped: the full lines, the words of the line that is filled, and
      whether the wrapping was broken off. */
  datatype Wrapping = Wrapping(lines: seq<seq<string>>, current: seq<string>, done: bool)

  predicate TooLong(text: string, maxWidth: real) {
    |text| as real * CHAR_WIDTH > maxWidth
  }

  /** Which words are too long for one line. */
  function Exceeds(maxWidth: real): seq<string> -> bool {
    (words: seq<string>) => TooLong(JoinWords(words), maxWidth)
  }

  function WithWord(w: Wrapping, word: string, exceeds: seq<string> -> bool): Wrapping {
    if w.done then w
    else
      var full := exceeds(w.current + [word]) && w.current != [];
      var lines := if full then w.lines + [w.current] else w.lines;
      Wrapping(lines, if full then [word] else w.current + [word], |lines| == 3)
  }

  function Wrapped(words: seq<string>, exceeds: seq<string> -> bool): Wrapping {
    if words == [] then Wrapping([], [], false)
    else WithWord(Wrapped(words[..|words| - 1], exceeds), words[|words| - 1], exceeds)
  }

  /** The words of the lines of a label. */
  function LabelLines(words: seq<string>, exceeds: seq<string> -> bool): seq<seq<string>> {
    var w := Wrapped(words, exceeds);
    if w.current != [] && |w.lines| < 4 then w.lines + [w.current] else w.lines
  }

  function JoinLines(lines: seq<seq<string>>): seq<string> {
    if lines == [] then [] else JoinLines(lines[..|lines| - 1]) + [JoinWords(lines[|lines| - 1])]
  }

  function Widest(lines: seq<string>): real {
    if lines == [] then 72.0 else Max(Widest(lines[..|lines| - 1]), |lines[|lines| - 1]| as real * CHAR_WIDTH)
  }

  datatype Label = Label(width: real, height: real, lines: seq<string>)

  /** The size of a label with the given lines. */
  function Sized(lines: seq<string>, maxWidth: real, lineHeight: real): Label {
    Label(Min(maxWidth, Widest(lines)), Max(lineHeight, |lines| as real * lineHeight), lines)
  }

  function FallbackLabel(words: seq<string>, maxWidth: real, lineHeight: real): Label {
    Sized(JoinLines(LabelLines(words, Exceeds(maxWidth))), maxWidth, lineHeight)
  }

  /** The texts of the lines so far and of the line that is filled. */
  ghost predicate Shows(lines: seq<string>, current: string, w: Wrapping) {
    lines == JoinLines(w.lines) && current == JoinWords(w.current) && (current == "" <==> w.current == [])
  }

  lemma {:induction false} JoinLinesSize(lines: seq<seq<string>>)
    ensures |JoinLines(lines)| == |lines|
  {
    if lines != [] {
      JoinLinesSize(lines[..|lines| - 1]);
    }
  }

  lemma JoinLinesMore(lines: seq<seq<string>>, line: seq<string>)
    ensures JoinLines(lines + [line]) == JoinLines(lines) + [JoinWords(line)]
  {
    assert (lines + [line])[..|lines|] == lines;
  }

  /** One round of the wrapping. */
  method AddWord(lines: seq<string>, current: string, word: string, maxWidth: real, ghost w: Wrapping)
    returns (more: seq<string>, rest: string)
    requires Shows(lines, current, w) && !w.done && word != ""
    ensures Shows(more, rest, WithWord(w, word, Exceeds(maxWidth)))
  {
    JoinMore(w.current, word);
    JoinMore([], word);
    JoinLinesMore(w.lines, w.current);
    more, rest := lines, current;
    var next := if current != "" then current + " " + word else word;
    assert next == JoinWords(w.current + [word]) && [] + [word] == [word];
    if TooLong(next, maxWidth) && current != "" {
      more, rest := lines + [current], word;
    } else {
      rest := next;
    }
  }

  method WrapLabel(words: seq<string>, maxWidth: real) returns (lines: seq<string>)
    requires forall k :: 0 <= k < |words| ==> words[k] != ""
    ensures lines == JoinLines(LabelLines(words, Exceeds(maxWidth)))
  {
    var current := "";
    lines := [];
    ghost var w := Wrapping([], [], false);
    for k := 0 to |words|
      invariant w == Wrapped(words[..k], Exceeds(maxWidth)) && !w.done && Shows(lines, current, w)
    {
      assert words[..k + 1][..k] == words[..k];
      lines, current := AddWord(lines, current, words[k], maxWidth, w);
      w := WithWord(w, words[k], Exceeds(maxWidth));
      JoinLinesSize(w.lines);
      if |lines| == 3 {
        WrappedDone(words, Exceeds(maxWidth), k + 1);
        break;
      }
    }
    assert words[..|words|] == words;
    JoinLinesSize(w.lines);
    JoinLinesMore(w.lines, w.current);
    if current != "" && |lines| < 4 {
      lines := lines + [current];
    }
  }

  method SizeLabel(lines: seq<string>, maxWidth: real, lineHeight: real) returns (r: Label)
    ensures r == Sized(lines, maxWidth, lineHeight)
  {
    var widest := WidestLine(lines);
    r := Label(Min(maxWidth, widest), Max(lineHeight, |lines| as real * lineHeight), lines);
  }

  method WidestLine(lines: seq<string>) returns (widest: real)
    ensures widest == Widest(lines)
  {
    widest := 72.0;
    for k := 0 to |lines|
      invariant widest == Widest(lines[..k])
    {
      assert lines[..k + 1][..k] == lines[..k];
      widest := Max(widest, |lines[k]| as real * CHAR_WIDTH);
    }
    assert lines[..|lines|] == lines;
  }

  method FallbackGraphLabelMeasure(words: seq<string>, maxWidth: real, lineHeight: real) returns (r: Label)
    requires forall k :: 0 <= k < |words| ==> words[k] != ""
    ensures r == FallbackLabel(words, maxWidth, lineHeight)
  {
    var lines := WrapLabel(words, maxWidth);
    r := SizeLabel(lines, maxWidth, lineHeight);
  }

  lemma {:induction false} WrappedDone(words: seq<string>, exceeds: seq<string> -> bool, k: nat)
    requires k <= |words| && Wrapped(words[..k], exceeds).done
    ensures Wrapped(words, exceeds) == Wrapped(words[..k], exceeds)
  {
    if k < |words| {
      assert words[..|words| - 1][..k] == words[..k];
      WrappedDone(words[..|words| - 1], exceeds, k);
    } else {
      assert words[..k] == words;
    }
  }

  lemma {:induction false} JoinMore(words: seq<string>, word: string)
    ensures JoinWords(words + [word]) == if words == [] then word else JoinWords(words) + " " + word
  {
    if |words| == 1 {
      assert (words + [word])[1..] == [word];
    } else if |words| > 1 {
      assert (words + [word])[1..] == words[1..] + [word];
      JoinMore(words[1..], word);
    }
  }

  // ---------------------------------------------------------------- what wrapping keeps

  function Flat(lines: seq<seq<string>>): seq<string> {
    if lines == [] then [] else Flat(lines[..|lines| - 1]) + lines[|lines| - 1]
  }

  lemma FlatMore(lines: seq<seq<string>>, line: seq<string>)
    ensures Flat(lines + [line]) == Flat(lines) + line
  {
    assert (lines + [line])[..|lines|] == lines;
  }

  /** Lines that hold more than one word are short enough. */
  ghost predicate LinesFit(lines: seq<seq<string>>, exceeds: seq<string> -> bool) {
    forall k :: 0 <= k < |lines| ==> lines[k] != [] && (|lines[k]| > 1 ==> !exceeds(lines[k]))
  }

  /** No line could have taken the first word of the next one. */
  ghost predicate LinesAreFull(lines: seq<seq<string>>, current: seq<string>, exceeds: seq<string> -> bool) {
    && (forall k :: 0 <= k < |lines| - 1 && lines[k + 1] != [] ==> exceeds(lines[k] + [lines[k + 1][0]]))
    && (lines != [] && current != [] ==> exceeds(lines[|lines| - 1] + [current[0]]))
  }

  ghost predicate WellWrapped(w: Wrapping, exceeds: seq<string> -> bool) {
    && LinesFit(w.lines, exceeds) && LinesAreFull(w.lines, w.current, exceeds)
    && (|w.current| > 1 ==> !exceeds(w.current))
    && (w.current == [] ==> w.lines == [])
    && (if w.done then |w.lines| == 3 && |w.current| == 1 else |w.lines| < 3)
  }

  lemma LineIsClosed(w: Wrapping, word: string, exceeds: seq<string> -> bool)
    requires WellWrapped(w, exceeds) && !w.done && exceeds(w.current + [word]) && w.current != []
    ensures LinesFit(w.lines + [w.current], exceeds) && LinesAreFull(w.lines + [w.current], [word], exceeds)
  {
    var lines := w.lines + [w.current];
    forall k | 0 <= k < |lines| - 1 && lines[k + 1] != [] ensures exceeds(lines[k] + [lines[k + 1][0]]) {
      assert k < |w.lines| - 1 ==> w.lines[k + 1] == lines[k + 1];
    }
  }

  lemma LineGoesOn(w: Wrapping, word: string, exceeds: seq<string> -> bool)
    requires WellWrapped(w, exceeds) && !w.done && !(exceeds(w.current + [word]) && w.current != [])
    ensures LinesAreFull(w.lines, w.current + [word], exceeds)
    ensures |w.current + [word]| > 1 ==> !exceeds(w.current + [word])
  {
    assert w.current != [] ==> (w.current + [word])[0] == w.current[0];
  }

  lemma WordKeepsWrapped(w: Wrapping, word: string, exceeds: seq<string> -> bool)
    requires WellWrapped(w, exceeds) && !w.done
    ensures WellWrapped(WithWord(w, word, exceeds), exceeds)
    ensures var after := WithWord(w, word, exceeds); Flat(after.lines) + after.current == Flat(w.lines) + w.current + [word]
  {
    if exceeds(w.current + [word]) && w.current != [] {
      LineIsClosed(w, word, exceeds);
      FlatMore(w.lines, w.current);
    } else {
      LineGoesOn(w, word, exceeds);
      assert Flat(w.lines) + (w.current + [word]) == Flat(w.lines) + w.current + [word];
    }
  }

  lemma {:induction false} WrappedWell(words: seq<string>, exceeds: seq<string> -> bool) returns (taken: nat)
    ensures WellWrapped(Wrapped(words, exceeds), exceeds) && taken <= |words|
    ensures Flat(Wrapped(words, exceeds).lines) + Wrapped(words, exceeds).current == words[..taken]
    ensures Wrapped(words, exceeds).done || taken == |words|
  {
    if words == [] {
      taken := 0;
    } else {
      var init := words[..|words| - 1];
      taken := WrappedWell(init, exceeds);
      assert init[..taken] == words[..taken];
      var w := Wrapped(init, exceeds);
      if !w.done {
        WordKeepsWrapped(w, words[|words| - 1], exceeds);
        assert init[..taken] == init && words == init + [words[|words| - 1]];
        taken := |words|;
        assert words[..taken] == words;
      }
    }
  }

  lemma LastLineIsClosed(w: Wrapping, exceeds: seq<string> -> bool)
    requires WellWrapped(w, exceeds) && w.current != []
    ensures LinesFit(w.lines + [w.current], exceeds) && LinesAreFull(w.lines + [w.current], [], exceeds)
  {
    var lines := w.lines + [w.current];
    forall k | 0 <= k < |lines| - 1 && lines[k + 1] != [] ensures exceeds(lines[k] + [lines[k + 1][0]]) {
      assert k < |w.lines| - 1 ==> w.lines[k + 1] == lines[k + 1];
    }
  }

  /** A label has at most four lines that read like the text from its beginning; the lines of
      several words fit, none could take the next word too, and if not all words are shown, the
      fourth line is a single word. */
  lemma LabelLinesExact(words: seq<string>, exceeds: seq<string> -> bool) returns (taken: nat)
    ensures var lines := LabelLines(words, exceeds);
      && |lines| <= 4 && taken <= |words| && Flat(lines) == words[..taken]
      && LinesFit(lines, exceeds) && LinesAreFull(lines, [], exceeds)
      && (taken < |words| ==> |lines| == 4 && |lines[3]| == 1)
  {
    taken := WrappedWell(words, exceeds);
    var w := Wrapped(words, exceeds);
    if w.current != [] {
      FlatMore(w.lines, w.current);
      LastLineIsClosed(w, exceeds);
    }
  }

  lemma WrappedMore(words: seq<string>, word: string, exceeds: seq<string> -> bool)
    ensures Wrapped(words + [word], exceeds) == WithWord(Wrapped(words, exceeds), word, exceeds)
  {
    assert (words + [word])[..|words|] == words;
  }

  /** Words no two of which fit on a line take a line each. */
  lemma FourLines(a: string, b: string, c: string, d: string, exceeds: seq<string> -> bool)
    requires exceeds([a, b]) && exceeds([b, c]) && exceeds([c, d])
    ensures LabelLines([a, b, c, d], exceeds) == [[a], [b], [c], [d]]
  {
    WrappedMore([], a, exceeds);
    WrappedMore([a], b, exceeds);
    WrappedMore([a, b], c, exceeds);
    WrappedMore([a, b, c], d, exceeds);
    assert [] + [a] == [a] && [a] + [b] == [a, b] && [b] + [c] == [b, c] && [c] + [d] == [c, d];
    assert [a, b] + [c] == [a, b, c] && [a, b, c] + [d] == [a, b, c, d];
  }

  /** The length of the words of a line, with a space between each two. */
  function LineLength(words: seq<string>): nat {
    if words == [] then 0
    else if |words| == 1 then |words[0]|
    else |words[0]| + 1 + LineLength(words[1..])
  }

  lemma {:induction false} JoinedLength(words: seq<string>)
    ensures |JoinWords(words)| == LineLength(words)
  {
    if |words| > 1 {
      JoinedLength(words[1..]);
    }
  }

  /** Words are too long for a line if they and the spaces between them, at 7.2 each, are wider than it. */
  lemma ExceedsExact(words: seq<string>, maxWidth: real)
    ensures Exceeds(maxWidth)(words) <==> 7.2 * LineLength(words) as real > maxWidth
  {
    JoinedLength(words);
  }

  lemma {:induction false} WidestExact(lines: seq<string>)
    ensures Widest(lines) >= 72.0 && forall k :: 0 <= k < |lines| ==> Widest(lines) >= 7.2 * |lines[k]| as real
    ensures Widest(lines) == 72.0 || exists k :: 0 <= k < |lines| && Widest(lines) == 7.2 * |lines[k]| as real
  {
    if lines != [] {
      WidestExact(lines[..|lines| - 1]);
    }
  }

  /** The size of a label: as wide as its widest line, at least 72 and at most as wide as allowed, and as
      high as its lines, at least one. */
  lemma SizeExact(lines: seq<string>, maxWidth: real, lineHeight: real)
    requires lineHeight > 0.0
    ensures var l := Sized(lines, maxWidth, lineHeight);
      && l.lines == lines && l.width <= maxWidth
      && (l.width < maxWidth ==> l.width >= 72.0 && forall k :: 0 <= k < |lines| ==> l.width >= 7.2 * |lines[k]| as real)
      && (l.width == maxWidth || l.width == 72.0 || exists k :: 0 <= k < |lines| && l.width == 7.2 * |lines[k]| as real)
      && l.height == lineHeight * (if lines == [] then 1 else |lines|) as real
  {
    WidestExact(lines);
    if |lines| > 1 {
      assert |lines| as real * lineHeight >= lineHeight by {
        assert (|lines| - 1) as real * lineHeight >= 0.0;
      }
    }
  }
}
