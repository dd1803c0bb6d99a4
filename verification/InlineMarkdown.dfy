/** The scanner for links in a line of markdown, and what is rendered from its pieces. */
module InlineMarkdown {
  import opened Basics
  import opened Text

  // ---------------------------------------------------------------- links

  /** Where a link begins, where its label ends and where it ends. */
  datatype Place = Place(start: nat, middle: nat, end: nat)

  predicate Fits(s: string, p: Place) {
    && p.start < p.middle && p.middle + 2 <= p.end < |s|
    && s[p.start] == '[' && s[p.middle] == ']' && s[p.middle + 1] == '(' && s[p.end] == ')'
  }

  /** The first opening bracket, the first `](` after it and the first `)` after that. */
  function FindLink(s: string): (p: Option<Place>)
    ensures p.Some? ==> Fits(s, p.value)
  {
    var start := Index(s, "[");
    if start < 0 then None
    else
      var middle := Index(s[start..], "](");
      if middle < 0 then None
      else
        var end := Index(s[start + middle + 2..], ")");
        if end < 0 then None
        else
          IndexesFit(s, start, middle, end);
          Some(Place(start, start + middle, start + middle + 2 + end))
  }

  lemma IndexesFit(s: string, start: nat, middle: nat, end: nat)
    requires start == Index(s, "[") && middle == Index(s[start..], "](") && end == Index(s[start + middle + 2..], ")")
    ensures Fits(s, Place(start, start + middle, start + middle + 2 + end))
  {
    var t, u := s[start..], s[start + middle + 2..];
    IndexExact(s, "[");
    IndexExact(t, "](");
    IndexExact(u, ")");
    OneChar(s, '[', start);
    TwoChars(t, ']', '(', middle);
    OneChar(u, ')', end);
    assert t[middle] == s[start + middle] && t[middle + 1] == s[start + middle + 1] && u[end] == s[start + middle + 2 + end];
    assert t[0] == s[start];
  }

  /** A link and the text before it. */
  datatype Link = Link(text: string, caption: string, href: string)

  /** The links of a line, and the text after the last one. */
  datatype Scanned = Scanned(links: seq<Link>, tail: string)

  function LinkAt(s: string, p: Place): Link
    requires Fits(s, p)
  {
    Link(s[..p.start], s[p.start + 1..p.middle], s[p.middle + 2..p.end])
  }

  /** What is found fits. */
  ghost predicate Finder(find: string -> Option<Place>) {
    forall s :: find(s).Some? ==> Fits(s, find(s).value)
  }

  /** The links of a line, one after the other, where `find` finds the first one of a text. */
  function ScanWith(find: string -> Option<Place>, s: string): Scanned
    requires Finder(find)
    decreases |s|
  {
    match find(s)
    case None => Scanned([], s)
    case Some(p) =>
      var rest := ScanWith(find, s[p.end + 1..]);
      Scanned([LinkAt(s, p)] + rest.links, rest.tail)
  }

  function Scan(s: string): Scanned {
    ScanWith(FindLink, s)
  }

  lemma ScanNext(find: string -> Option<Place>, s: string, p: Place)
    requires Finder(find) && find(s) == Some(p)
    ensures var rest := ScanWith(find, s[p.end + 1..]);
      ScanWith(find, s) == Scanned([LinkAt(s, p)] + rest.links, rest.tail)
  {
  }

  function PrintLink(l: Link): string {
    l.text + "[" + l.caption + "](" + l.href + ")"
  }

  /** The markdown of links and text. */
  function Print(links: seq<Link>, tail: string): string {
    if links == [] then tail else PrintLink(links[0]) + Print(links[1..], tail)
  }

  /** What is written for links and text, one after the other. */
  function Rendered(link: Link -> string, text: string -> string, links: seq<Link>, tail: string): string {
    if links == [] then text(tail) else link(links[0]) + Rendered(link, text, links[1..], tail)
  }

  lemma RenderedNext(link: Link -> string, text: string -> string, l: Link, links: seq<Link>, tail: string, before: string)
    ensures before + Rendered(link, text, [l] + links, tail) == before + link(l) + Rendered(link, text, links, tail)
  {
    assert ([l] + links)[1..] == links;
  }

  // ---------------------------------------------------------------- plain text

  function PlainLink(l: Link): string {
    l.text + l.caption + ": " + l.href
  }

  function Same(s: string): string {
    s
  }

  /** A line without the markup of its links. */
  function Plain(s: Scanned): string {
    Rendered(PlainLink, Same, s.links, s.tail)
  }

  method AppendPlain(builder: string, s: string, p: Place) returns (r: string)
    requires Fits(s, p)
    ensures r == builder + PlainLink(LinkAt(s, p))
  {
    r := builder + s[..p.start];
    r := r + s[p.start + 1..p.middle];
    r := r + ": ";
    r := r + s[p.middle + 2..p.end];
  }

  method RenderPlainMarkdownLinks(value: string) returns (r: string)
    ensures r == Plain(Scan(value))
  {
    var builder, remaining := "", value;
    ghost var left := Scan(value);
    while true
      invariant left == Scan(remaining) && builder + Plain(left) == Plain(Scan(value))
      decreases |remaining|
    {
      var place := FindLink(remaining);
      if place.None? {
        return builder + remaining;
      }
      var p := place.value;
      ScanNext(FindLink, remaining, p);
      left := Scan(remaining[p.end + 1..]);
      RenderedNext(PlainLink, Same, LinkAt(remaining, p), left.links, left.tail, builder);
      builder := AppendPlain(builder, remaining, p);
      remaining := remaining[p.end + 1..];
    }
  }

  // ---------------------------------------------------------------- HTML

  /** `html.EscapeString`, of one character. */
  function EscapeChar(c: char): (s: string)
    ensures s != ""
  {
    if c == '&' then "&amp;"
    else if c == '\'' then "&#39;"
    else if c == '<' then "&lt;"
    else if c == '>' then "&gt;"
    else if c == '"' then "&#34;"
    else [c]
  }

  /** Every character is replaced by a text. */
  function Replaced(code: char -> string, s: string): string {
    if s == "" then "" else code(s[0]) + Replaced(code, s[1..])
  }

  function Escape(s: string): string {
    Replaced(EscapeChar, s)
  }

  const OPEN: string := "<strong>"
  const CLOSE: string := "</strong>"

  /** The HTML of text, when `open` tells whether it begins in bold. */
  function BoldText(s: string, open: bool): string
    decreases |s|
  {
    var index := Index(s, "**");
    if index < 0 then Escape(s) + if open then CLOSE else ""
    else Escape(s[..index]) + (if open then CLOSE else OPEN) + BoldText(s[index + 2..], !open)
  }

  function InlineText(s: string): string {
    BoldText(s, false)
  }

  lemma Regrouped(a: string, b: string, c: string, d: string)
    ensures a + (b + c + d) == a + b + c + d
  {
  }

  lemma {:induction false} BoldNext(s: string, open: bool, index: nat, before: string)
    requires index == Index(s, "**")
    ensures before + BoldText(s, open) == before + Escape(s[..index]) + (if open then CLOSE else OPEN) + BoldText(s[index + 2..], !open)
  {
    Regrouped(before, Escape(s[..index]), if open then CLOSE else OPEN, BoldText(s[index + 2..], !open));
  }

  method RenderInlineText(value: string) returns (r: string)
    ensures r == InlineText(value)
  {
    var builder, remaining, open := "", value, false;
    while true
      invariant builder + BoldText(remaining, open) == InlineText(value)
      decreases |remaining|
    {
      var index := Index(remaining, "**");
      if index < 0 {
        builder := builder + Escape(remaining);
        break;
      }
      BoldNext(remaining, open, index, builder);
      builder := builder + Escape(remaining[..index]);
      if open {
        builder := builder + CLOSE;
      } else {
        builder := builder + OPEN;
      }
      open := !open;
      remaining := remaining[index + 2..];
    }
    if open {
      builder := builder + CLOSE;
    }
    return builder;
  }

  const ANCHOR: string := "<a href=\""
  const STYLE: string := "\"" + " style=\"color:#2563eb;text-decoration:underline;\">"
  const END: string := "</a>"

  function AnchorOf(l: Link): string {
    ANCHOR + Escape(l.href) + STYLE + Escape(l.caption) + END
  }

  function HtmlLink(l: Link): string {
    InlineText(l.text) + AnchorOf(l)
  }

  function Html(s: Scanned): string {
    Rendered(HtmlLink, InlineText, s.links, s.tail)
  }

  method AppendHtml(builder: string, s: string, p: Place) returns (r: string)
    requires Fits(s, p)
    ensures r == builder + HtmlLink(LinkAt(s, p))
  {
    var text := RenderInlineText(s[..p.start]);
    var caption, href := s[p.start + 1..p.middle], s[p.middle + 2..p.end];
    var anchor := ANCHOR + Escape(href);
    anchor := anchor + STYLE;
    anchor := anchor + Escape(caption) + END;
    r := builder + (text + anchor);
  }

  method RenderInlineMarkdown(value: string) returns (r: string)
    ensures r == Html(Scan(value))
  {
    var builder, remaining := "", value;
    ghost var left := Scan(value);
    while true
      invariant left == Scan(remaining) && builder + Html(left) == Html(Scan(value))
      decreases |remaining|
    {
      var place := FindLink(remaining);
      if place.None? {
        var text := RenderInlineText(remaining);
        return builder + text;
      }
      var p := place.value;
      ScanNext(FindLink, remaining, p);
      left := Scan(remaining[p.end + 1..]);
      RenderedNext(HtmlLink, InlineText, LinkAt(remaining, p), left.links, left.tail, builder);
      builder := AppendHtml(builder, remaining, p);
      remaining := remaining[p.end + 1..];
    }
  }

  // ---------------------------------------------------------------- what the scanner finds

  lemma OneChar(s: string, c: char, k: nat)
    requires k < |s|
    ensures Occurs(s, [c], k) <==> s[k] == c
  {
    assert s[k..k + 1] == [s[k]];
  }

  lemma TwoChars(s: string, a: char, b: char, k: nat)
    requires k + 1 < |s|
    ensures Occurs(s, [a, b], k) <==> s[k] == a && s[k + 1] == b
  {
    assert s[k..k + 2] == [s[k], s[k + 1]];
  }

  /** The end of a label. */
  predicate Closes(s: string, k: nat)
    requires k + 1 < |s|
  {
    s[k] == ']' && s[k + 1] == '('
  }

  /** A text with a link somewhere in it. */
  ghost predicate HasLink(s: string) {
    exists p :: Fits(s, p)
  }

  /** A place for a link, each part of which ends as soon as it can. */
  ghost predicate First(s: string, p: Place) {
    && Fits(s, p)
    && (forall k :: 0 <= k < p.start ==> s[k] != '[')
    && (forall k :: p.start < k < p.middle ==> !Closes(s, k))
    && (forall k :: p.middle + 2 <= k < p.end ==> s[k] != ')')
  }

  lemma FirstIsUnique(s: string, p: Place, q: Place)
    requires First(s, p) && First(s, q)
    ensures p == q
  {
    assert p.start == q.start;
    assert Closes(s, p.middle) && Closes(s, q.middle);
    assert p.middle == q.middle;
  }

  lemma FirstBracket(s: string, c: char)
    ensures Index(s, [c]) >= 0 ==> s[Index(s, [c])] == c && forall k :: 0 <= k < Index(s, [c]) ==> s[k] != c
    ensures Index(s, [c]) < 0 ==> c !in s
  {
    IndexExact(s, [c]);
    if Index(s, [c]) >= 0 {
      OneChar(s, c, Index(s, [c]));
    }
    forall k | 0 <= k < |s| && (Index(s, [c]) < 0 || k < Index(s, [c])) ensures s[k] != c {
      OneChar(s, c, k);
    }
  }

  lemma FirstClosing(s: string)
    ensures Index(s, "](") >= 0 ==> Closes(s, Index(s, "](")) && forall k :: 0 <= k < Index(s, "](") ==> !Closes(s, k)
    ensures Index(s, "](") < 0 ==> forall k :: 0 <= k < |s| - 1 ==> !Closes(s, k)
  {
    IndexExact(s, "](");
    if Index(s, "](") >= 0 {
      TwoChars(s, ']', '(', Index(s, "]("));
    }
    forall k | 0 <= k < |s| - 1 && (Index(s, "](") < 0 || k < Index(s, "](")) ensures !Closes(s, k) {
      TwoChars(s, ']', '(', k);
    }
  }

  /** Closing brackets and so on of a text, seen from a later point of it. */
  lemma Later(s: string, from: nat, t: string)
    requires from <= |s| && t == s[from..]
    ensures forall k :: from <= k < |s| ==> s[k] == t[k - from]
    ensures forall k :: from <= k < |s| - 1 ==> (Closes(s, k) <==> Closes(t, k - from))
  {
  }

  lemma NoBracket(s: string)
    requires '[' !in s
    ensures !HasLink(s)
  {
  }

  lemma NoLabel(s: string, start: nat, t: string)
    requires start < |s| && t == s[start..] && forall k :: 0 <= k < start ==> s[k] != '['
    requires forall k :: 0 <= k < |t| - 1 ==> !Closes(t, k)
    ensures !HasLink(s)
  {
    if HasLink(s) {
      var p :| Fits(s, p);
      Later(s, start, t);
      assert Closes(s, p.middle);
    }
  }

  lemma NoEnd(s: string, start: nat, t: string, middle: nat, u: string)
    requires start + middle + 2 <= |s| && t == s[start..] && u == s[start + middle + 2..]
    requires (forall k :: 0 <= k < start ==> s[k] != '[') && (forall k :: 0 <= k < middle ==> !Closes(t, k)) && ')' !in u
    ensures !HasLink(s)
  {
    Later(s, start, t);
    Later(s, start + middle + 2, u);
    forall p ensures !Fits(s, p) {
      if Fits(s, p) {
        assert Closes(s, p.middle);
      }
    }
  }

  lemma FoundIsFirst(s: string, start: nat, t: string, middle: nat, u: string, end: nat)
    requires start + middle + 2 <= |s| && t == s[start..] && u == s[start + middle + 2..] && end < |u|
    requires (forall k :: 0 <= k < start ==> s[k] != '[') && (forall k :: 0 <= k < middle ==> !Closes(t, k))
    requires forall k :: 0 <= k < end ==> u[k] != ')'
    requires Fits(s, Place(start, start + middle, start + middle + 2 + end))
    ensures First(s, Place(start, start + middle, start + middle + 2 + end))
  {
    Later(s, start, t);
    Later(s, start + middle + 2, u);
  }

  /** The scanner finds a link exactly if there is one, and then the first. */
  lemma FindLinkExact(s: string)
    ensures FindLink(s).Some? ==> First(s, FindLink(s).value)
    ensures FindLink(s).Some? <==> HasLink(s)
  {
    var start := Index(s, "[");
    FirstBracket(s, '[');
    if start < 0 {
      NoBracket(s);
    } else {
      var t := s[start..];
      var middle := Index(t, "](");
      FirstClosing(t);
      if middle < 0 {
        NoLabel(s, start, t);
      } else {
        var u := s[start + middle + 2..];
        var end := Index(u, ")");
        FirstBracket(u, ')');
        if end < 0 {
          NoEnd(s, start, t, middle, u);
        } else {
          IndexesFit(s, start, middle, end);
          FoundIsFirst(s, start, t, middle, u, end);
        }
      }
    }
  }

  // ---------------------------------------------------------------- scanning and printing

  lemma LinkText(s: string, p: Place)
    requires Fits(s, p)
    ensures PrintLink(LinkAt(s, p)) + s[p.end + 1..] == s
  {
    assert s[p.middle..p.middle + 2] == "](";
    assert s == s[..p.start] + [s[p.start]] + s[p.start + 1..p.middle] + s[p.middle..p.middle + 2] + s[p.middle + 2..p.end] + [s[p.end]] + s[p.end + 1..];
  }

  lemma PrintNext(l: Link, links: seq<Link>, tail: string)
    ensures Print([l] + links, tail) == PrintLink(l) + Print(links, tail)
  {
    assert ([l] + links)[1..] == links;
  }

  lemma {:induction false} PrintScanWith(find: string -> Option<Place>, s: string)
    requires Finder(find)
    ensures Print(ScanWith(find, s).links, ScanWith(find, s).tail) == s
    decreases |s|
  {
    match find(s)
    case None =>
    case Some(p) =>
      var after := s[p.end + 1..];
      PrintScanWith(find, after);
      ScanNext(find, s, p);
      PrintNext(LinkAt(s, p), ScanWith(find, after).links, ScanWith(find, after).tail);
      LinkText(s, p);
  }

  /** What the scanner takes apart prints as the text that was scanned. */
  lemma PrintScan(s: string)
    ensures Print(Scan(s).links, Scan(s).tail) == s
  {
    PrintScanWith(FindLink, s);
  }

  /** Nothing in a link looks like the end of one of its parts. */
  ghost predicate CleanLink(l: Link) {
    && '[' !in l.text && ')' !in l.href
    && forall k :: 0 <= k < |l.caption| - 1 ==> !Closes(l.caption, k)
  }

  ghost predicate Clean(links: seq<Link>, tail: string) {
    (forall k :: 0 <= k < |links| ==> CleanLink(links[k])) && !HasLink(tail)
  }

  lemma PrintedParts(l: Link, rest: string, s: string)
    requires s == PrintLink(l) + rest
    ensures s == l.text + "[" + l.caption + "](" + l.href + ")" + rest
    ensures s[..|l.text|] == l.text && s[|l.text| + 1..|l.text| + 1 + |l.caption|] == l.caption
    ensures s[|l.text| + |l.caption| + 3..|l.text| + |l.caption| + 3 + |l.href|] == l.href
    ensures s[|PrintLink(l)|..] == rest && |PrintLink(l)| == |l.text| + |l.caption| + |l.href| + 4
  {
  }

  function PlaceOf(l: Link): Place {
    Place(|l.text|, |l.text| + 1 + |l.caption|, |l.text| + |l.caption| + 3 + |l.href|)
  }

  lemma PrintedIsFirst(l: Link, rest: string, s: string)
    requires CleanLink(l) && s == l.text + "[" + l.caption + "](" + l.href + ")" + rest
    ensures First(s, PlaceOf(l))
  {
    var p := PlaceOf(l);
    assert s[p.start] == '[' && s[p.middle] == ']' && s[p.middle + 1] == '(' && s[p.end] == ')';
    assert forall k :: 0 <= k < p.start ==> s[k] == l.text[k];
    assert forall k :: p.start < k < p.middle ==> s[k] == l.caption[k - p.start - 1];
    assert forall k :: p.middle + 2 <= k < p.end ==> s[k] == l.href[k - p.middle - 2];
    forall k | p.start < k < p.middle ensures !Closes(s, k) {
      if k + 1 < p.middle {
        assert !Closes(l.caption, k - p.start - 1);
      }
    }
  }

  /** The first link is found, if there is any. */
  ghost predicate FindsFirst(find: string -> Option<Place>, s: string) {
    (find(s).Some? ==> First(s, find(s).value)) && (find(s).Some? <==> HasLink(s))
  }

  lemma PrintedLinkIsFound(find: string -> Option<Place>, l: Link, rest: string, s: string)
    requires CleanLink(l) && s == PrintLink(l) + rest && FindsFirst(find, s)
    ensures find(s) == Some(PlaceOf(l)) && LinkAt(s, PlaceOf(l)) == l && s[PlaceOf(l).end + 1..] == rest
  {
    PrintedParts(l, rest, s);
    PrintedIsFirst(l, rest, s);
    FirstIsUnique(s, find(s).value, PlaceOf(l));
  }

  lemma {:induction false} ScanOfPrint(find: string -> Option<Place>, links: seq<Link>, tail: string, s: string)
    requires Finder(find) && forall t :: FindsFirst(find, t)
    requires Clean(links, tail) && s == Print(links, tail)
    ensures ScanWith(find, s) == Scanned(links, tail)
  {
    assert FindsFirst(find, s);
    if links != [] {
      var first, others := links[0], links[1..];
      ScanOfPrint(find, others, tail, Print(others, tail));
      assert CleanLink(first) && links == [first] + others;
      ScanOfFirst(find, first, others, tail, Print(others, tail), s);
    }
  }

  lemma ScanOfFirst(find: string -> Option<Place>, first: Link, others: seq<Link>, tail: string, rest: string, s: string)
    requires Finder(find) && FindsFirst(find, s) && CleanLink(first) && s == PrintLink(first) + rest
    requires ScanWith(find, rest) == Scanned(others, tail)
    ensures ScanWith(find, s) == Scanned([first] + others, tail)
  {
    PrintedLinkIsFound(find, first, rest, s);
    ScanNext(find, s, PlaceOf(first));
  }

  lemma FirstIsClean(s: string, p: Place)
    requires First(s, p)
    ensures CleanLink(LinkAt(s, p))
  {
    var l := LinkAt(s, p);
    forall k | 0 <= k < |l.caption| - 1 ensures !Closes(l.caption, k) {
      assert !Closes(s, p.start + 1 + k);
    }
  }

  lemma {:induction false} ScannedIsClean(find: string -> Option<Place>, s: string)
    requires Finder(find) && forall t :: FindsFirst(find, t)
    ensures Clean(ScanWith(find, s).links, ScanWith(find, s).tail)
    decreases |s|
  {
    assert FindsFirst(find, s);
    match find(s)
    case None =>
    case Some(p) =>
      ScannedIsClean(find, s[p.end + 1..]);
      FirstIsClean(s, p);
      ScanNext(find, s, p);
  }

  /** Scanning recovers what was printed exactly if the parts are clean: no bracket in a text, no
      `](` in a label, no parenthesis in an address and no link in the tail. */
  lemma ScanPrint(links: seq<Link>, tail: string)
    ensures Scan(Print(links, tail)) == Scanned(links, tail) <==> Clean(links, tail)
  {
    var find: string -> Option<Place> := FindLink;
    forall t ensures FindsFirst(find, t) {
      FindLinkExact(t);
    }
    ScannedIsClean(find, Print(links, tail));
    if Clean(links, tail) {
      ScanOfPrint(find, links, tail, Print(links, tail));
    }
  }

  // ---------------------------------------------------------------- what plain text shows

  lemma PlainMore(l: Link, links: seq<Link>, tail: string)
    ensures Plain(Scanned([l] + links, tail)) == l.text + l.caption + ": " + l.href + Plain(Scanned(links, tail))
  {
    assert ([l] + links)[1..] == links;
  }

  lemma PlainNext(find: string -> Option<Place>, s: string, p: Place, left: Scanned, l: Link)
    requires Finder(find) && find(s) == Some(p) && left == ScanWith(find, s[p.end + 1..]) && l == LinkAt(s, p)
    ensures Plain(ScanWith(find, s)) == l.text + l.caption + ": " + l.href + Plain(left)
  {
    ScanNext(find, s, p);
    PlainMore(l, left.links, left.tail);
  }

  /** A line without a link is its own plain form. */
  lemma PlainWithoutLink(s: string)
    requires !HasLink(s)
    ensures Plain(Scan(s)) == s
  {
    FindLinkExact(s);
  }

  lemma FoundFirst(s: string, p: Place)
    requires First(s, p)
    ensures FindLink(s) == Some(p)
  {
    FindLinkExact(s);
    FirstIsUnique(s, p, FindLink(s).value);
  }

  /** The plain form of a line with a link: what stands before the first one, its label, a colon and its
      address, and then the plain form of what stands behind. */
  lemma PlainOfLink(s: string, p: Place)
    requires First(s, p)
    ensures Plain(Scan(s)) ==
      s[..p.start] + s[p.start + 1..p.middle] + ": " + s[p.middle + 2..p.end] + Plain(Scan(s[p.end + 1..]))
  {
    FoundFirst(s, p);
    PlainNext(FindLink, s, p, Scan(s[p.end + 1..]), LinkAt(s, p));
  }
}
