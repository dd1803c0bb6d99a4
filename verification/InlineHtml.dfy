/** A reader for the HTML of a line: it accepts only balanced bold text and well-formed anchors,
    and gives back exactly the characters and links that were rendered. */
module InlineHtml {
  import opened Basics
  import opened Text
  import opened InlineMarkdown

  /** What a reader of the page sees. */
  datatype Token = Char(c: char, bold: bool) | Anchor(href: string, caption: string)

  /** The markup that is written around text. */
  datatype Tags = Tags(open: string, close: string, anchor: string, style: string, end: string)

  const HTML: Tags := Tags(OPEN, CLOSE, ANCHOR, STYLE, END)

  // ---------------------------------------------------------------- the reader

  /** The character a text begins with, and how many it takes; none at markup. */
  function DecodeChar(s: string): (r: Option<(char, nat)>)
    ensures r.Some? ==> 0 < r.value.1 <= |s|
  {
    if s == "" || s[0] in {'<', '>', '"', '\''} then None
    else if s[0] != '&' then Some((s[0], 1))
    else if "&amp;" <= s then Some(('&', 5))
    else if "&#39;" <= s then Some(('\'', 5))
    else if "&lt;" <= s then Some(('<', 4))
    else if "&gt;" <= s then Some(('>', 4))
    else if "&#34;" <= s then Some(('"', 5))
    else None
  }

  /** The text up to the next markup, and its length. */
  function ReadText(s: string): (r: (string, nat))
    ensures r.1 <= |s|
  {
    match DecodeChar(s)
    case None => ("", 0)
    case Some(d) =>
      var rest := ReadText(s[d.1..]);
      ([d.0] + rest.0, d.1 + rest.1)
  }

  function Before(tokens: seq<Token>, rest: Option<seq<Token>>): Option<seq<Token>> {
    match rest
    case None => None
    case Some(more) => Some(tokens + more)
  }

  predicate Begins(s: string, tag: string) {
    tag != "" && tag <= s
  }

  /** Reads HTML from a point that is in bold or not; None if it is not well-formed. */
  function Read(t: Tags, s: string, bold: bool): Option<seq<Token>>
    decreases |s|
  {
    if s == "" then if bold then None else Some([])
    else if Begins(s, t.open) then if bold then None else Read(t, s[|t.open|..], true)
    else if Begins(s, t.close) then if bold then Read(t, s[|t.close|..], false) else None
    else if Begins(s, t.anchor) then if bold then None else ReadAnchor(t, s[|t.anchor|..])
    else
      match DecodeChar(s)
      case None => None
      case Some(d) => Before([Char(d.0, bold)], Read(t, s[d.1..], bold))
  }

  /** Reads on behind the beginning of an anchor. */
  function ReadAnchor(t: Tags, s: string): Option<seq<Token>>
    decreases |s|
  {
    var href := ReadText(s);
    var u := s[href.1..];
    if !Begins(u, t.style) then None
    else
      var caption := ReadText(u[|t.style|..]);
      var v := u[|t.style|..][caption.1..];
      if !Begins(v, t.end) then None
      else Before([Anchor(href.0, caption.0)], Read(t, v[|t.end|..], false))
  }

  // ---------------------------------------------------------------- characters

  lemma DecodeEscaped(c: char, rest: string, s: string)
    requires s == EscapeChar(c) + rest
    ensures DecodeChar(s) == Some((c, |EscapeChar(c)|))
    ensures s[0] == EscapeChar(c)[0] != '<'
  {
    var e := EscapeChar(c);
    assert e <= s;
    if |e| > 1 {
      assert s[1] == e[1] && s[2] == e[2] && s[3] == e[3];
    }
  }

  /** Nothing, or markup. */
  ghost predicate EndsText(s: string) {
    s == "" || s[0] in {'<', '"'}
  }

  /** What is written for a character is read as that character. */
  ghost predicate Decodes(code: char -> string, c: char) {
    forall rest: string ::
      DecodeChar(code(c) + rest) == Some((c, |code(c)|)) && code(c) + rest != "" && (code(c) + rest)[0] != '<'
  }

  lemma EscapeDecodes(c: char)
    ensures Decodes(EscapeChar, c)
  {
    forall rest: string
      ensures DecodeChar(EscapeChar(c) + rest) == Some((c, |EscapeChar(c)|)) && EscapeChar(c) + rest != "" && (EscapeChar(c) + rest)[0] != '<'
    {
      DecodeEscaped(c, rest, EscapeChar(c) + rest);
    }
  }

  lemma ReadTextStep(code: char -> string, c: char, rest: string, s: string)
    requires Decodes(code, c) && s == code(c) + rest
    ensures ReadText(s) == ([c] + ReadText(rest).0, |code(c)| + ReadText(rest).1)
  {
    assert s[|code(c)|..] == rest;
  }

  lemma ReadTextEnds(rest: string)
    requires EndsText(rest)
    ensures ReadText(rest) == ("", 0)
  {
  }

  lemma ReplacedMore(code: char -> string, text: string, rest: string, s: string)
    requires text != "" && s == Replaced(code, text) + rest
    ensures s == code(text[0]) + (Replaced(code, text[1..]) + rest)
    ensures |Replaced(code, text)| == |code(text[0])| + |Replaced(code, text[1..])|
  {
    Associates(code(text[0]), Replaced(code, text[1..]), rest);
  }

  lemma Associates(a: string, b: string, c: string)
    ensures a + b + c == a + (b + c)
  {
  }

  lemma {:induction false} ReadReplaced(code: char -> string, text: string, rest: string, s: string, r: (string, nat))
    requires EndsText(rest) && s == Replaced(code, text) + rest && r == ReadText(s) && forall c :: Decodes(code, c)
    ensures r == (text, |Replaced(code, text)|)
  {
    if text == "" {
      assert s == rest;
      ReadTextEnds(rest);
    } else {
      var more := Replaced(code, text[1..]) + rest;
      ReplacedMore(code, text, rest, s);
      ReadReplaced(code, text[1..], rest, more, ReadText(more));
      ReadTextStep(code, text[0], more, s);
      assert text == [text[0]] + text[1..];
    }
  }

  lemma ReadTextOf(text: string, rest: string, s: string)
    requires EndsText(rest) && s == Escape(text) + rest
    ensures ReadText(s) == (text, |Escape(text)|)
  {
    forall c ensures Decodes(EscapeChar, c) {
      EscapeDecodes(c);
    }
    ReadReplaced(EscapeChar, text, rest, s, ReadText(s));
  }

  function Chars(s: string, bold: bool): seq<Token> {
    if s == "" then [] else [Char(s[0], bold)] + Chars(s[1..], bold)
  }

  // ---------------------------------------------------------------- tags

  ghost predicate Apart(a: string, b: string) {
    exists k :: 0 <= k < |a| && k < |b| && a[k] != b[k]
  }

  /** Tags begin like markup and can be told from each other. */
  ghost predicate Proper(t: Tags) {
    && t.open != "" && t.close != "" && t.anchor != "" && t.style != "" && t.end != ""
    && t.open[0] == t.close[0] == t.anchor[0] == t.end[0] == '<' && t.style[0] == '"'
    && Apart(t.open, t.close) && Apart(t.open, t.anchor) && Apart(t.close, t.anchor)
  }

  lemma HtmlIsProper()
    ensures Proper(HTML)
  {
    assert OPEN[0] == CLOSE[0] == ANCHOR[0] == END[0] == '<' && STYLE[0] == '"';
    assert OPEN[1] == 's' && CLOSE[1] == '/' && ANCHOR[1] == 'a';
    DifferAt(OPEN, CLOSE, 1);
    DifferAt(OPEN, ANCHOR, 1);
    DifferAt(CLOSE, ANCHOR, 1);
  }

  lemma DifferAt(a: string, b: string, k: nat)
    requires k < |a| && k < |b| && a[k] != b[k]
    ensures Apart(a, b)
  {
  }

  lemma NotBoth(a: string, b: string, rest: string)
    requires Apart(a, b) || Apart(b, a)
    ensures !(b <= a + rest)
  {
    var k :| 0 <= k < |a| && k < |b| && (a[k] != b[k] || b[k] != a[k]);
    assert (a + rest)[k] == a[k];
  }

  lemma ReadChar(t: Tags, code: char -> string, c: char, rest: string, s: string, bold: bool)
    requires Proper(t) && Decodes(code, c) && s == code(c) + rest
    ensures Read(t, s, bold) == Before([Char(c, bold)], Read(t, rest, bold))
  {
    assert s[|code(c)|..] == rest;
  }

  lemma ReadOpen(t: Tags, rest: string, s: string)
    requires Proper(t) && s == t.open + rest
    ensures Read(t, s, false) == Read(t, rest, true)
  {
    assert s[|t.open|..] == rest;
  }

  lemma ReadClose(t: Tags, rest: string, s: string)
    requires Proper(t) && s == t.close + rest
    ensures Read(t, s, true) == Read(t, rest, false)
  {
    NotBoth(t.close, t.open, rest);
    assert s[|t.close|..] == rest;
  }

  lemma ReadAnchorOf(t: Tags, href: string, caption: string, rest: string, b: string, c: string, d: string)
    requires Proper(t) && b == Escape(href) + (t.style + c) && c == Escape(caption) + d && d == t.end + rest
    ensures ReadAnchor(t, b) == Before([Anchor(href, caption)], Read(t, rest, false))
  {
    ReadTextOf(href, t.style + c, b);
    assert b[|Escape(href)|..] == t.style + c && (t.style + c)[|t.style|..] == c;
    ReadTextOf(caption, d, c);
    assert c[|Escape(caption)|..] == d && d[|t.end|..] == rest;
  }

  lemma AnchorBegins(t: Tags, b: string, s: string)
    requires Proper(t) && s == t.anchor + b
    ensures Read(t, s, false) == ReadAnchor(t, b)
  {
    NotBoth(t.anchor, t.open, b);
    NotBoth(t.anchor, t.close, b);
    assert s[|t.anchor|..] == b;
  }

  lemma ReadLink(t: Tags, href: string, caption: string, rest: string, s: string)
    requires Proper(t) && s == t.anchor + Escape(href) + t.style + Escape(caption) + t.end + rest
    ensures Read(t, s, false) == Before([Anchor(href, caption)], Read(t, rest, false))
  {
    var d := t.end + rest;
    var c := Escape(caption) + d;
    var b := Escape(href) + (t.style + c);
    assert s == t.anchor + b;
    AnchorBegins(t, b, s);
    ReadAnchorOf(t, href, caption, rest, b, c, d);
  }

  lemma BeforeTwice(a: seq<Token>, b: seq<Token>, rest: Option<seq<Token>>)
    ensures Before(a, Before(b, rest)) == Before(a + b, rest)
  {
    if rest.Some? {
      assert a + (b + rest.value) == a + b + rest.value;
    }
  }

  lemma {:induction false} ReadReplacedChars(t: Tags, code: char -> string, text: string, rest: string, s: string, bold: bool)
    requires Proper(t) && s == Replaced(code, text) + rest && forall c :: Decodes(code, c)
    ensures Read(t, s, bold) == Before(Chars(text, bold), Read(t, rest, bold))
  {
    if text == "" {
      assert s == rest;
      var r := Read(t, rest, bold);
      assert r.Some? ==> [] + r.value == r.value;
    } else {
      var more := Replaced(code, text[1..]) + rest;
      assert s == code(text[0]) + more;
      ReadChar(t, code, text[0], more, s, bold);
      ReadReplacedChars(t, code, text[1..], rest, more, bold);
      BeforeTwice([Char(text[0], bold)], Chars(text[1..], bold), Read(t, rest, bold));
    }
  }

  lemma ReadChars(t: Tags, text: string, rest: string, s: string, bold: bool)
    requires Proper(t) && s == Escape(text) + rest
    ensures Read(t, s, bold) == Before(Chars(text, bold), Read(t, rest, bold))
  {
    forall c ensures Decodes(EscapeChar, c) {
      EscapeDecodes(c);
    }
    ReadReplacedChars(t, EscapeChar, text, rest, s, bold);
  }

  // ---------------------------------------------------------------- bold text

  /** Text with `**` turning bold on and off. */
  function Styled(s: string, bold: bool): seq<Token>
    decreases |s|
  {
    var index := Index(s, "**");
    if index < 0 then Chars(s, bold) else Chars(s[..index], bold) + Styled(s[index + 2..], !bold)
  }

  lemma BoldParts(text: string, bold: bool, rest: string, tag: string, more: string)
    ensures Escape(text) + tag + more + rest == Escape(text) + (tag + (more + rest))
  {
  }

  lemma ReadSwitch(t: Tags, bold: bool, rest: string, s: string)
    requires Proper(t) && s == (if bold then t.close else t.open) + rest
    ensures Read(t, s, bold) == Read(t, rest, !bold)
  {
    if bold {
      ReadClose(t, rest, s);
    } else {
      ReadOpen(t, rest, s);
    }
  }

  /** Bold text is read back, and whatever follows it is outside of bold. */
  lemma {:induction false} ReadBold(t: Tags, text: string, bold: bool, rest: string, s: string)
    requires Proper(t) && t.open == OPEN && t.close == CLOSE && s == BoldText(text, bold) + rest
    ensures Read(t, s, bold) == Before(Styled(text, bold), Read(t, rest, false))
    decreases |text|
  {
    var index := Index(text, "**");
    if index < 0 {
      var last := if bold then t.close + rest else rest;
      assert s == Escape(text) + last;
      ReadChars(t, text, last, s, bold);
      if bold {
        ReadSwitch(t, true, rest, last);
      }
    } else {
      var tag, more := if bold then t.close else t.open, BoldText(text[index + 2..], !bold);
      BoldNext(text, bold, index, "");
      BoldParts(text[..index], bold, rest, tag, more);
      assert s == Escape(text[..index]) + (tag + (more + rest));
      ReadChars(t, text[..index], tag + (more + rest), s, bold);
      ReadSwitch(t, bold, more + rest, tag + (more + rest));
      ReadBold(t, text[index + 2..], !bold, rest, more + rest);
      BeforeTwice(Chars(text[..index], bold), Styled(text[index + 2..], !bold), Read(t, rest, false));
    }
  }

  /** The bold tags of rendered text are balanced, and it is read back character by character. */
  lemma InlineTextIsRead(text: string)
    ensures Read(HTML, InlineText(text), false) == Some(Styled(text, false))
  {
    HtmlIsProper();
    assert InlineText(text) + "" == InlineText(text);
    ReadBold(HTML, text, false, "", InlineText(text));
    assert Read(HTML, "", false) == Some([]);
    assert Styled(text, false) + [] == Styled(text, false);
  }

  // ---------------------------------------------------------------- lines

  function Meaning(links: seq<Link>, tail: string): seq<Token> {
    if links == [] then Styled(tail, false)
    else Styled(links[0].text, false) + ([Anchor(links[0].href, links[0].caption)] + Meaning(links[1..], tail))
  }

  lemma ReadHtmlLink(t: Tags, l: Link, rest: string, s: string)
    requires Proper(t) && t == HTML && s == HtmlLink(l) + rest
    ensures Read(t, s, false) == Before(Styled(l.text, false), Before([Anchor(l.href, l.caption)], Read(t, rest, false)))
  {
    var more := AnchorOf(l) + rest;
    assert s == InlineText(l.text) + more;
    ReadBold(t, l.text, false, more, s);
    ReadLink(t, l.href, l.caption, rest, more);
  }

  lemma {:induction false} RenderedIsRead(t: Tags, links: seq<Link>, tail: string)
    requires Proper(t) && t == HTML
    ensures Read(t, Rendered(HtmlLink, InlineText, links, tail), false) == Some(Meaning(links, tail))
  {
    if links == [] {
      InlineTextIsRead(tail);
    } else {
      var rest := Rendered(HtmlLink, InlineText, links[1..], tail);
      RenderedIsRead(t, links[1..], tail);
      ReadHtmlLink(t, links[0], rest, HtmlLink(links[0]) + rest);
    }
  }

  /** Whatever the markdown, the HTML is well-formed, and it shows the scanned text and links and
      nothing else. */
  lemma HtmlIsRead(value: string)
    ensures Read(HTML, Html(Scan(value)), false) == Some(Meaning(Scan(value).links, Scan(value).tail))
  {
    HtmlIsProper();
    RenderedIsRead(HTML, Scan(value).links, Scan(value).tail);
  }
}
