/** Words: splitting a text at white space and joining it again with single spaces. */
module Words {
  import opened Text

  /** `strings.Fields`. */
  function Fields(s: string): (words: seq<string>)
    ensures s != [] && !IsSpace(s[0]) ==> words != [] && words[0] != [] && words[0][0] == s[0]
  {
    if s == [] then []
    else if IsSpace(s[0]) then Fields(s[1..])
    else if |s| == 1 || IsSpace(s[1]) then [[s[0]]] + Fields(s[1..])
    else
      var rest := Fields(s[1..]);
      [[s[0]] + rest[0]] + rest[1..]
  }

  /** `strings.Join` with a space. */
  function JoinWords(words: seq<string>): string {
    if words == [] then ""
    else if |words| == 1 then words[0]
    else words[0] + (" " + JoinWords(words[1..]))
  }

  function Collapse(s: string): string {
    JoinWords(Fields(s))
  }

  ghost predicate IsWord(w: string) {
    w != [] && forall k :: 0 <= k < |w| ==> !IsSpace(w[k])
  }

  ghost predicate AreWords(words: seq<string>) {
    forall k :: 0 <= k < |words| ==> IsWord(words[k])
  }

  lemma {:induction false} FieldsAreWords(s: string)
    ensures AreWords(Fields(s))
  {
    if s != [] {
      FieldsAreWords(s[1..]);
      if !IsSpace(s[0]) && |s| > 1 && !IsSpace(s[1]) {
        var rest := Fields(s[1..]);
        assert IsWord(rest[0]);
        assert IsWord([s[0]] + rest[0]);
      }
    }
  }

  lemma {:induction false} FieldsOfWord(w: string, rest: string)
    requires IsWord(w) && (rest == [] || IsSpace(rest[0]))
    ensures Fields(w + rest) == [w] + Fields(rest)
  {
    assert (w + rest)[1..] == w[1..] + rest;
    if |w| == 1 {
      assert w[1..] + rest == rest && w == [w[0]];
    } else {
      FieldsOfWord(w[1..], rest);
      assert !IsSpace((w + rest)[1]) by {
        assert (w + rest)[1] == w[1];
      }
      assert w == [w[0]] + w[1..];
    }
  }

  lemma {:induction false} FieldsOfJoin(words: seq<string>)
    requires AreWords(words)
    ensures Fields(JoinWords(words)) == words
  {
    if words != [] {
      var w := words[0];
      if |words| == 1 {
        FieldsOfWord(w, "");
        assert w + "" == w;
      } else {
        var rest := JoinWords(words[1..]);
        FieldsOfWord(w, " " + rest);
        FieldsOfJoin(words[1..]);
        assert (" " + rest)[1..] == rest;
      }
    }
  }

  /** A text on one line that begins and ends with a visible character. */
  ghost predicate Tidy(s: string) {
    && s != [] && !IsSpace(s[0]) && !IsSpace(s[|s| - 1])
    && forall k :: 0 <= k < |s| ==> s[k] != '\n'
  }

  lemma {:induction false} JoinIsTidy(words: seq<string>)
    requires words != [] && AreWords(words)
    ensures Tidy(JoinWords(words))
  {
    assert IsWord(words[0]);
    if |words| > 1 {
      JoinIsTidy(words[1..]);
    }
  }

  /** Collapsing leaves nothing, or one line without spaces around it, and is done once. */
  lemma CollapseIsTidy(s: string)
    ensures Collapse(s) == "" || Tidy(Collapse(s))
    ensures Collapse(Collapse(s)) == Collapse(s)
  {
    FieldsAreWords(s);
    FieldsOfJoin(Fields(s));
    if Fields(s) != [] {
      JoinIsTidy(Fields(s));
    }
  }

  lemma CollapseKeepsFirst(s: string)
    requires s != [] && !IsSpace(s[0])
    ensures Collapse(s) != "" && Collapse(s)[0] == s[0]
  {
  }

  /** White space parts words, however much of it there is: with the words of a text without white space
      this says what the words of every text are. */
  lemma {:induction false} FieldsExact(a: string, space: char, b: string)
    requires IsSpace(space)
    ensures Fields(a + [space] + b) == Fields(a) + Fields(b)
    ensures Fields("") == [] && (IsWord(a) ==> Fields(a) == [a])
  {
    var s := a + [space] + b;
    if a == "" {
      assert s[1..] == b;
    } else {
      FieldsExact(a[1..], space, b);
      assert s[0] == a[0] && s[1..] == a[1..] + [space] + b;
      assert s[1] == if |a| == 1 then space else a[1];
      FieldsStep(a, space, b, s);
    }
    if IsWord(a) {
      FieldsOfWord(a, "");
      assert a + "" == a;
    }
  }

  lemma FieldsStep(a: string, space: char, b: string, s: string)
    requires a != "" && IsSpace(space) && s == a + [space] + b && |s| > 1
    requires Fields(s[1..]) == Fields(a[1..]) + Fields(b)
    requires s[0] == a[0] && s[1] == if |a| == 1 then space else a[1]
    ensures Fields(s) == Fields(a) + Fields(b)
  {
  }
}
