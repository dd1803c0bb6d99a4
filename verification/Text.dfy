/** Strings as the Go standard library sees them: white space, trimming, case
    folding, searching and the lexicographic order. */
module Text {

  /** `unicode.IsSpace`: the characters with the property White_Space. */
  predicate IsSpace(c: char) {
    || '\U{9}' <= c <= '\U{D}'
    || c == ' '
    || c == '\U{85}'
    || c == '\U{A0}'
    || c == '\U{1680}'
    || '\U{2000}' <= c <= '\U{200A}'
    || c == '\U{2028}'
    || c == '\U{2029}'
    || c == '\U{202F}'
    || c == '\U{205F}'
    || c == '\U{3000}'
  }

  function TrimLeft(s: string): string {
    if s != [] && IsSpace(s[0]) then TrimLeft(s[1..]) else s
  }

  function TrimRight(s: string): string {
    if s != [] && IsSpace(s[|s| - 1]) then TrimRight(s[..|s| - 1]) else s
  }

  /** `strings.TrimSpace`. */
  function Trim(s: string): string {
    TrimRight(TrimLeft(s))
  }

  predicate Blank(s: string) {
    Trim(s) == []
  }

  function LowerChar(c: char): char {
    if 'A' <= c <= 'Z' then (c as int + 32) as char else c
  }

  /** `strings.ToLower`, on the letters A to Z. */
  function Lower(s: string): (r: string)
    ensures |r| == |s|
  {
    if s == [] then [] else [LowerChar(s[0])] + Lower(s[1..])
  }

  /** The first position of `pattern` in `s`, as `strings.Index` reports it; -1 when there is none. */
  function Index(s: string, pattern: string): (r: int)
    requires pattern != []
    ensures -1 <= r && (r >= 0 ==> r + |pattern| <= |s|)
  {
    if pattern <= s then 0
    else if s == [] then -1
    else
      var rest := Index(s[1..], pattern);
      if rest == -1 then -1 else rest + 1
  }

  /** `pattern` occurs in `s` at `k`. */
  ghost predicate Occurs(s: string, pattern: string, k: nat) {
    k + |pattern| <= |s| && s[k..k + |pattern|] == pattern
  }

  /** What is reported is the first occurrence, if there is any. */
  lemma {:induction false} IndexExact(s: string, pattern: string)
    requires pattern != []
    ensures Index(s, pattern) >= 0 ==> Occurs(s, pattern, Index(s, pattern))
    ensures forall k: nat :: Occurs(s, pattern, k) ==> 0 <= Index(s, pattern) <= k
  {
    if pattern <= s {
      assert s[0..|pattern|] == pattern;
    } else if s != [] {
      IndexExact(s[1..], pattern);
      var rest := Index(s[1..], pattern);
      if rest >= 0 {
        assert s[1..][rest..rest + |pattern|] == s[rest + 1..rest + 1 + |pattern|];
      }
      forall k: nat | Occurs(s, pattern, k) ensures 0 <= Index(s, pattern) <= k {
        assert k > 0 by {
          assert Occurs(s, pattern, 0) ==> pattern <= s;
        }
        assert s[1..][k - 1..k - 1 + |pattern|] == s[k..k + |pattern|];
        assert Occurs(s[1..], pattern, k - 1);
      }
    }
  }

  /** The order Go's `<=` gives strings. */
  predicate StringLeq(a: string, b: string) {
    if a == [] then true
    else if b == [] then false
    else a[0] < b[0] || (a[0] == b[0] && StringLeq(a[1..], b[1..]))
  }

  lemma StringLeqTotal(a: string, b: string)
    ensures StringLeq(a, b) || StringLeq(b, a)
    ensures StringLeq(a, b) && StringLeq(b, a) ==> a == b
  {
    if a != [] && b != [] {
      StringLeqTotal(a[1..], b[1..]);
      assert a == [a[0]] + a[1..] && b == [b[0]] + b[1..];
    }
  }

  lemma StringLeqTransitive(a: string, b: string, c: string)
    requires StringLeq(a, b) && StringLeq(b, c)
    ensures StringLeq(a, c)
  {
    if a != [] && a[0] == b[0] == c[0] {
      StringLeqTransitive(a[1..], b[1..], c[1..]);
    }
  }

  /** What stands before the first `c`. */
  function UpTo(s: string, c: char): string {
    if s == "" || s[0] == c then "" else [s[0]] + UpTo(s[1..], c)
  }

  lemma {:induction false} UpToOfJoin(a: string, c: char, rest: string)
    requires c !in a
    ensures UpTo(a + [c] + rest, c) == a && (a + [c] + rest)[|a| + 1..] == rest
  {
    if a == "" {
      assert a + [c] + rest == [c] + rest;
    } else {
      assert (a + [c] + rest)[1..] == a[1..] + [c] + rest;
      UpToOfJoin(a[1..], c, rest);
    }
  }

  lemma {:induction false} TrimLeftSuffix(s: string)
    ensures |TrimLeft(s)| <= |s| && s[|s| - |TrimLeft(s)|..] == TrimLeft(s)
    ensures forall k :: 0 <= k < |s| - |TrimLeft(s)| ==> IsSpace(s[k])
    ensures TrimLeft(s) != "" ==> !IsSpace(TrimLeft(s)[0])
  {
    if s != "" && IsSpace(s[0]) {
      var rest := s[1..];
      TrimLeftSuffix(rest);
      assert s[|s| - |TrimLeft(rest)|..] == rest[|rest| - |TrimLeft(rest)|..];
      assert forall k :: 1 <= k < |s| ==> s[k] == rest[k - 1];
    }
  }

  lemma {:induction false} TrimRightBegins(s: string)
    ensures |TrimRight(s)| <= |s| && s[..|TrimRight(s)|] == TrimRight(s)
    ensures forall k :: |TrimRight(s)| <= k < |s| ==> IsSpace(s[k])
    ensures TrimRight(s) != "" ==> !IsSpace(TrimRight(s)[|TrimRight(s)| - 1])
  {
    if s != "" && IsSpace(s[|s| - 1]) {
      var rest := s[..|s| - 1];
      TrimRightBegins(rest);
      assert s[..|TrimRight(rest)|] == rest[..|TrimRight(rest)|];
    }
  }

  /** Trimming takes away white space at both ends, all of it and nothing else. */
  lemma TrimExact(s: string) returns (from: nat)
    ensures from + |Trim(s)| <= |s| && s[from..from + |Trim(s)|] == Trim(s)
    ensures forall k :: 0 <= k < from || from + |Trim(s)| <= k < |s| ==> IsSpace(s[k])
    ensures Trim(s) != "" ==> !IsSpace(Trim(s)[0]) && !IsSpace(Trim(s)[|Trim(s)| - 1])
  {
    var t := TrimLeft(s);
    TrimLeftSuffix(s);
    TrimRightBegins(t);
    from := |s| - |t|;
    assert s[from..][..|Trim(s)|] == s[from..from + |Trim(s)|];
    assert forall k :: from <= k < |s| ==> s[k] == t[k - from];
  }
}
