/** Writing a number of seconds as a timestamp, and reading a timestamp. */
module Timestamps {
  import opened Basics
  import opened Text

  const MAX_INT: int := 0x7FFF_FFFF_FFFF_FFFF

  /** Machine integers wrap around. */
  function Int64(x: int): int {
    (x + MAX_INT + 1) % (2 * (MAX_INT + 1)) - MAX_INT - 1
  }

  predicate IsDigit(c: char) {
    '0' <= c <= '9'
  }

  function DigitChar(n: nat): (c: char)
    requires n < 10
    ensures IsDigit(c) && DigitValue(c) == n
  {
    (n + '0' as int) as char
  }

  function DigitValue(c: char): (n: nat)
    requires IsDigit(c)
    ensures n < 10
  {
    c as int - '0' as int
  }

  predicate AllDigits(s: string) {
    forall k :: 0 <= k < |s| ==> IsDigit(s[k])
  }

  /** The format "%d". */
  function Decimal(n: nat): (s: string)
    ensures s != [] && AllDigits(s)
  {
    if n < 10 then [DigitChar(n)] else Decimal(n / 10) + [DigitChar(n % 10)]
  }

  /** The format "%02d". */
  function TwoDigits(n: nat): (s: string)
    ensures |s| >= 2 && AllDigits(s)
  {
    if n < 10 then "0" + Decimal(n)
    else
      assert Decimal(n / 10) != [];
      Decimal(n)
  }

  function FormatTimeMarkerTimestamp(seconds: int): string {
    var clipped := if seconds < 0 then 0 else seconds;
    var hours, minutes, rest := clipped / 3600, clipped % 3600 / 60, clipped % 60;
    if hours > 0 then Decimal(hours) + ":" + TwoDigits(minutes) + ":" + TwoDigits(rest)
    else Decimal(minutes) + ":" + TwoDigits(rest)
  }

  function Number(digits: string): nat
    requires AllDigits(digits)
  {
    if digits == [] then 0
    else Number(digits[..|digits| - 1]) * 10 + DigitValue(digits[|digits| - 1])
  }

  /** `strconv.Atoi`: an optional sign and digits, within the range of an int. */
  function Atoi(s: string): Option<int> {
    var digits := if s != [] && s[0] in {'+', '-'} then s[1..] else s;
    if digits == [] || !AllDigits(digits) then None
    else
      var size: int := Number(digits);
      var value := if s[0] == '-' then -size else size;
      if -MAX_INT - 1 <= value <= MAX_INT then Some(value) else None
  }

  /** `strings.Split` at colons. */
  function SplitColon(s: string): (parts: seq<string>)
    ensures |parts| >= 1
  {
    if s == [] then [""]
    else
      var rest := SplitColon(s[1..]);
      if s[0] == ':' then [""] + rest else [[s[0]] + rest[0]] + rest[1..]
  }

  /** A total with one more part, which is worth a sixtieth of the part before it. */
  function WithPart(total: Option<int>, part: string): Option<int> {
    if total.None? || Atoi(part).None? || Atoi(part).value < 0 then None
    else Some(Int64(Int64(total.value * 60) + Atoi(part).value))
  }

  function TotalOf(parts: seq<string>): Option<int> {
    if parts == [] then Some(0) else WithPart(TotalOf(parts[..|parts| - 1]), parts[|parts| - 1])
  }

  function Parsed(value: string): Option<int> {
    var parts := SplitColon(Trim(value));
    if |parts| < 2 || |parts| > 3 then None else TotalOf(parts)
  }

  method ParseTimestampSeconds(value: string) returns (seconds: Option<int>)
    ensures seconds == Parsed(value)
  {
    var parts := SplitColon(Trim(value));
    if |parts| < 2 || |parts| > 3 {
      return None;
    }
    var total := 0;
    for i := 0 to |parts|
      invariant TotalOf(parts[..i]) == Some(total)
    {
      assert parts[..i + 1][..i] == parts[..i];
      var next := WithPart(Some(total), parts[i]);
      if next.None? {
        TotalOfNone(parts, i + 1);
        return None;
      }
      total := next.value;
    }
    assert parts[..|parts|] == parts;
    return Some(total);
  }

  lemma {:induction false} TotalOfNone(parts: seq<string>, k: nat)
    requires k <= |parts| && TotalOf(parts[..k]) == None
    ensures TotalOf(parts) == None
  {
    if k < |parts| {
      assert parts[..|parts| - 1][..k] == parts[..k];
      TotalOfNone(parts[..|parts| - 1], k);
    } else {
      assert parts[..k] == parts;
    }
  }

  // ---------------------------------------------------------------- reading what was written

  lemma {:induction false} NumberOfDecimal(n: nat)
    ensures Number(Decimal(n)) == n
  {
    if n >= 10 {
      NumberOfDecimal(n / 10);
      assert Decimal(n)[..|Decimal(n)| - 1] == Decimal(n / 10);
    } else {
      assert Decimal(n)[..0] == [];
    }
  }

  lemma AtoiOfDecimal(n: nat)
    requires n <= MAX_INT
    ensures Atoi(Decimal(n)) == Some(n)
    ensures Atoi(TwoDigits(n)) == Some(n)
  {
    NumberOfDecimal(n);
    if n < 10 {
      assert TwoDigits(n)[..1] == "0" && TwoDigits(n)[1] == DigitChar(n);
      assert Number("0") == 0;
    }
  }

  lemma {:induction false} SplitOne(a: string)
    requires AllDigits(a)
    ensures SplitColon(a) == [a]
  {
    if a != [] {
      SplitOne(a[1..]);
      assert a == [a[0]] + a[1..];
    }
  }

  lemma {:induction false} SplitFirst(a: string, b: string)
    requires AllDigits(a)
    ensures SplitColon(a + ":" + b) == [a] + SplitColon(b)
  {
    if a == [] {
      assert (a + ":" + b)[1..] == b;
    } else {
      SplitFirst(a[1..], b);
      assert (a + ":" + b)[1..] == a[1..] + ":" + b;
      assert a == [a[0]] + a[1..];
    }
  }

  lemma NoTrim(s: string)
    requires s != [] && !IsSpace(s[0]) && !IsSpace(s[|s| - 1])
    ensures Trim(s) == s
  {
  }

  lemma SplitTwo(a: string, b: string)
    requires AllDigits(a) && AllDigits(b) && a != [] && b != []
    ensures SplitColon(Trim(a + ":" + b)) == [a, b]
  {
    var text := a + ":" + b;
    assert text[0] == a[0] && text[|text| - 1] == b[|b| - 1];
    NoTrim(text);
    SplitFirst(a, b);
    SplitOne(b);
  }

  lemma SplitThree(a: string, b: string, c: string)
    requires AllDigits(a) && AllDigits(b) && AllDigits(c) && a != [] && b != [] && c != []
    ensures SplitColon(Trim(a + ":" + b + ":" + c)) == [a, b, c]
  {
    var text := a + ":" + b + ":" + c;
    assert text[0] == a[0] && text[|text| - 1] == c[|c| - 1];
    NoTrim(text);
    assert text == a + ":" + (b + ":" + c);
    SplitFirst(a, b + ":" + c);
    SplitFirst(b, c);
    SplitOne(c);
  }

  lemma ClockParts(seconds: int)
    requires seconds >= 0
    ensures (seconds / 3600 * 60 + seconds % 3600 / 60) * 60 + seconds % 60 == seconds
    ensures seconds / 3600 == 0 ==> seconds % 3600 / 60 * 60 + seconds % 60 == seconds
  {
    var hours, left := seconds / 3600, seconds % 3600;
    assert seconds == 60 * (60 * hours + left / 60) + left % 60;
    Remainder(60 * hours + left / 60, left % 60);
  }

  lemma Remainder(q: int, r: nat)
    requires r < 60
    ensures (60 * q + r) % 60 == r
  {
  }

  /** A timestamp that was written is read as the same number of seconds. */
  lemma ParseFormat(seconds: int)
    requires 0 <= seconds <= MAX_INT
    ensures Parsed(FormatTimeMarkerTimestamp(seconds)) == Some(seconds)
  {
    var hours, minutes, rest := seconds / 3600, seconds % 3600 / 60, seconds % 60;
    ClockParts(seconds);
    if hours > 0 {
      ParseLong(hours, minutes, rest);
    } else {
      ParseShort(minutes, rest);
    }
  }

  lemma ParseLong(hours: nat, minutes: nat, rest: nat)
    requires (hours * 60 + minutes) * 60 + rest <= MAX_INT
    ensures Parsed(Decimal(hours) + ":" + TwoDigits(minutes) + ":" + TwoDigits(rest)) == Some((hours * 60 + minutes) * 60 + rest)
  {
    AtoiOfDecimal(hours);
    AtoiOfDecimal(minutes);
    AtoiOfDecimal(rest);
    LongParsed(Decimal(hours), TwoDigits(minutes), TwoDigits(rest), hours, minutes, rest);
  }

  lemma ParseShort(minutes: nat, rest: nat)
    requires minutes * 60 + rest <= MAX_INT
    ensures Parsed(Decimal(minutes) + ":" + TwoDigits(rest)) == Some(minutes * 60 + rest)
  {
    AtoiOfDecimal(minutes);
    AtoiOfDecimal(rest);
    ShortParsed(Decimal(minutes), TwoDigits(rest), minutes, rest);
  }

  lemma LongParsed(a: string, b: string, c: string, x: nat, y: nat, z: nat)
    requires AllDigits(a) && AllDigits(b) && AllDigits(c) && a != [] && b != [] && c != []
    requires Atoi(a) == Some(x) && Atoi(b) == Some(y) && Atoi(c) == Some(z) && (x * 60 + y) * 60 + z <= MAX_INT
    ensures Parsed(a + ":" + b + ":" + c) == Some((x * 60 + y) * 60 + z)
  {
    SplitThree(a, b, c);
    ThreeParts(a, b, c, x, y, z);
  }

  lemma ShortParsed(a: string, b: string, x: nat, y: nat)
    requires AllDigits(a) && AllDigits(b) && a != [] && b != []
    requires Atoi(a) == Some(x) && Atoi(b) == Some(y) && x * 60 + y <= MAX_INT
    ensures Parsed(a + ":" + b) == Some(x * 60 + y)
  {
    SplitTwo(a, b);
    TwoParts(a, b, x, y);
  }

  lemma InRange(x: int)
    requires 0 <= x <= MAX_INT
    ensures Int64(x) == x
  {
  }

  lemma OnePart(total: int, part: string, x: int)
    requires Atoi(part) == Some(x) && total >= 0 && x >= 0 && total * 60 + x <= MAX_INT
    ensures WithPart(Some(total), part) == Some(total * 60 + x)
  {
    InRange(total * 60);
    InRange(total * 60 + x);
  }

  lemma TwoParts(a: string, b: string, x: int, y: int)
    requires Atoi(a) == Some(x) && Atoi(b) == Some(y) && x >= 0 && y >= 0 && x * 60 + y <= MAX_INT
    ensures TotalOf([a, b]) == Some(x * 60 + y)
  {
    assert [a][..0] == [] && [a, b][..1] == [a];
    OnePart(0, a, x);
    assert TotalOf([a]) == Some(x);
    OnePart(x, b, y);
  }

  lemma ThreeParts(a: string, b: string, c: string, x: int, y: int, z: int)
    requires Atoi(a) == Some(x) && Atoi(b) == Some(y) && Atoi(c) == Some(z)
    requires x >= 0 && y >= 0 && z >= 0 && (x * 60 + y) * 60 + z <= MAX_INT
    ensures TotalOf([a, b, c]) == Some((x * 60 + y) * 60 + z)
  {
    TwoParts(a, b, x, y);
    assert [a, b, c][..2] == [a, b];
    OnePart(x * 60 + y, c, z);
  }
}
