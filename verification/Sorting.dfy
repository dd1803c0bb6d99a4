/** `sort.SliceStable`. A stable sort is a library call in the program, so it is given
    here as a function; `StableSortUnique` shows that its three promises (ordered, the
    same elements, ties in input order) leave room for no other result. */
module Sorting {

  ghost predicate TotalPreorder<T(!new)>(leq: (T, T) -> bool) {
    && (forall x, y :: leq(x, y) || leq(y, x))
    && (forall x, y, z :: leq(x, y) && leq(y, z) ==> leq(x, z))
  }

  ghost predicate Ordered<T>(leq: (T, T) -> bool, s: seq<T>) {
    forall i, j :: 0 <= i < j < |s| ==> leq(s[i], s[j])
  }

  /** The elements of `s` that rank equal to `x`, in their order. */
  function Ties<T>(leq: (T, T) -> bool, s: seq<T>, x: T): seq<T> {
    if s == [] then []
    else if leq(s[0], x) && leq(x, s[0]) then [s[0]] + Ties(leq, s[1..], x)
    else Ties(leq, s[1..], x)
  }

  function Insert<T>(leq: (T, T) -> bool, x: T, s: seq<T>): (r: seq<T>)
    ensures multiset(r) == multiset{x} + multiset(s)
  {
    if s == [] || leq(x, s[0]) then [x] + s
    else
      assert s == [s[0]] + s[1..];
      [s[0]] + Insert(leq, x, s[1..])
  }

  function StableSort<T>(leq: (T, T) -> bool, s: seq<T>): (r: seq<T>)
    ensures multiset(r) == multiset(s)
    ensures |r| == |s|
  {
    if s == [] then []
    else
      assert s == [s[0]] + s[1..];
      var r := Insert(leq, s[0], StableSort(leq, s[1..]));
      assert |multiset(r)| == |r| && |multiset(s)| == |s|;
      r
  }

  lemma SameElements<T>(s: seq<T>, t: seq<T>)
    requires multiset(s) == multiset(t)
    ensures forall x :: x in s <==> x in t
    ensures |s| == |t|
  {
    assert forall x :: x in s <==> x in multiset(s);
    assert forall x :: x in t <==> x in multiset(t);
    assert |s| == |multiset(s)| && |t| == |multiset(t)|;
  }

  lemma {:induction false} InsertOrdered<T(!new)>(leq: (T, T) -> bool, x: T, s: seq<T>)
    requires TotalPreorder(leq) && Ordered(leq, s)
    ensures Ordered(leq, Insert(leq, x, s))
  {
    if s == [] || leq(x, s[0]) {
    } else {
      var rest := Insert(leq, x, s[1..]);
      InsertOrdered(leq, x, s[1..]);
      assert multiset(rest) == multiset([x] + s[1..]);
      SameElements(rest, [x] + s[1..]);
      forall y | y in rest ensures leq(s[0], y) {
        assert y in [x] + s[1..];
      }
    }
  }

  lemma {:induction false} StableSortOrdered<T(!new)>(leq: (T, T) -> bool, s: seq<T>)
    requires TotalPreorder(leq)
    ensures Ordered(leq, StableSort(leq, s))
  {
    if s != [] {
      StableSortOrdered(leq, s[1..]);
      InsertOrdered(leq, s[0], StableSort(leq, s[1..]));
    }
  }

  lemma {:induction false} InsertTies<T(!new)>(leq: (T, T) -> bool, x: T, s: seq<T>, y: T)
    requires TotalPreorder(leq)
    ensures Ties(leq, Insert(leq, x, s), y) == Ties(leq, [x] + s, y)
  {
    assert ([x] + s)[1..] == s;
    if s == [] || leq(x, s[0]) {
    } else {
      InsertTies(leq, x, s[1..], y);
      assert ([x] + s[1..])[1..] == s[1..];
      assert ([s[0]] + Insert(leq, x, s[1..]))[1..] == Insert(leq, x, s[1..]);
    }
  }

  lemma {:induction false} StableSortTies<T(!new)>(leq: (T, T) -> bool, s: seq<T>, y: T)
    requires TotalPreorder(leq)
    ensures Ties(leq, StableSort(leq, s), y) == Ties(leq, s, y)
  {
    if s != [] {
      var rest := StableSort(leq, s[1..]);
      StableSortTies(leq, s[1..], y);
      InsertTies(leq, s[0], rest, y);
      assert ([s[0]] + rest)[1..] == rest;
    }
  }

  lemma {:induction false} TiesMember<T(!new)>(leq: (T, T) -> bool, s: seq<T>, y: T)
    ensures forall x :: x in Ties(leq, s, y) <==> x in s && leq(x, y) && leq(y, x)
  {
    if s != [] {
      TiesMember(leq, s[1..], y);
      assert s == [s[0]] + s[1..];
    }
  }

  /** Ordered lists that agree on every group of ties have the same head. */
  lemma SameHead<T(!new)>(leq: (T, T) -> bool, s: seq<T>, t: seq<T>)
    requires TotalPreorder(leq) && Ordered(leq, s) && Ordered(leq, t) && s != []
    requires forall y :: Ties(leq, s, y) == Ties(leq, t, y)
    ensures t != [] && t[0] == s[0]
  {
    var x := s[0];
    TiesMember(leq, s, x);
    TiesMember(leq, t, x);
    assert leq(x, x) && x in Ties(leq, t, x);
    var y := t[0];
    TiesMember(leq, s, y);
    TiesMember(leq, t, y);
    assert leq(y, y) && y in Ties(leq, s, y);
    assert leq(y, x) && leq(x, y);
    assert Ties(leq, s, x)[0] == x;
    assert Ties(leq, t, x)[0] == y;
  }

  /** Ordered lists that agree on every group of ties are the same list. */
  lemma {:induction false} StableSortUnique<T(!new)>(leq: (T, T) -> bool, s: seq<T>, t: seq<T>)
    requires TotalPreorder(leq) && Ordered(leq, s) && Ordered(leq, t)
    requires forall y :: Ties(leq, s, y) == Ties(leq, t, y)
    ensures s == t
  {
    if s == [] {
      if t != [] {
        SameHead(leq, t, s);
      }
    } else {
      SameHead(leq, s, t);
      forall y ensures Ties(leq, s[1..], y) == Ties(leq, t[1..], y) {
        var left, right := Ties(leq, s, y), Ties(leq, t, y);
        if leq(s[0], y) && leq(y, s[0]) {
          assert left[1..] == Ties(leq, s[1..], y) && right[1..] == Ties(leq, t[1..], y);
        } else {
          assert left == Ties(leq, s[1..], y) && right == Ties(leq, t[1..], y);
        }
      }
      StableSortUnique(leq, s[1..], t[1..]);
      assert s == [s[0]] + s[1..] && t == [t[0]] + t[1..];
    }
  }

  /** When no two elements tie, the result does not depend on the input order. */
  lemma {:induction false} OrderIndependent<T(!new)>(leq: (T, T) -> bool, s: seq<T>, t: seq<T>)
    requires TotalPreorder(leq) && multiset(s) == multiset(t)
    requires forall i, j :: 0 <= i < j < |s| ==> !(leq(s[i], s[j]) && leq(s[j], s[i]))
    ensures StableSort(leq, s) == StableSort(leq, t)
  {
    StableSortOrdered(leq, s);
    StableSortOrdered(leq, t);
    forall y ensures Ties(leq, StableSort(leq, s), y) == Ties(leq, StableSort(leq, t), y) {
      StableSortTies(leq, s, y);
      StableSortTies(leq, t, y);
      TiesOfDistinct(leq, s, t, y);
    }
    StableSortUnique(leq, StableSort(leq, s), StableSort(leq, t));
  }

  lemma {:induction false} TiesMultiset<T(!new)>(leq: (T, T) -> bool, s: seq<T>, y: T)
    ensures forall x :: multiset(Ties(leq, s, y))[x] == if leq(x, y) && leq(y, x) then multiset(s)[x] else 0
  {
    if s != [] {
      TiesMultiset(leq, s[1..], y);
      assert s == [s[0]] + s[1..];
    }
  }

  lemma {:induction false} TiesAtMostOne<T(!new)>(leq: (T, T) -> bool, s: seq<T>, y: T)
    requires TotalPreorder(leq)
    requires forall i, j :: 0 <= i < j < |s| ==> !(leq(s[i], s[j]) && leq(s[j], s[i]))
    ensures |Ties(leq, s, y)| <= 1
  {
    if s != [] {
      TiesAtMostOne(leq, s[1..], y);
      TiesMember(leq, s[1..], y);
      if Ties(leq, s[1..], y) != [] {
        var x := Ties(leq, s[1..], y)[0];
        assert x in Ties(leq, s[1..], y);
        var k :| 0 <= k < |s| - 1 && s[1..][k] == x;
        assert s[k + 1] == x;
        assert !(leq(s[0], x) && leq(x, s[0]));
      }
    }
  }

  lemma {:induction false} TiesOfDistinct<T(!new)>(leq: (T, T) -> bool, s: seq<T>, t: seq<T>, y: T)
    requires TotalPreorder(leq) && multiset(s) == multiset(t)
    requires forall i, j :: 0 <= i < j < |s| ==> !(leq(s[i], s[j]) && leq(s[j], s[i]))
    ensures Ties(leq, s, y) == Ties(leq, t, y)
  {
    TiesMultiset(leq, s, y);
    TiesMultiset(leq, t, y);
    TiesAtMostOne(leq, s, y);
    var a, b := Ties(leq, s, y), Ties(leq, t, y);
    assert multiset(a) == multiset(b);
    assert |a| == |multiset(a)| == |multiset(b)| == |b|;
    if |a| == 1 {
      assert a == [a[0]] && b == [b[0]];
      assert a[0] in multiset(b);
    }
  }
}
