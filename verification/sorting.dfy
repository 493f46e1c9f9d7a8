/** Sorting a list by an integer key (Kotlin's `sortedBy`), and the maximum of a list. */
module Sorting {

  /** `s` is ascending by `key`. */
  ghost predicate SortedBy<T>(s: seq<T>, key: T -> int)
  {
    forall i, j :: 0 <= i < j < |s| ==> key(s[i]) <= key(s[j])
  }

  /** `f` applied to every element of `s`, in order. */
  function MapSeq<T, U>(s: seq<T>, f: T -> U): (r: seq<U>)
    ensures |r| == |s|
    ensures forall i :: 0 <= i < |s| ==> r[i] == f(s[i])
  {
    seq(|s|, i requires 0 <= i < |s| => f(s[i]))
  }

  lemma MapSeqCons<T, U>(x: T, s: seq<T>, f: T -> U)
    ensures MapSeq([x] + s, f) == [f(x)] + MapSeq(s, f)
  {
    assert MapSeq([x] + s, f)[1..] == MapSeq(s, f);
  }

  /** A head no larger than any element of an ascending tail keeps the list ascending. */
  lemma SortedCons<T>(h: T, t: seq<T>, key: T -> int)
    requires SortedBy(t, key)
    requires forall y :: y in t ==> key(h) <= key(y)
    ensures SortedBy([h] + t, key)
  {
    var r := [h] + t;
    forall i, j | 0 <= i < j < |r| ensures key(r[i]) <= key(r[j]) {
      assert r[j] == t[j - 1];
      if i > 0 {
        assert r[i] == t[i - 1];
      }
    }
  }

  /** Puts `x` into the ascending list `s`, before the first element with a larger key. */
  function InsertBy<T>(x: T, s: seq<T>, key: T -> int): (r: seq<T>)
    requires SortedBy(s, key)
    ensures SortedBy(r, key)
    ensures multiset(r) == multiset{x} + multiset(s)
  {
    if s == [] || key(x) <= key(s[0]) then
      SortedCons(x, s, key);
      [x] + s
    else
      assert s == [s[0]] + s[1..];
      assert SortedBy(s[1..], key);
      var rest := InsertBy(x, s[1..], key);
      HeadBelowRest(x, s, rest, key);
      SortedCons(s[0], rest, key);
      assert multiset([s[0]] + rest) == multiset{s[0]} + multiset(rest);
      [s[0]] + rest
  }

  /** The head of an ascending list, when it is below `x`, is below every element of `x`
      inserted into the tail. */
  lemma HeadBelowRest<T>(x: T, s: seq<T>, rest: seq<T>, key: T -> int)
    requires SortedBy(s, key) && s != [] && key(s[0]) < key(x)
    requires multiset(rest) == multiset{x} + multiset(s[1..])
    ensures forall y :: y in rest ==> key(s[0]) <= key(y)
  {
    forall y | y in rest ensures key(s[0]) <= key(y) {
      assert y in multiset(rest);
      if y != x {
        assert y in multiset(s[1..]);
        var j :| 0 <= j < |s[1..]| && s[1..][j] == y;
        assert s[j + 1] == y;
      }
    }
  }

  /** An ascending permutation of `s` (insertion sort; ties in no particular order). */
  function SortBy<T>(s: seq<T>, key: T -> int): (r: seq<T>)
    ensures SortedBy(r, key)
    ensures multiset(r) == multiset(s)
  {
    if s == [] then []
    else
      assert s == [s[0]] + s[1..];
      InsertBy(s[0], SortBy(s[1..], key), key)
  }

  /** Inserting `x` adds `f(x)` to the multiset of images. */
  lemma {:induction false} InsertByImage<T, U>(x: T, s: seq<T>, key: T -> int, f: T -> U)
    requires SortedBy(s, key)
    ensures multiset(MapSeq(InsertBy(x, s, key), f)) == multiset{f(x)} + multiset(MapSeq(s, f))
  {
    if s == [] || key(x) <= key(s[0]) {
      MapSeqCons(x, s, f);
    } else {
      InsertByImage(x, s[1..], key, f);
      MapSeqCons(s[0], InsertBy(x, s[1..], key), f);
      MapSeqCons(s[0], s[1..], f);
      assert s == [s[0]] + s[1..];
    }
  }

  /** Sorting permutes the images under any `f` as well as the elements. */
  lemma {:induction false} SortByImage<T, U>(s: seq<T>, key: T -> int, f: T -> U)
    ensures multiset(MapSeq(SortBy(s, key), f)) == multiset(MapSeq(s, f))
  {
    if s != [] {
      var x, rest := s[0], s[1..];
      assert s == [x] + rest;
      var t := SortBy(rest, key);
      assert SortBy(s, key) == InsertBy(x, t, key);
      SortByImage(rest, key, f);
      InsertByImage(x, t, key, f);
      MapSeqCons(x, rest, f);
      assert MapSeq(s, f) == [f(x)] + MapSeq(rest, f);
    }
  }

  /** The largest element of a non-empty list (Kotlin's `maxByOrNull { it }`). */
  function MaxOf(s: seq<int>): (m: int)
    requires s != []
    ensures m in s
    ensures forall x :: x in s ==> x <= m
  {
    if |s| == 1 then s[0]
    else
      var rest := MaxOf(s[1..]);
      assert s == [s[0]] + s[1..];
      if s[0] >= rest then s[0] else rest
  }
}
