/** Sorting by an integer key, and the sorted form of a run of consecutive integers. */
module Sorting {

  ghost predicate Ascending<T>(s: seq<T>, key: T -> int) {
    forall i, j :: 0 <= i < j < |s| ==> key(s[i]) <= key(s[j])
  }

  ghost predicate Distinct<T>(s: seq<T>) {
    forall i, j :: 0 <= i < j < |s| ==> s[i] != s[j]
  }

  function Self(x: int): int { x }

  function Insert<T>(x: T, s: seq<T>, key: T -> int): seq<T> {
    if s == [] || key(x) <= key(s[0]) then [x] + s else [s[0]] + Insert(x, s[1..], key)
  }

  lemma {:induction false} InsertAdds<T>(x: T, s: seq<T>, key: T -> int)
    ensures multiset(Insert(x, s, key)) == multiset(s) + multiset{x}
  {
    if !(s == [] || key(x) <= key(s[0])) {
      InsertAdds(x, s[1..], key);
      assert s == [s[0]] + s[1..];
    }
  }

  lemma {:induction false} InsertKeepsOrder<T>(x: T, s: seq<T>, key: T -> int)
    requires Ascending(s, key)
    ensures Ascending(Insert(x, s, key), key)
  {
    if !(s == [] || key(x) <= key(s[0])) {
      var r := Insert(x, s[1..], key);
      InsertKeepsOrder(x, s[1..], key);
      InsertAdds(x, s[1..], key);
      assert Insert(x, s, key) == [s[0]] + r;
      hide Insert;
      forall i | 0 <= i < |r|
        ensures key(s[0]) <= key(r[i])
      {
        assert r[i] in multiset(r);
      }
    }
  }

  /** sort.Slice by an integer key: the same elements in ascending order. */
  function Sorted<T>(s: seq<T>, key: T -> int): (r: seq<T>)
    ensures multiset(r) == multiset(s) && Ascending(r, key)
  {
    if s == [] then [] else
    var rest := Sorted(s[1..], key);
    InsertAdds(s[0], rest, key);
    InsertKeepsOrder(s[0], rest, key);
    assert s == [s[0]] + s[1..];
    Insert(s[0], rest, key)
  }

  /** a, a+1, …, b-1 */
  function Run(a: int, b: int): (r: seq<int>)
    ensures |r| == (if a <= b then b - a else 0)
    ensures forall i :: 0 <= i < |r| ==> r[i] == a + i
  {
    seq(if a <= b then b - a else 0, i => a + i)
  }

  lemma DistinctByMultiset<T>(s: seq<T>, r: seq<T>)
    requires Distinct(s) && multiset(s) == multiset(r)
    ensures Distinct(r)
  {
    forall i, j | 0 <= i < j < |r|
      ensures r[i] != r[j]
    {
      if r[i] == r[j] {
        TwicePresent(r, i, j);
        OncePresent(s, r[i]);
      }
    }
  }

  lemma TwicePresent<T>(r: seq<T>, i: nat, j: nat)
    requires i < j < |r| && r[i] == r[j]
    ensures multiset(r)[r[i]] >= 2
  {
    assert r == r[..j] + r[j..];
    assert r[i] in r[..j] && r[i] in r[j..];
  }

  lemma {:induction false} OncePresent<T>(s: seq<T>, x: T)
    requires Distinct(s)
    ensures multiset(s)[x] <= 1
  {
    if s != [] {
      assert s == [s[0]] + s[1..];
      OncePresent(s[1..], x);
      if s[0] == x {
        assert x !in s[1..];
      }
    }
  }

  /** Sorting the integers of an interval, each once, gives the interval in order. */
  lemma SortsToRun(s: seq<int>, a: int, b: int)
    requires Distinct(s) && a <= b && forall x :: x in s <==> a <= x < b
    ensures Sorted(s, Self) == Run(a, b)
  {
    hide Sorted, Run;
    var r := Sorted(s, Self);
    DistinctByMultiset(s, r);
    forall x
      ensures x in r <==> a <= x < b
    {
      assert x in r <==> x in multiset(r);
      assert x in s <==> x in multiset(s);
    }
    forall i, j | 0 <= i < j < |r|
      ensures r[i] < r[j]
    {
      assert Self(r[i]) <= Self(r[j]);
    }
    StrictRun(r, a, b);
  }

  lemma {:induction false} StrictRun(r: seq<int>, a: int, b: int)
    requires a <= b && forall x :: x in r <==> a <= x < b
    requires forall i, j :: 0 <= i < j < |r| ==> r[i] < r[j]
    ensures r == Run(a, b)
    decreases b - a
  {
    if r == [] {
      assert a < b ==> a in r;
    } else {
      assert r[0] in r && a in r;
      assert r == [a] + r[1..];
      forall x
        ensures x in r[1..] <==> a + 1 <= x < b
      {
        assert x in r <==> x == a || x in r[1..];
      }
      StrictRun(r[1..], a + 1, b);
    }
  }
}
