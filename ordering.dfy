/** Ascending sequences of integers: the order in which the appointment
    table lists ids and in which the scheduler keeps its dates. */
module Ordering {

  predicate StrictlyAscending(s: seq<int>) {
    forall i, j :: 0 <= i < j < |s| ==> s[i] < s[j]
  }

  predicate NoDuplicates(s: seq<int>) {
    forall i, j :: 0 <= i < j < |s| ==> s[i] != s[j]
  }

  lemma {:induction false} MinExists(s: set<int>)
    requires s != {}
    ensures exists m :: m in s && forall x :: x in s ==> m <= x
    decreases s
  {
    // a non-empty set has an element
    if forall x :: x !in s {
      assert false;
    }
    var y :| y in s;
    if s != {y} {
      MinExists(s - {y});
      var m :| m in s - {y} && forall x :: x in s - {y} ==> m <= x;
      var least := if y < m then y else m;
      forall x | x in s
        ensures least <= x
      {
        if x != y {
          assert x in s - {y};
        }
      }
      assert least in s;
    }
  }

  /** The elements of a finite set, smallest first. */
  function SortedSet(s: set<int>): (r: seq<int>)
    ensures StrictlyAscending(r)
    ensures forall x :: x in r <==> x in s
    ensures |r| == |s|
    decreases s
  {
    if s == {} then []
    else
      MinExists(s);
      var m :| m in s && forall x :: x in s ==> m <= x;
      var rest := SortedSet(s - {m});
      PrependLeast(m, s, rest);
      [m] + rest
  }

  /** The least element of a set in front of the ascending listing of the
      rest lists the whole set in ascending order. */
  lemma PrependLeast(m: int, s: set<int>, rest: seq<int>)
    requires m in s && forall x :: x in s ==> m <= x
    requires StrictlyAscending(rest) && |rest| == |s - {m}|
    requires forall x :: x in rest <==> x in s - {m}
    ensures StrictlyAscending([m] + rest)
    ensures forall x :: x in [m] + rest <==> x in s
    ensures |[m] + rest| == |s|
  {
    forall j | 0 <= j < |rest|
      ensures m < rest[j]
    {
      assert rest[j] in rest;
    }
  }

  /** Two ascending sequences with the same elements are the same sequence. */
  lemma {:induction false} AscendingUnique(a: seq<int>, b: seq<int>)
    requires StrictlyAscending(a) && StrictlyAscending(b)
    requires forall x :: x in a <==> x in b
    ensures a == b
    decreases |a|
  {
    if a != [] {
      assert a[0] in a;
    }
    if b != [] {
      assert b[0] in b;
    }
    if a != [] && b != [] {
      assert a[0] in b;
      assert b[0] in a;
      assert a[0] == b[0];
      forall x
        ensures x in a[1..] <==> x in b[1..]
      {
        if x in a[1..] {
          assert x in b && x != b[0];
        }
        if x in b[1..] {
          assert x in a && x != a[0];
        }
      }
      AscendingUnique(a[1..], b[1..]);
      assert a == [a[0]] + a[1..];
      assert b == [b[0]] + b[1..];
    }
  }

  lemma {:induction false} DistinctCardinality(xs: seq<int>)
    requires NoDuplicates(xs)
    ensures |set x | x in xs| == |xs|
  {
    if xs != [] {
      var t := xs[1..];
      DistinctCardinality(t);
      assert (set x | x in xs) == (set x | x in t) + {xs[0]};
      assert xs[0] !in (set x | x in t);
    }
  }

  /** Python's `list.sort()` on a list without duplicates: the same
      elements, smallest first. */
  function Sort(xs: seq<int>): (r: seq<int>)
    requires NoDuplicates(xs)
    ensures StrictlyAscending(r)
    ensures forall x :: x in r <==> x in xs
    ensures |r| == |xs|
  {
    DistinctCardinality(xs);
    SortedSet(set x | x in xs)
  }

  /** Python's `list.index(x)`: the first position holding `x`. */
  function IndexOf(s: seq<int>, x: int): (r: int)
    requires x in s
    ensures 0 <= r < |s| && s[r] == x
    ensures forall j :: 0 <= j < r ==> s[j] != x
  {
    if s[0] == x then 0 else 1 + IndexOf(s[1..], x)
  }
}
