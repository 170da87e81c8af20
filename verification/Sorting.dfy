/** Sorting by an integer rank, standing for the library sort the program calls on address ranges and LAN peers. */
module Sorting {

  ghost predicate Ascending<T>(s: seq<T>, rank: T -> int) {
    forall i, j :: 0 <= i < j < |s| ==> rank(s[i]) <= rank(s[j])
  }

  function Insert<T>(x: T, s: seq<T>, rank: T -> int): (r: seq<T>)
    ensures multiset(r) == multiset(s) + multiset{x}
  {
    if s == [] || rank(x) <= rank(s[0]) then [x] + s
    else
      assert s == [s[0]] + s[1..];
      [s[0]] + Insert(x, s[1..], rank)
  }

  function Sort<T>(s: seq<T>, rank: T -> int): (r: seq<T>)
    ensures multiset(r) == multiset(s)
    ensures |r| == |s|
  {
    if s == [] then []
    else
      assert s == [s[0]] + s[1..];
      var r := Insert(s[0], Sort(s[1..], rank), rank);
      assert |multiset(r)| == |multiset(s)|;
      r
  }

  lemma {:induction false} InsertAscending<T>(x: T, s: seq<T>, rank: T -> int)
    requires Ascending(s, rank)
    ensures Ascending(Insert(x, s, rank), rank)
  {
    if s == [] || rank(x) <= rank(s[0]) {
    } else {
      InsertAscending(x, s[1..], rank);
      var t := Insert(x, s[1..], rank);
      forall y | y in t
        ensures rank(s[0]) <= rank(y)
      {
        assert y in multiset(t);
        assert y in multiset(s[1..]) || y == x;
        if y != x {
          assert y in s[1..];
        }
      }
    }
  }

  lemma {:induction false} SortAscending<T>(s: seq<T>, rank: T -> int)
    ensures Ascending(Sort(s, rank), rank)
  {
    if s == [] {
    } else {
      SortAscending(s[1..], rank);
      InsertAscending(s[0], Sort(s[1..], rank), rank);
    }
  }

  lemma SameElements<T>(s: seq<T>, t: seq<T>, x: T)
    requires multiset(s) == multiset(t)
    ensures x in s <==> x in t
  {
    assert x in s <==> x in multiset(s);
  }
}
