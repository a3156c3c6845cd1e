/**
 Sorting by a total order, as std::sort does it.
 */
module Sorting {

  type Compare<!T> = (T, T) -> bool

  ghost predicate IsOrder<T(!new)>(le: Compare<T>) {
    && (forall a, b :: le(a, b) || le(b, a))
    && (forall a, b, c :: le(a, b) && le(b, c) ==> le(a, c))
  }

  function Insert<T>(le: Compare<T>, x: T, s: seq<T>): seq<T> {
    if s == [] || le(x, s[0]) then [x] + s else [s[0]] + Insert(le, x, s[1..])
  }

  function Sort<T>(le: Compare<T>, s: seq<T>): seq<T> {
    if s == [] then [] else Insert(le, s[0], Sort(le, s[1..]))
  }

  ghost predicate Sorted<T>(le: Compare<T>, s: seq<T>) {
    forall i, j | 0 <= i < j < |s| :: le(s[i], s[j])
  }

  lemma SortedCons<T(!new)>(le: Compare<T>, x: T, s: seq<T>)
    requires IsOrder(le) && Sorted(le, s) && (s == [] || le(x, s[0]))
    ensures Sorted(le, [x] + s)
  {
    var t := [x] + s;
    forall i, j | 0 <= i < j < |t| ensures le(t[i], t[j]) {
      assert t[j] == s[j - 1];
      assert j > 1 ==> le(s[0], s[j - 1]);
      assert i > 0 ==> t[i] == s[i - 1];
    }
  }

  lemma {:induction false} InsertSorts<T(!new)>(le: Compare<T>, x: T, s: seq<T>)
    requires IsOrder(le) && Sorted(le, s)
    ensures Sorted(le, Insert(le, x, s)) && multiset(Insert(le, x, s)) == multiset(s) + multiset{x}
    ensures |Insert(le, x, s)| == |s| + 1
    ensures Insert(le, x, s)[0] == x || (s != [] && Insert(le, x, s)[0] == s[0])
  {
    if s == [] || le(x, s[0]) {
      SortedCons(le, x, s);
    } else {
      var tail := s[1..];
      InsertSorts(le, x, tail);
      assert s == [s[0]] + tail;
      assert tail != [] ==> tail[0] == s[1];
      SortedCons(le, s[0], Insert(le, x, tail));
    }
  }

  /** The result is in order and holds what was there. */
  lemma {:induction false} SortSorts<T(!new)>(le: Compare<T>, s: seq<T>)
    requires IsOrder(le)
    ensures Sorted(le, Sort(le, s)) && multiset(Sort(le, s)) == multiset(s) && |Sort(le, s)| == |s|
  {
    hide Sorted, IsOrder, Insert;
    if s == [] {
      NothingSorted(le, s);
    } else {
      SortSorts(le, s[1..]);
      InsertSorts(le, s[0], Sort(le, s[1..]));
      assert s == [s[0]] + s[1..];
    }
  }

  lemma NothingSorted<T>(le: Compare<T>, s: seq<T>)
    requires s == []
    ensures Sorted(le, s)
  {}

  lemma {:induction false} MultisetPlaces<T>(s: seq<T>, t: seq<T>, i: nat)
    requires multiset(s) == multiset(t) && i < |s|
    ensures exists j :: 0 <= j < |t| && t[j] == s[i]
  {
    assert s[i] in multiset(t);
  }
}
