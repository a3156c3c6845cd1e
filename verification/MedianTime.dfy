/**
 The median time of a block and the blocks before it, and the rule that a new
 block is later than that of its predecessor.
 */
module MedianTime {
  import opened Headers
  import opened Sorting

  const MEDIAN_SPAN := 11
  const MAX_CLOCK_DRIFT := 2 * 60 * 60

  // --- sorting times

  function NotAfter(): Compare<int> {
    (a, b) => a <= b
  }

  // How many are at most c
  function AtMost(s: seq<int>, c: int): nat {
    if s == [] then 0 else (if s[0] <= c then 1 else 0) + AtMost(s[1..], c)
  }

  lemma {:induction false} AtMostInsert(x: int, s: seq<int>, c: int)
    ensures AtMost(Insert(NotAfter(), x, s), c) == AtMost(s, c) + if x <= c then 1 else 0
  {
    if s == [] || x <= s[0] {
      assert ([x] + s)[1..] == s;
    } else {
      AtMostInsert(x, s[1..], c);
      var r := Insert(NotAfter(), x, s[1..]);
      assert ([s[0]] + r)[1..] == r;
    }
  }

  lemma {:induction false} AtMostSort(s: seq<int>, c: int)
    ensures AtMost(Sort(NotAfter(), s), c) == AtMost(s, c)
  {
    if s != [] {
      AtMostSort(s[1..], c);
      AtMostInsert(s[0], Sort(NotAfter(), s[1..]), c);
    }
  }

  // In a sorted list the item at k is at most c exactly if more than k are.
  lemma {:induction false} RankInSorted(s: seq<int>, k: nat, c: int)
    requires Sorted(NotAfter(), s) && k < |s|
    ensures s[k] <= c <==> AtMost(s, c) > k
  {
    assert forall i | 0 < i < |s| :: NotAfter()(s[0], s[i]);
    if s[0] > c {
      NoneAtMost(s, c);
    } else if k > 0 {
      assert Sorted(NotAfter(), s[1..]);
      RankInSorted(s[1..], k - 1, c);
    }
  }

  lemma {:induction false} NoneAtMost(s: seq<int>, c: int)
    requires forall i | 0 <= i < |s| :: s[i] > c
    ensures AtMost(s, c) == 0
  {
    if s != [] {
      NoneAtMost(s[1..], c);
    }
  }

  // --- the window

  // The times of b and of the blocks before it, at most n of them, oldest first
  function Window(b: Index, n: nat): seq<int> {
    if b.Null? || n == 0 then [] else Window(b.pprev, n - 1) + [b.time]
  }

  function Median(b: Index): int
    requires b.Index?
  {
    var w := Window(b, MEDIAN_SPAN);
    SortSorts(NotAfter(), w);
    Sort(NotAfter(), w)[|w| / 2]
  }

  method GetMedianTimePast(b: Index) returns (median: int)
    requires b.Index?
    ensures median == Median(b)
  {
    var times := new int[MEDIAN_SPAN];
    var begin, at, i := MEDIAN_SPAN, b, 0;
    assert times[begin..] == [];
    while i < MEDIAN_SPAN && at.Index?
      invariant 0 <= i <= MEDIAN_SPAN && begin == MEDIAN_SPAN - i
      invariant Window(at, MEDIAN_SPAN - i) + times[begin..] == Window(b, MEDIAN_SPAN)
    {
      begin := begin - 1;
      ghost var later := times[begin + 1..];
      times[begin] := at.time;
      assert times[begin..] == [at.time as int] + later;
      i, at := i + 1, at.pprev;
    }
    var w := times[begin..];
    assert Window(at, MEDIAN_SPAN - i) == [];
    assert w == Window(b, MEDIAN_SPAN);
    SortSorts(NotAfter(), w);
    median := Sort(NotAfter(), w)[|w| / 2];
  }

  // --- the rule

  predicate TimeAccepted(b: Index)
    requires b.Index? && b.pprev.Index?
  {
    !(b.time <= Median(b.pprev) || b.time + MAX_CLOCK_DRIFT < b.pprev.time)
  }

  predicate AllTimesAccepted(b: Index) {
    b.Index? && b.pprev.Index? ==> TimeAccepted(b) && AllTimesAccepted(b.pprev)
  }

  lemma MedianRank(b: Index, c: int)
    requires b.Index?
    ensures var w := Window(b, MEDIAN_SPAN); Median(b) <= c <==> AtMost(w, c) > |w| / 2
  {
    var w := Window(b, MEDIAN_SPAN);
    SortSorts(NotAfter(), w);
    AtMostSort(w, c);
    RankInSorted(Sort(NotAfter(), w), |w| / 2, c);
  }

  lemma {:induction false} AtMostAppend(s: seq<int>, x: int, c: int)
    ensures AtMost(s + [x], c) == AtMost(s, c) + if x <= c then 1 else 0
  {
    if s != [] {
      AtMostAppend(s[1..], x, c);
      assert (s + [x])[1..] == s[1..] + [x];
    } else {
      assert AtMost([x][1..], c) == 0;
    }
  }

  // A shorter window holds no more old times, and not more times.
  lemma {:induction false} ShorterWindow(b: Index, n: nat, c: int)
    ensures |Window(b, n)| <= |Window(b, n + 1)| <= n + 1 && |Window(b, n + 1)| <= |Window(b, n)| + 1
    ensures AtMost(Window(b, n), c) <= AtMost(Window(b, n + 1), c)
  {
    if b.Index? && n > 0 {
      ShorterWindow(b.pprev, n - 1, c);
      AtMostAppend(Window(b.pprev, n - 1), b.time, c);
      AtMostAppend(Window(b.pprev, n), b.time, c);
    } else if b.Index? {
      assert Window(b.pprev, 0) == [];
    }
  }

  /** An accepted block's median time is not before that of its predecessor, both
      while the window grows and after. */
  lemma MedianNeverDecreases(b: Index)
    requires b.Index? && b.pprev.Index? && TimeAccepted(b)
    ensures Median(b.pprev) <= Median(b)
  {
    hide Median, Sort;
    var n := MEDIAN_SPAN - 1;
    var c := Median(b.pprev) - 1;
    MedianRank(b.pprev, c);
    MedianRank(b, c);
    ShorterWindow(b.pprev, n, c);
    AtMostAppend(Window(b.pprev, n), b.time, c);
  }

  lemma {:induction false} MedianAlongChain(a: Index, b: Index)
    requires a.Index? && b.Index? && IsAncestor(a, b) && AllTimesAccepted(b)
    ensures Median(a) <= Median(b)
    decreases b
  {
    hide Median;
    if a != b {
      MedianAlongChain(a, b.pprev);
      MedianNeverDecreases(b);
    }
  }

  /** Every block is later than the median time of each block before it, and so
      later than the genesis block. */
  lemma LaterThanAncestors(a: Index, b: Index)
    requires a.Index? && b.Index? && b.pprev.Index? && IsAncestor(a, b.pprev) && AllTimesAccepted(b)
    ensures b.time > Median(a)
    ensures a.pprev.Null? ==> b.time > a.time
  {
    MedianAlongChain(a, b.pprev);
    if a.pprev.Null? {
      assert Window(a.pprev, MEDIAN_SPAN - 1) == [];
      var w := Window(a, MEDIAN_SPAN);
      assert w == [a.time as int];
      assert Sort(NotAfter(), w[1..]) == [];
      assert Sort(NotAfter(), w) == [a.time as int];
    }
  }
}
