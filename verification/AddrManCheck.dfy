/**
 The consistency check that the address manager carries with it: what exactly it
 checks, and that the invariant implies all of it.
 */
module AddrManCheck {
  import opened AddrMan

  // mapAddr[...]: a missing address counts as id 0.
  function Lookup(addrs: map<NetAddr, int>, ip: NetAddr): int {
    if ip in addrs then addrs[ip] else 0
  }

  ghost predicate EntryChecked(s: Book, id: int)
    requires id in s.info
  {
    var e := s.info[id];
    && EntryOk(e)
    && Lookup(s.addrs, e.addr.ip) == id
    && 0 <= e.randomPos < |s.random| && s.random[e.randomPos] == id
  }

  // All members of all buckets, as often as they occur
  ghost function AllOf(buckets: seq<seq<int>>): multiset<int> {
    if buckets == [] then multiset{} else AllOf(buckets[..|buckets| - 1]) + multiset(buckets[|buckets| - 1])
  }

  ghost function RefCounts(info: Infos): map<int, int> {
    map id | id in info && !info[id].inTried :: info[id].refCount
  }

  function Get(m: map<int, int>, id: int): int {
    if id in m then m[id] else 0
  }

  /** What Check_ accepts: entries in order, exact counters, every tried id in the
      tried buckets once and nothing else there, every untried id in as many new
      buckets as its reference count says and nothing else there. */
  ghost predicate Checked(s: Book) {
    && |s.random| == s.nTried + s.nNew
    && (forall id | id in s.info :: EntryChecked(s, id))
    && |Tried(s.info)| == s.nTried && |Untried(s.info)| == s.nNew
    && AllOf(s.tried) == multiset(Tried(s.info))
    && (forall id :: Count(s.news, id) == Get(RefCounts(s.info), id))
  }

  // --- the three passes

  lemma Collected(info: Infos, tried: set<int>, news: map<int, int>)
    requires forall id :: id in tried <==> id in info && info[id].inTried
    requires forall id :: id in news <==> id in info && !info[id].inTried
    requires forall id | id in news :: news[id] == info[id].refCount
    ensures tried == Tried(info) && news == RefCounts(info)
  {
    forall id ensures id in tried <==> id in Tried(info) {}
    var counts := RefCounts(info);
    forall id ensures id in news <==> id in counts {}
    assert news.Keys == counts.Keys;
    assert forall id | id in news :: news[id] == counts[id];
  }

  method CheckEntries(m: CAddrMan) returns (err: int, tried: set<int>, news: map<int, int>)
    ensures err == 0 <==> forall id | id in m.info :: EntryChecked(m.Now(), id)
    ensures err == 0 ==> tried == Tried(m.info) && news == RefCounts(m.info)
  {
    var info := m.info;
    tried, news := {}, map[];
    var rest := info.Keys;
    while |rest| > 0
      invariant rest <= info.Keys
      invariant forall id | id in info && id !in rest :: EntryChecked(m.Now(), id)
      invariant forall id :: id in tried <==> id in info && id !in rest && info[id].inTried
      invariant forall id :: id in news <==> id in info && id !in rest && !info[id].inTried
      invariant forall id | id in news :: news[id] == info[id].refCount
      decreases |rest|
    {
      var id := PickFrom(rest);
      var e := info[id];
      if e.inTried {
        if e.lastSuccess == 0 { return -1, tried, news; }
        if e.refCount != 0 { return -2, tried, news; }
        tried := tried + {id};
      } else {
        if e.refCount < 0 || e.refCount > NEW_BUCKETS_PER_ADDRESS { return -3, tried, news; }
        if e.refCount == 0 { return -4, tried, news; }
        news := news[id := e.refCount];
      }
      if Lookup(m.addrs, e.addr.ip) != id { return -5, tried, news; }
      if e.randomPos < 0 || e.randomPos >= |m.random| || m.random[e.randomPos] != id { return -14, tried, news; }
      if e.lastTry < 0 { return -6, tried, news; }
      if e.lastSuccess < 0 { return -8, tried, news; }
      rest := rest - {id};
    }
    assert rest == {};
    Collected(info, tried, news);
    return 0, tried, news;
  }

  // What has been met before place n of bucket b
  ghost function Seen(buckets: seq<seq<int>>, b: nat, n: nat): multiset<int>
    requires b < |buckets| && n <= |buckets[b]|
  {
    AllOf(buckets[..b]) + multiset(buckets[b][..n])
  }

  lemma SeenNext(buckets: seq<seq<int>>, b: nat, n: nat)
    requires b < |buckets| && n < |buckets[b]|
    ensures Seen(buckets, b, n + 1) == Seen(buckets, b, n) + multiset{buckets[b][n]}
    ensures Seen(buckets, b, n + 1) <= AllOf(buckets)
  {
    var bucket := buckets[b];
    assert bucket[..n + 1] == bucket[..n] + [bucket[n]];
    assert bucket == bucket[..n + 1] + bucket[n + 1..];
    SeenBucket(buckets, b);
    AllOfPrefix(buckets, b + 1);
  }

  lemma SeenBucket(buckets: seq<seq<int>>, b: nat)
    requires b < |buckets|
    ensures AllOf(buckets[..b + 1]) == AllOf(buckets[..b]) + multiset(buckets[b])
    ensures Seen(buckets, b, |buckets[b]|) == AllOf(buckets[..b + 1])
    ensures Seen(buckets, b, 0) == AllOf(buckets[..b])
  {
    assert buckets[..b + 1][..b] == buckets[..b];
    assert buckets[b][..|buckets[b]|] == buckets[b];
  }

  lemma {:induction false} AllOfPrefix(buckets: seq<seq<int>>, b: nat)
    requires b <= |buckets|
    ensures AllOf(buckets[..b]) <= AllOf(buckets)
  {
    if b < |buckets| {
      AllOfPrefix(buckets[..|buckets| - 1], b);
      assert buckets[..|buckets| - 1][..b] == buckets[..b];
    } else {
      assert buckets[..b] == buckets;
    }
  }

  method CheckTried(tried: seq<seq<int>>, start: set<int>) returns (err: int, left: set<int>)
    ensures err == 0 && left == {} <==> AllOf(tried) == multiset(start)
  {
    hide AllOf, Seen;
    left := start;
    NothingSeen(tried);
    for b := 0 to |tried|
      invariant multiset(left) + AllOf(tried[..b]) == multiset(start)
    {
      SeenBucket(tried, b);
      for n := 0 to |tried[b]|
        invariant multiset(left) + Seen(tried, b, n) == multiset(start)
      {
        var id := tried[b][n];
        SeenNext(tried, b, n);
        if id !in left {
          assert multiset(start)[id] == Seen(tried, b, n)[id];
          return -11, left;
        }
        assert multiset(left) == multiset(left - {id}) + multiset{id};
        left := left - {id};
      }
    }
    assert tried[..|tried|] == tried;
    if left != {} {
      Leftover(left, AllOf(tried), start);
    }
    return 0, left;
  }

  lemma NothingSeen(buckets: seq<seq<int>>)
    ensures AllOf(buckets[..0]) == multiset{}
  {}

  lemma Leftover(left: set<int>, seen: multiset<int>, start: set<int>)
    requires left != {} && multiset(left) + seen == multiset(start)
    ensures seen != multiset(start)
  {
    assert (forall y :: y !in left) ==> left == {};
    var x :| x in left;
    assert multiset(left)[x] == 1;
    assert (multiset(left) + seen)[x] == 1 + seen[x];
  }

  ghost predicate Positive(m: map<int, int>) {
    forall id | id in m :: m[id] > 0
  }

  method CheckNew(news: seq<set<int>>, start: map<int, int>) returns (err: int, left: map<int, int>)
    requires Positive(start)
    ensures err == 0 && left == map[] <==> forall id :: Count(news, id) == Get(start, id)
  {
    hide Count;
    left := start;
    forall id ensures Count(news[..0], id) == 0 {
      CountZero(news[..0], id);
    }
    for b := 0 to |news|
      invariant Positive(left)
      invariant forall id :: Get(left, id) + Count(news[..b], id) == Get(start, id)
    {
      forall id
        ensures Count(news[..b + 1], id) == Count(news[..b], id) + if id in news[b] then 1 else 0
        ensures Count(news[..b + 1], id) <= Count(news, id)
      {
        CountNext(news, b, id);
      }
      ghost var bad;
      err, left, bad := CheckBucket(news[b], left);
      if err != 0 {
        assert Count(news, bad) > Get(start, bad);
        return err, left;
      }
    }
    assert news[..|news|] == news;
    if left == map[] {
      assert forall id :: Get(left, id) == 0;
    } else {
      assert (forall id :: id !in left.Keys) ==> left.Keys == {};
      var id :| id in left.Keys;
      assert Get(left, id) > 0;
    }
    return 0, left;
  }

  // One bucket: every member takes one from its count.
  method CheckBucket(bucket: set<int>, start: map<int, int>) returns (err: int, left: map<int, int>, ghost bad: int)
    requires Positive(start)
    ensures err == 0 ==> Positive(left)
    ensures err == 0 ==> forall id :: Get(left, id) == Get(start, id) - if id in bucket then 1 else 0
    ensures err != 0 ==> bad in bucket && Get(start, bad) == 0
  {
    left, bad := start, 0;
    var rest := bucket;
    while |rest| > 0
      invariant rest <= bucket && Positive(left)
      invariant forall id :: Get(left, id) == Get(start, id) - if id in bucket && id !in rest then 1 else 0
      decreases |rest|
    {
      var id := PickFrom(rest);
      if id !in left {
        return -12, left, id;
      }
      left := if left[id] == 1 then left - {id} else left[id := left[id] - 1];
      rest := rest - {id};
    }
    assert rest == {};
    return 0, left, bad;
  }

  /** Check_ returns 0 exactly on the managers that pass all of its checks. */
  method Check(m: CAddrMan) returns (err: int)
    ensures err == 0 <==> Checked(m.Now())
  {
    hide EntryChecked, AllOf, Tried, Untried, Count, Get, RefCounts;
    if |m.random| != m.nTried + m.nNew { return -7; }
    var tried, news;
    err, tried, news := CheckEntries(m);
    if err != 0 { return err; }
    if |tried| != m.nTried { return -9; }
    SameKeys(m.info);
    if |news| != m.nNew { return -10; }
    PositiveCounts(m.Now());
    err, tried := CheckTried(m.tried, tried);
    if err != 0 { return err; }
    err, news := CheckNew(m.news, news);
    if err != 0 { return err; }
    if |tried| != 0 { return -13; }
    if |news| != 0 { return -15; }
    return 0;
  }

  lemma SameKeys(info: Infos)
    ensures RefCounts(info).Keys == Untried(info)
  {}

  lemma PositiveCounts(s: Book)
    requires forall id | id in s.info :: EntryChecked(s, id)
    ensures Positive(RefCounts(s.info))
  {}

  // --- the invariant implies the checks

  lemma BookSize(key: Key, s: Book)
    requires BookOk(key, s, NONE_DUE)
    ensures |s.random| == s.nTried + s.nNew
  {
    hide EntriesOk, AddrOk, NewOk, TriedOk;
    assert s.info.Keys == Tried(s.info) + Untried(s.info);
    assert Tried(s.info) !! Untried(s.info);
    Positions(s.info.Keys, s.random, |s.random|);
  }

  lemma {:induction false} Positions(ids: set<int>, random: seq<int>, n: nat)
    requires n <= |random|
    requires forall i, j | 0 <= i < j < n :: random[i] != random[j]
    requires forall id :: id in ids <==> exists i :: 0 <= i < n && random[i] == id
    ensures |ids| == n
  {
    if n == 0 {
      assert forall id :: id !in ids;
      assert ids == {};
    } else {
      var last := random[n - 1];
      assert last in ids;
      Positions(ids - {last}, random, n - 1);
    }
  }

  lemma EntryFacts(key: Key, s: Book, id: int)
    requires BookOk(key, s, NONE_DUE) && id in s.info
    ensures EntryChecked(s, id)
  {
    hide NewOk, TriedOk, Tried, Untried;
  }

  lemma {:induction false} OccursOnce(s: seq<int>, x: int)
    requires forall i, j | 0 <= i < j < |s| :: s[i] != s[j]
    ensures multiset(s)[x] == if x in s then 1 else 0
  {
    if s != [] {
      var n := |s| - 1;
      assert s == s[..n] + [s[n]];
      OccursOnce(s[..n], x);
      assert s[n] !in s[..n];
    }
  }

  // An id is met as often as its own bucket holds it, in the first n buckets.
  lemma {:induction false} MetInOwnBucket(key: Key, info: Infos, tried: seq<seq<int>>, n: nat, x: int)
    requires TriedOk(key, info, tried) && n <= |tried|
    ensures AllOf(tried[..n])[x] == if x in info && info[x].inTried && key.TriedBucket(info[x].addr) < n then 1 else 0
  {
    hide TriedOk;
    if n > 0 {
      MetInOwnBucket(key, info, tried, n - 1, x);
      assert tried[..n][..n - 1] == tried[..n - 1];
      TriedBucket(key, info, tried, n - 1, x);
      OccursOnce(tried[n - 1], x);
    }
  }

  lemma TriedBucket(key: Key, info: Infos, tried: seq<seq<int>>, b: nat, x: int)
    requires TriedOk(key, info, tried) && b < |tried|
    ensures x in tried[b] <==> x in info && info[x].inTried && key.TriedBucket(info[x].addr) == b
    ensures forall i, j | 0 <= i < j < |tried[b]| :: tried[b][i] != tried[b][j]
  {
    if x in tried[b] {
      var i :| 0 <= i < |tried[b]| && tried[b][i] == x;
    }
  }

  lemma TriedChecked(key: Key, info: Infos, tried: seq<seq<int>>)
    requires TriedOk(key, info, tried)
    ensures AllOf(tried) == multiset(Tried(info))
  {
    assert tried[..|tried|] == tried;
    forall x ensures AllOf(tried)[x] == multiset(Tried(info))[x] {
      MetInOwnBucket(key, info, tried, |tried|, x);
    }
  }

  lemma NewChecked(info: Infos, news: seq<set<int>>, idCount: int)
    requires EntriesOk(info, idCount) && NewOk(info, news, NONE_DUE)
    ensures forall id :: Count(news, id) == Get(RefCounts(info), id)
  {
    forall id ensures Count(news, id) == Get(RefCounts(info), id) {
      CountZero(news, id);
    }
  }

  /** Every manager that satisfies the invariant passes Check_. */
  lemma InvariantIsChecked(key: Key, s: Book)
    requires BookOk(key, s, NONE_DUE)
    ensures Checked(s)
  {
    hide EntriesOk, RandomOk, AddrOk, NewOk, TriedOk, Tried, Untried, AllOf, Get, RefCounts, Count, EntryChecked;
    BookSize(key, s);
    forall id | id in s.info ensures EntryChecked(s, id) {
      EntryFacts(key, s, id);
    }
    TriedChecked(key, s.info, s.tried);
    NewChecked(s.info, s.news, s.idCount);
  }
}
