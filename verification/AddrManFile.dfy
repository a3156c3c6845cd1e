/**
 Writing an address manager to a file and reading it back.  Ids, vRandom, mapAddr
 and the tried buckets are not written; reading rebuilds them.
 */
module AddrManFile {
  import opened AddrMan

  // What is written of an entry
  datatype Saved = Saved(addr: Service, services: set<nat>, time: int, source: NetAddr, lastSuccess: int, attempts: int)

  function Save(e: Info): Saved {
    Saved(e.addr, e.services, e.time, e.source, e.lastSuccess, e.attempts)
  }

  // An entry as it is read: nLastTry and the memory-only fields start afresh.
  function Load(s: Saved, randomPos: int, inTried: bool): Info {
    Info(s.addr, s.services, s.time, s.source, s.lastSuccess, 0, s.attempts, 0, inTried, randomPos)
  }

  datatype File = File(nNew: int, nTried: int, news: seq<Saved>, tried: seq<Saved>, buckets: seq<seq<int>>)

  // --- enumerations

  ghost predicate NoDuplicates(s: seq<int>) {
    forall i, j | 0 <= i < j < |s| :: s[i] != s[j]
  }

  ghost predicate Enumerates(s: seq<int>, x: set<int>) {
    NoDuplicates(s) && |s| == |x| && forall id :: id in s <==> id in x
  }

  // Some order on a set; std::map and std::set use the ascending one.
  method Enumerate(x: set<int>) returns (s: seq<int>)
    ensures Enumerates(s, x)
  {
    s := [];
    var rest := x;
    while |rest| > 0
      invariant rest <= x && |s| + |rest| == |x|
      invariant NoDuplicates(s)
      invariant forall id :: id in s <==> id in x && id !in rest
      decreases |rest|
    {
      var id := PickFrom(rest);
      s := s + [id];
      rest := rest - {id};
    }
  }

  lemma {:induction false} SizeOf(s: seq<int>, x: set<int>)
    requires NoDuplicates(s) && forall id :: id in s <==> id in x
    ensures |s| == |x|
  {
    if s == [] {
      assert forall id :: id in x ==> id in s;
      assert x == {};
    } else {
      var n := |s| - 1;
      assert s == s[..n] + [s[n]];
      forall id ensures id in s[..n] <==> id in x - {s[n]} {
        if id in s[..n] {
          var i :| 0 <= i < n && s[i] == id;
        }
      }
      SizeOf(s[..n], x - {s[n]});
    }
  }

  // As many distinct members as the set has are all of them.
  lemma AllFound(s: seq<int>, x: set<int>)
    requires NoDuplicates(s) && |s| == |x| && forall id | id in s :: id in x
    ensures forall id | id in x :: id in s
  {
    var found := set id | id in x && id in s;
    SizeOf(s, found);
    assert x == found + (x - found);
    assert |x| == |found| + |x - found|;
    assert x - found == {};
  }

  lemma {:induction false} NoDuplicatesBound(s: seq<int>, t: seq<int>)
    requires NoDuplicates(s) && forall i | 0 <= i < |s| :: s[i] in t
    ensures |s| <= |t|
  {
    if s != [] {
      var n := |s| - 1;
      var j :| 0 <= j < |t| && t[j] == s[n];
      var t' := t[..j] + t[j + 1..];
      forall i | 0 <= i < n ensures s[..n][i] in t' {
        var m :| 0 <= m < |t| && t[m] == s[i];
        assert t'[if m < j then m else m - 1] == s[i];
      }
      NoDuplicatesBound(s[..n], t');
    }
  }

  // --- what a file says about the manager it was written from

  ghost predicate Lists(info: Infos, ids: seq<int>, saved: seq<Saved>) {
    |saved| == |ids| && forall i | 0 <= i < |ids| :: ids[i] in info && saved[i] == Save(info[ids[i]])
  }

  ghost predicate BucketWritten(ids: seq<int>, bucket: set<int>, written: seq<int>) {
    && NoDuplicates(written) && |written| == |bucket|
    && forall x :: x in written <==> 0 <= x < |ids| && ids[x] in bucket
  }

  // newIds and triedIds are the orders in which the entries were written.
  ghost predicate Written(s: Book, f: File, newIds: seq<int>, triedIds: seq<int>) {
    && Enumerates(newIds, Untried(s.info)) && Enumerates(triedIds, Tried(s.info))
    && Lists(s.info, newIds, f.news) && Lists(s.info, triedIds, f.tried)
    && f.nNew == |newIds| && f.nTried == |triedIds|
    && |f.buckets| == |s.news|
    && forall b | 0 <= b < |s.news| :: BucketWritten(newIds, s.news[b], f.buckets[b])
  }

  // The entries of one kind, in order; the loop stops once it has counted enough.
  method WriteEntries(info: Infos, ids: seq<int>, wantTried: bool, count: int)
    returns (saved: seq<Saved>, index: map<int, int>, ghost written: seq<int>)
    requires Enumerates(ids, info.Keys)
    requires forall id | id in info :: info[id].refCount != 0 <==> !info[id].inTried
    requires count == |if wantTried then Tried(info) else Untried(info)|
    ensures Enumerates(written, if wantTried then Tried(info) else Untried(info))
    ensures Lists(info, written, saved)
    ensures forall i | 0 <= i < |written| :: written[i] in index && index[written[i]] == i
  {
    saved, index, written := [], map[], [];
    ghost var want := if wantTried then Tried(info) else Untried(info);
    var n := 0;
    while n < |ids|
      invariant 0 <= n <= |ids|
      invariant NoDuplicates(written) && Lists(info, written, saved)
      invariant forall id :: id in written <==> id in want && id in ids[..n]
      invariant forall i | 0 <= i < |written| :: written[i] in index && index[written[i]] == i
    {
      var id := ids[n];
      assert ids[..n + 1] == ids[..n] + [id];
      assert id !in ids[..n] && id !in written;
      if |saved| == count {
        AllFound(written, want);
        return;
      }
      index := index[id := |saved|];
      if (if wantTried then info[id].inTried else info[id].refCount != 0) {
        saved := saved + [Save(info[id])];
        written := written + [id];
      }
      n := n + 1;
    }
    assert ids[..|ids|] == ids;
    SizeOf(written, want);
  }

  method WriteBucket(bucket: set<int>, index: map<int, int>, ghost ids: seq<int>) returns (line: seq<int>)
    requires forall i | 0 <= i < |ids| :: ids[i] in index && index[ids[i]] == i
    requires forall id | id in bucket :: id in ids
    ensures BucketWritten(ids, bucket, line)
  {
    var order := Enumerate(bucket);
    line := [];
    for n := 0 to |order|
      invariant |line| == n
      invariant forall i | 0 <= i < n :: 0 <= line[i] < |ids| && ids[line[i]] == order[i]
    {
      var id := order[n];
      assert id in order && id in ids;
      ghost var j: nat :| j < |ids| && ids[j] == id;
      line := line + [index[id]];
    }
    forall x ensures x in line <==> 0 <= x < |ids| && ids[x] in bucket {
      if 0 <= x < |ids| && ids[x] in bucket {
        var i :| 0 <= i < |order| && order[i] == ids[x];
        assert line[i] == index[ids[line[i]]] == x;
      }
    }
  }

  // f is what Serialize makes of s, in some order of the entries.
  ghost predicate IsFileOf(s: Book, f: File) {
    exists newIds, triedIds :: Written(s, f, newIds, triedIds)
  }

  method Serialize(m: CAddrMan) returns (f: File)
    requires m.Valid()
    ensures IsFileOf(m.Now(), f)
  {
    hide RandomOk, AddrOk, TriedOk;
    var ids := Enumerate(m.info.Keys);
    assert forall id | id in m.info :: EntryOk(m.info[id]);
    var news, index, tried, unused;
    ghost var newIds, triedIds;
    news, index, newIds := WriteEntries(m.info, ids, false, m.nNew);
    tried, unused, triedIds := WriteEntries(m.info, ids, true, m.nTried);
    var buckets: seq<seq<int>> := [];
    for b := 0 to |m.news|
      invariant |buckets| == b
      invariant forall j | 0 <= j < b :: BucketWritten(newIds, m.news[j], buckets[j])
    {
      assert forall id | id in m.news[b] :: id in Untried(m.info);
      var line := WriteBucket(m.news[b], index, newIds);
      buckets := buckets + [line];
    }
    f := File(m.nNew, m.nTried, news, tried, buckets);
    assert Written(m.Now(), f, newIds, triedIds);
  }

  // --- reading

  // The old ids of the entries read so far, in the order of the new ones, with
  // distinct addresses
  ghost predicate Origin(info: Infos, ids: seq<int>) {
    && NoDuplicates(ids)
    && (forall i | 0 <= i < |ids| :: ids[i] in info)
    && (forall x, y | x in info && y in info && info[x].addr.ip == info[y].addr.ip :: x == y)
  }

  // The first n entries are back under the ids 0 .. n-1.
  ghost predicate ReadBack(was: Infos, ids: seq<int>, n: nat, info: Infos, addrs: map<NetAddr, int>, random: seq<int>)
    requires n <= |ids| && Origin(was, ids)
  {
    && (forall i :: i in info <==> 0 <= i < n)
    && (forall i | 0 <= i < n :: info[i] == was[ids[i]].(lastTry := 0, randomPos := i, refCount := 0))
    && AddrOk(info, addrs)
    && |random| == n && forall i | 0 <= i < n :: random[i] == i
  }

  lemma ReadOneMore(was: Infos, ids: seq<int>, n: nat, info: Infos, addrs: map<NetAddr, int>, random: seq<int>)
    requires n < |ids| && Origin(was, ids) && ReadBack(was, ids, n, info, addrs, random)
    ensures var e := was[ids[n]].(lastTry := 0, randomPos := n, refCount := 0);
      ReadBack(was, ids, n + 1, info[n := e], addrs[e.addr.ip := n], random + [n])
  {
    var ip := was[ids[n]].addr.ip;
    forall i | 0 <= i < n ensures info[i].addr.ip != ip {
      assert ids[i] != ids[n];
    }
    assert ip !in addrs;
  }

  method ReadNew(f: File, ghost was: Infos, ghost ids: seq<int>)
    returns (info: Infos, addrs: map<NetAddr, int>, random: seq<int>)
    requires 0 <= f.nNew == |f.news| <= |ids| && Origin(was, ids)
    requires forall i | 0 <= i < f.nNew :: f.news[i] == Save(was[ids[i]]) && !was[ids[i]].inTried
    ensures ReadBack(was, ids, f.nNew, info, addrs, random)
  {
    info, addrs, random := map[], map[], [];
    for n := 0 to f.nNew
      invariant ReadBack(was, ids, n, info, addrs, random)
    {
      ReadOneMore(was, ids, n, info, addrs, random);
      var e := Load(f.news[n], |random|, false);
      info := info[n := e];
      addrs := addrs[e.addr.ip := n];
      random := random + [n];
    }
  }

  // Tried entries first .. n-1 are in the buckets that their addresses select.
  ghost predicate TriedBack(key: Key, was: Infos, ids: seq<int>, first: nat, n: nat, tried: seq<seq<int>>)
    requires first <= n <= |ids| && Origin(was, ids)
  {
    && |tried| == TRIED_BUCKET_COUNT
    && (forall b | 0 <= b < |tried| :: NoDuplicates(tried[b]))
    && (forall b, i | 0 <= b < |tried| && 0 <= i < |tried[b]| ::
          first <= tried[b][i] < n && key.TriedBucket(was[ids[tried[b][i]]].addr) == b)
    && (forall x | first <= x < n :: x in tried[key.TriedBucket(was[ids[x]].addr)])
  }

  // A bucket that is being refilled is shorter than it was, as long as an entry
  // is missing.
  lemma RoomInBucket(key: Key, was: Infos, old': seq<seq<int>>, ids: seq<int>, first: nat, n: nat, tried: seq<seq<int>>)
    requires first <= n < |ids| && Origin(was, ids) && TriedOk(key, was, old')
    requires forall i | first <= i < |ids| :: was[ids[i]].inTried
    requires TriedBack(key, was, ids, first, n, tried)
    ensures |tried[key.TriedBucket(was[ids[n]].addr)]| < TRIED_BUCKET_SIZE
  {
    var b := key.TriedBucket(was[ids[n]].addr);
    var back := seq(|tried[b]|, i requires 0 <= i < |tried[b]| => ids[tried[b][i]]) + [ids[n]];
    forall i | 0 <= i < |back| ensures back[i] in old'[b] {
      var x := if i < |tried[b]| then tried[b][i] else n;
      var id := ids[x];
      assert id in old'[key.TriedBucket(was[id].addr)];
    }
    NoDuplicatesBound(back, old'[b]);
  }

  method ReadTried(key: Key, f: File, info0: Infos, addrs0: map<NetAddr, int>, random0: seq<int>,
                   ghost was: Infos, ghost old': seq<seq<int>>, ghost ids: seq<int>)
    returns (info: Infos, addrs: map<NetAddr, int>, random: seq<int>, tried: seq<seq<int>>, lost: int)
    requires 0 <= f.nTried == |f.tried| && 0 <= f.nNew && |ids| == f.nNew + f.nTried
    requires Origin(was, ids) && TriedOk(key, was, old')
    requires ReadBack(was, ids, f.nNew, info0, addrs0, random0)
    requires forall i | 0 <= i < f.nTried :: f.tried[i] == Save(was[ids[f.nNew + i]])
    requires forall i | f.nNew <= i < |ids| :: was[ids[i]].inTried
    ensures ReadBack(was, ids, |ids|, info, addrs, random)
    ensures TriedBack(key, was, ids, f.nNew, |ids|, tried)
    ensures lost == 0
  {
    hide TriedOk;
    info, addrs, random, lost := info0, addrs0, random0, 0;
    tried := seq(TRIED_BUCKET_COUNT, _ => []);
    var idCount := f.nNew;
    for n := 0 to f.nTried
      invariant idCount == f.nNew + n && lost == 0
      invariant ReadBack(was, ids, idCount, info, addrs, random)
      invariant TriedBack(key, was, ids, f.nNew, idCount, tried)
    {
      RoomInBucket(key, was, old', ids, f.nNew, idCount, tried);
      ReadOneMore(was, ids, idCount, info, addrs, random);
      var k := key.TriedBucket(f.tried[n].addr);
      if |tried[k]| < TRIED_BUCKET_SIZE {
        var e := Load(f.tried[n], |random|, true);
        random := random + [idCount];
        info := info[idCount := e];
        addrs := addrs[e.addr.ip := idCount];
        PushTried(key, was, ids, f.nNew, idCount, tried);
        tried := tried[k := tried[k] + [idCount]];
        idCount := idCount + 1;
      } else {
        lost := lost + 1;
      }
    }
  }

  lemma PushTried(key: Key, was: Infos, ids: seq<int>, first: nat, n: nat, tried: seq<seq<int>>)
    requires first <= n < |ids| && Origin(was, ids) && TriedBack(key, was, ids, first, n, tried)
    ensures var k := key.TriedBucket(was[ids[n]].addr);
      TriedBack(key, was, ids, first, n + 1, tried[k := tried[k] + [n]])
  {
    var k := key.TriedBucket(was[ids[n]].addr);
    assert n !in tried[k];
  }

  // --- the new buckets

  // news is filled from the first b lines of the file and part of the next.
  ghost predicate Filled(buckets: seq<seq<int>>, news: seq<set<int>>, b: nat, n: nat)
    requires b <= |buckets| && (b < |buckets| ==> n <= |buckets[b]|)
  {
    && |news| == |buckets|
    && (forall j | 0 <= j < b :: SameMembers(buckets[j], news[j]))
    && (b < |buckets| ==> SameMembers(buckets[b][..n], news[b]))
    && (forall j | b < j < |news| :: news[j] == {})
  }

  ghost predicate SameMembers(line: seq<int>, bucket: set<int>) {
    |line| == |bucket| && forall x :: x in line <==> x in bucket
  }

  lemma {:induction false} CountMatches(a: seq<set<int>>, x: int, b: seq<set<int>>, y: int)
    requires |a| == |b| && forall i | 0 <= i < |a| :: x in a[i] <==> y in b[i]
    ensures Count(a, x) == Count(b, y)
  {
    if a != [] {
      var n := |a| - 1;
      CountMatches(a[..n], x, b[..n], y);
    }
  }

  lemma {:induction false} CountGrows(a: seq<set<int>>, x: int, b: seq<set<int>>, y: int)
    requires |a| == |b| && forall i | 0 <= i < |a| :: x in a[i] ==> y in b[i]
    ensures Count(a, x) <= Count(b, y)
    ensures (exists i | 0 <= i < |a| :: x !in a[i] && y in b[i]) ==> Count(a, x) < Count(b, y)
  {
    if a != [] {
      var n := |a| - 1;
      CountGrows(a[..n], x, b[..n], y);
      if i :| 0 <= i < |a| && x !in a[i] && y in b[i] {
        if i < n {
          assert x !in a[..n][i] && y in b[..n][i];
        }
      }
    }
  }

  // Puts one index of the file into its bucket and counts the reference.
  lemma FillOneMore(buckets: seq<seq<int>>, news: seq<set<int>>, b: nat, n: nat)
    requires b < |buckets| && n < |buckets[b]| && NoDuplicates(buckets[b]) && Filled(buckets, news, b, n)
    ensures buckets[b][n] !in news[b]
    ensures Filled(buckets, news[b := news[b] + {buckets[b][n]}], b, n + 1)
  {
    var line, x := buckets[b], buckets[b][n];
    assert line[..n + 1] == line[..n] + [x];
    assert x !in line[..n];
  }

  // Every reference still to be read is one the entry had, so it is below the limit.
  lemma BelowLimit(was: seq<set<int>>, ids: seq<int>, buckets: seq<seq<int>>, news: seq<set<int>>, b: nat, n: nat)
    requires b < |buckets| == |was| && n < |buckets[b]| && Filled(buckets, news, b, n)
    requires forall j | 0 <= j < |was| :: BucketWritten(ids, was[j], buckets[j])
    ensures 0 <= buckets[b][n] < |ids|
    ensures Count(news, buckets[b][n]) < Count(was, ids[buckets[b][n]])
  {
    var x := buckets[b][n];
    assert BucketWritten(ids, was[b], buckets[b]) && x in buckets[b];
    assert buckets[b][..n] <= buckets[b];
    FillOneMore(buckets, news, b, n);
    forall i | 0 <= i < |news| ensures x in news[i] ==> ids[x] in was[i] {
      assert BucketWritten(ids, was[i], buckets[i]);
      assert i == b ==> (x in buckets[b][..n] <==> x in news[b]);
    }
    assert x !in news[b] && ids[x] in was[b];
    CountGrows(news, x, was, ids[x]);
  }

  ghost predicate References(info0: Infos, info: Infos, news: seq<set<int>>) {
    && info.Keys == info0.Keys
    && forall i | i in info :: info[i] == info0[i].(refCount := Count(news, i))
  }

  lemma ReferOneMore(info0: Infos, info: Infos, news: seq<set<int>>, b: nat, x: int)
    requires References(info0, info, news) && b < |news| && x !in news[b] && x in info
    ensures References(info0, info[x := info[x].(refCount := info[x].refCount + 1)], news[b := news[b] + {x}])
  {
    forall i ensures Count(news[b := news[b] + {x}], i) == Count(news, i) + if i == x then 1 else 0 {
      CountUpdate(news, b, news[b] + {x}, i);
    }
  }

  method ReadBuckets(f: File, info0: Infos, ghost was: seq<set<int>>, ghost ids: seq<int>) returns (info: Infos, news: seq<set<int>>)
    requires |f.buckets| == |was|
    requires forall j | 0 <= j < |was| :: BucketWritten(ids, was[j], f.buckets[j])
    requires forall i | 0 <= i < |ids| :: Count(was, ids[i]) <= NEW_BUCKETS_PER_ADDRESS
    requires forall i | 0 <= i < |ids| :: i in info0
    requires forall i | i in info0 :: info0[i].refCount == 0
    ensures References(info0, info, news)
    ensures Filled(f.buckets, news, |f.buckets|, 0)
  {
    info := info0;
    news := seq(|f.buckets|, _ => {});
    forall i ensures Count(news, i) == 0 {
      CountZero(news, i);
    }
    for b := 0 to |f.buckets|
      invariant Filled(f.buckets, news, b, 0)
      invariant References(info0, info, news)
    {
      var line := f.buckets[b];
      for n := 0 to |line|
        invariant Filled(f.buckets, news, b, n)
        invariant References(info0, info, news)
      {
        BelowLimit(was, ids, f.buckets, news, b, n);
        assert BucketWritten(ids, was[b], f.buckets[b]);
        FillOneMore(f.buckets, news, b, n);
        ReferOneMore(info0, info, news, b, line[n]);
        if info[line[n]].refCount < NEW_BUCKETS_PER_ADDRESS {
          info := info[line[n] := info[line[n]].(refCount := info[line[n]].refCount + 1)];
          news := news[b := news[b] + {line[n]}];
        }
      }
      assert line[..|line|] == line;
    }
  }

  // --- the round trip

  // Entry n is what entry ids[n] was, but for nLastTry.
  ghost predicate SameEntries(was: Infos, info: Infos, ids: seq<int>) {
    && (forall n :: n in info <==> 0 <= n < |ids|)
    && (forall n | 0 <= n < |ids| :: ids[n] in was && info[n] == was[ids[n]].(lastTry := 0, randomPos := n))
  }

  ghost predicate SameNews(was: seq<set<int>>, news: seq<set<int>>, ids: seq<int>) {
    && |news| == |was|
    && forall b, n | 0 <= b < |was| && 0 <= n < |ids| :: n in news[b] <==> ids[n] in was[b]
  }

  ghost predicate SameTried(was: seq<seq<int>>, tried: seq<seq<int>>, ids: seq<int>) {
    && |tried| == |was|
    && (forall b | 0 <= b < |was| :: |tried[b]| == |was[b]|)
    && (forall b, n | 0 <= b < |was| && 0 <= n < |ids| :: n in tried[b] <==> ids[n] in was[b])
  }

  /** t is s with id ids[n] renamed to n: same entries but for nLastTry, same
      members of every new and every tried bucket, same counters. */
  ghost predicate Renamed(s: Book, t: Book, ids: seq<int>) {
    && NoDuplicates(ids) && (forall id :: id in ids <==> id in s.info)
    && t.idCount == |ids| && t.nNew == s.nNew && t.nTried == s.nTried
    && SameEntries(s.info, t.info, ids)
    && SameNews(s.news, t.news, ids)
    && SameTried(s.tried, t.tried, ids)
  }

  lemma OriginOf(s: Book, newIds: seq<int>, triedIds: seq<int>)
    requires AddrOk(s.info, s.addrs)
    requires Enumerates(newIds, Untried(s.info)) && Enumerates(triedIds, Tried(s.info))
    ensures Origin(s.info, newIds + triedIds)
    ensures forall id :: id in newIds + triedIds <==> id in s.info
    ensures forall i | 0 <= i < |newIds| :: newIds[i] in s.info && !s.info[newIds[i]].inTried
    ensures forall i | 0 <= i < |triedIds| :: triedIds[i] in s.info && s.info[triedIds[i]].inTried
  {
    forall i | 0 <= i < |newIds| ensures newIds[i] in Untried(s.info) {
      var id := newIds[i];
      assert id in newIds;
    }
    forall i | 0 <= i < |triedIds| ensures triedIds[i] in Tried(s.info) {
      var id := triedIds[i];
      assert id in triedIds;
    }
    forall x, y | x in s.info && y in s.info && s.info[x].addr.ip == s.info[y].addr.ip ensures x == y {
      assert s.addrs[s.info[x].addr.ip] == x && s.addrs[s.info[y].addr.ip] == y;
    }
  }

  // The references counted while reading are those the entries had.
  lemma SameReferences(key: Key, s: Book, f: File, newIds: seq<int>, triedIds: seq<int>, news: seq<set<int>>, i: nat)
    requires BookOk(key, s, NONE_DUE) && Written(s, f, newIds, triedIds)
    requires Filled(f.buckets, news, |f.buckets|, 0)
    requires i < |newIds| + |triedIds|
    ensures (newIds + triedIds)[i] in s.info
    ensures Count(news, i) == s.info[(newIds + triedIds)[i]].refCount
    ensures forall b | 0 <= b < |news| :: i in news[b] <==> (newIds + triedIds)[i] in s.news[b]
  {
    hide RandomOk, TriedOk;
    OriginOf(s, newIds, triedIds);
    var id := (newIds + triedIds)[i];
    forall b | 0 <= b < |news| ensures i in news[b] <==> id in s.news[b] {
      assert SameMembers(f.buckets[b], news[b]) && BucketWritten(newIds, s.news[b], f.buckets[b]);
      assert i in f.buckets[b] <==> i in news[b];
    }
    CountMatches(news, i, s.news, id);
    CountZero(s.news, id);
    assert EntryOk(s.info[id]);
  }

  lemma RestoreNew(key: Key, s: Book, f: File, newIds: seq<int>, triedIds: seq<int>, info: Infos, news: seq<set<int>>)
    requires BookOk(key, s, NONE_DUE) && Written(s, f, newIds, triedIds)
    requires Filled(f.buckets, news, |f.buckets|, 0)
    requires SameEntries(s.info, info, newIds + triedIds)
    ensures NewOk(info, news, NONE_DUE)
  {
    hide RandomOk, TriedOk, AddrOk, EntriesOk;
    OriginOf(s, newIds, triedIds);
    forall b, x | 0 <= b < |news| && x in news[b] ensures x in info && !info[x].inTried {
      assert SameMembers(f.buckets[b], news[b]) && x in f.buckets[b];
      assert BucketWritten(newIds, s.news[b], f.buckets[b]);
    }
    forall b | 0 <= b < |news| ensures |news[b]| <= NEW_BUCKET_SIZE {
      assert SameMembers(f.buckets[b], news[b]) && BucketWritten(newIds, s.news[b], f.buckets[b]);
    }
    forall n | n in info ensures info[n].refCount == Count(news, n) {
      SameReferences(key, s, f, newIds, triedIds, news, n);
    }
  }

  lemma RestoreTried(key: Key, s: Book, ids: seq<int>, first: nat, info: Infos, tried: seq<seq<int>>)
    requires TriedOk(key, s.info, s.tried) && Origin(s.info, ids) && first <= |ids|
    requires forall id :: id in ids <==> id in s.info
    requires forall i | 0 <= i < |ids| :: s.info[ids[i]].inTried <==> i >= first
    requires TriedBack(key, s.info, ids, first, |ids|, tried)
    requires SameEntries(s.info, info, ids)
    ensures TriedOk(key, info, tried) && SameTried(s.tried, tried, ids)
  {
    forall b, n | 0 <= b < |s.tried| && 0 <= n < |ids| ensures n in tried[b] <==> ids[n] in s.tried[b] {
      SameTriedMember(key, s, ids, first, tried, b, n);
    }
    forall b | 0 <= b < |s.tried| ensures |tried[b]| == |s.tried[b]| {
      var back := seq(|tried[b]|, i requires 0 <= i < |tried[b]| => ids[tried[b][i]]);
      forall i | 0 <= i < |back| ensures back[i] in s.tried[b] {
        var n := tried[b][i];
        assert n in tried[b];
      }
      NoDuplicatesBound(back, s.tried[b]);
      forall i | 0 <= i < |s.tried[b]| ensures s.tried[b][i] in back {
        var id := s.tried[b][i];
        assert id in s.info && id in ids;
        var n :| 0 <= n < |ids| && ids[n] == id;
        assert n in tried[b];
        var j :| 0 <= j < |tried[b]| && tried[b][j] == n;
        assert back[j] == id;
      }
      NoDuplicatesBound(s.tried[b], back);
    }
  }

  lemma SameTriedMember(key: Key, s: Book, ids: seq<int>, first: nat, tried: seq<seq<int>>, b: nat, n: nat)
    requires TriedOk(key, s.info, s.tried) && Origin(s.info, ids) && first <= |ids| && b < |s.tried| && n < |ids|
    requires forall i | 0 <= i < |ids| :: s.info[ids[i]].inTried <==> i >= first
    requires TriedBack(key, s.info, ids, first, |ids|, tried)
    ensures n in tried[b] <==> ids[n] in s.tried[b]
  {
    var id := ids[n];
    if n in tried[b] {
      var i :| 0 <= i < |tried[b]| && tried[b][i] == n;
      assert id in s.tried[key.TriedBucket(s.info[id].addr)];
    }
    if id in s.tried[b] {
      var i :| 0 <= i < |s.tried[b]| && s.tried[b][i] == id;
      assert n in tried[key.TriedBucket(s.info[ids[n]].addr)];
    }
  }

  lemma {:induction false} RangeSize(x: set<int>, lo: int, hi: int)
    requires lo <= hi && forall n :: n in x <==> lo <= n < hi
    ensures |x| == hi - lo
  {
    if lo == hi {
      assert forall n :: n in x ==> lo <= n < hi;
      assert x == {};
    } else {
      RangeSize(x - {hi - 1}, lo, hi - 1);
    }
  }

  lemma RestoreCounts(was: Infos, ids: seq<int>, first: nat, info: Infos)
    requires Origin(was, ids) && first <= |ids|
    requires forall i | 0 <= i < |ids| :: was[ids[i]].inTried <==> i >= first
    requires SameEntries(was, info, ids)
    ensures |Tried(info)| == |ids| - first && |Untried(info)| == first
  {
    RangeSize(Tried(info), first, |ids|);
    RangeSize(Untried(info), 0, first);
  }

  lemma RestoreRest(s: Book, ids: seq<int>, info: Infos, addrs: map<NetAddr, int>, random: seq<int>)
    requires EntriesOk(s.info, s.idCount) && Origin(s.info, ids)
    requires |random| == |ids| && forall i | 0 <= i < |ids| :: random[i] == i
    requires SameEntries(s.info, info, ids)
    ensures EntriesOk(info, |ids|) && RandomOk(info, random)
  {
    forall n | n in info ensures EntryOk(info[n]) {
      assert EntryOk(s.info[ids[n]]);
    }
  }

  /** Reading what was written from a manager in order gives a manager in order
      that differs from it only in ids, nLastTry and the order within vRandom and
      the tried buckets. */
  method Deserialize(key: Key, f: File, ghost s: Book) returns (m: CAddrMan)
    requires BookOk(key, s, NONE_DUE) && IsFileOf(s, f)
    ensures fresh(m) && m.key == key && m.Valid()
    ensures exists ids :: Renamed(s, m.Now(), ids)
  {
    hide EntriesOk, RandomOk, AddrOk, NewOk, TriedOk, Tried, Untried, Written, Renamed, Origin, ReadBack, TriedBack, References, Filled, BucketWritten;
    ghost var newIds, triedIds :| Written(s, f, newIds, triedIds);
    ghost var ids := newIds + triedIds;
    FileShape(key, s, f, newIds, triedIds);
    m := new CAddrMan(key);
    var info, addrs, random := ReadNew(f, s.info, ids);
    var tried, lost;
    info, addrs, random, tried, lost := ReadTried(key, f, info, addrs, random, s.info, s.tried, ids);
    ghost var read := info;
    FreshEntries(s.info, ids, info, addrs, random);
    var news;
    info, news := ReadBuckets(f, info, s.news, newIds);
    Restored(key, s, f, newIds, triedIds, read, Book(|random|, info, addrs, random, f.nTried, tried, f.nNew, news));
    m.nNew, m.nTried := f.nNew, f.nTried - lost;
    m.idCount, m.info, m.addrs, m.random, m.tried, m.news := |random|, info, addrs, random, tried, news;
  }

  // What a written file gives the reading loops to rely on
  lemma FileShape(key: Key, s: Book, f: File, newIds: seq<int>, triedIds: seq<int>)
    requires BookOk(key, s, NONE_DUE) && Written(s, f, newIds, triedIds)
    ensures var ids := newIds + triedIds;
      && Origin(s.info, ids)
      && 0 <= f.nNew == |f.news| == |newIds| && 0 <= f.nTried == |f.tried| == |triedIds|
      && (forall i | 0 <= i < f.nNew :: f.news[i] == Save(s.info[ids[i]]) && !s.info[ids[i]].inTried)
      && (forall i | 0 <= i < f.nTried :: f.tried[i] == Save(s.info[ids[f.nNew + i]]))
      && (forall i | f.nNew <= i < |ids| :: s.info[ids[i]].inTried)
    ensures |f.buckets| == |s.news|
    ensures forall b | 0 <= b < |s.news| :: BucketWritten(newIds, s.news[b], f.buckets[b])
    ensures forall i | 0 <= i < |newIds| :: Count(s.news, newIds[i]) <= NEW_BUCKETS_PER_ADDRESS
  {
    hide EntriesOk, RandomOk, AddrOk, NewOk, TriedOk, Tried, Untried;
    OriginOf(s, newIds, triedIds);
    CountsWithinLimit(s, newIds);
  }

  // No entry has a reference before the buckets are read.
  lemma FreshEntries(was: Infos, ids: seq<int>, info: Infos, addrs: map<NetAddr, int>, random: seq<int>)
    requires Origin(was, ids) && ReadBack(was, ids, |ids|, info, addrs, random)
    ensures forall i | 0 <= i < |ids| :: i in info
    ensures forall i | i in info :: info[i].refCount == 0
  {
    hide AddrOk;
  }

  lemma EntriesBack(key: Key, s: Book, f: File, newIds: seq<int>, triedIds: seq<int>, read: Infos, t: Book)
    requires BookOk(key, s, NONE_DUE) && Written(s, f, newIds, triedIds) && Origin(s.info, newIds + triedIds)
    requires ReadBack(s.info, newIds + triedIds, |newIds + triedIds|, read, t.addrs, t.random)
    requires References(read, t.info, t.news) && Filled(f.buckets, t.news, |f.buckets|, 0)
    ensures SameEntries(s.info, t.info, newIds + triedIds) && SameNews(s.news, t.news, newIds + triedIds)
    ensures AddrOk(t.info, t.addrs)
  {
    hide EntriesOk, RandomOk, AddrOk, TriedOk, NewOk, Tried, Untried, BucketWritten, SameMembers;
    var ids := newIds + triedIds;
    forall n | 0 <= n < |ids|
      ensures t.info[n] == s.info[ids[n]].(lastTry := 0, randomPos := n)
      ensures forall b | 0 <= b < |t.news| :: n in t.news[b] <==> ids[n] in s.news[b]
    {
      SameReferences(key, s, f, newIds, triedIds, t.news, n);
    }
    SameAddresses(read, t.info, t.addrs);
  }

  // What the loops have read amounts to the manager that was written.
  lemma Restored(key: Key, s: Book, f: File, newIds: seq<int>, triedIds: seq<int>, read: Infos, t: Book)
    requires BookOk(key, s, NONE_DUE) && Written(s, f, newIds, triedIds) && Origin(s.info, newIds + triedIds)
    requires ReadBack(s.info, newIds + triedIds, |newIds + triedIds|, read, t.addrs, t.random)
    requires TriedBack(key, s.info, newIds + triedIds, |newIds|, |newIds + triedIds|, t.tried)
    requires References(read, t.info, t.news) && Filled(f.buckets, t.news, |f.buckets|, 0)
    requires t.idCount == |t.random| && t.nNew == f.nNew && t.nTried == f.nTried
    ensures BookOk(key, t, NONE_DUE) && Renamed(s, t, newIds + triedIds)
  {
    hide EntriesOk, RandomOk, AddrOk, TriedOk, NewOk, Tried, Untried, SameEntries, SameNews, SameTried, Filled, References, TriedBack;
    var ids := newIds + triedIds;
    OriginOf(s, newIds, triedIds);
    EntriesBack(key, s, f, newIds, triedIds, read, t);
    RestoreNew(key, s, f, newIds, triedIds, t.info, t.news);
    RestoreTried(key, s, ids, |newIds|, t.info, t.tried);
    RestoreRest(s, ids, t.info, t.addrs, t.random);
    RestoreCounts(s.info, ids, |newIds|, t.info);
  }

  lemma SameAddresses(info: Infos, info': Infos, addrs: map<NetAddr, int>)
    requires AddrOk(info, addrs) && info'.Keys == info.Keys
    requires forall i | i in info :: info'[i].addr == info[i].addr
    ensures AddrOk(info', addrs)
  {}

  lemma CountsWithinLimit(s: Book, newIds: seq<int>)
    requires EntriesOk(s.info, s.idCount) && NewOk(s.info, s.news, NONE_DUE)
    requires forall i | 0 <= i < |newIds| :: newIds[i] in s.info && !s.info[newIds[i]].inTried
    ensures forall i | 0 <= i < |newIds| :: Count(s.news, newIds[i]) <= NEW_BUCKETS_PER_ADDRESS
  {
    forall i | 0 <= i < |newIds| ensures Count(s.news, newIds[i]) <= NEW_BUCKETS_PER_ADDRESS {
      var id := newIds[i];
      assert id in s.info && EntryOk(s.info[id]);
    }
  }
}
