/**
 The address manager: one table of entries and five structures that repeat parts
 of it, all changed in place.
 */
module AddrMan {
  import opened Basics

  const TRIED_BUCKET_COUNT := 64
  const TRIED_BUCKET_SIZE := 64
  const NEW_BUCKET_COUNT := 256
  const NEW_BUCKET_SIZE := 64
  const NEW_BUCKETS_PER_ADDRESS := 4
  const TRIED_ENTRIES_INSPECT_ON_EVICT := 4
  const HORIZON_DAYS := 30
  const RETRIES := 3
  const MAX_FAILURES := 10
  const MIN_FAIL_DAYS := 7
  const GETADDR_MAX_PCT := 23
  const GETADDR_MAX := 2500

  type NetAddr = nat

  datatype Service = Service(ip: NetAddr, port: nat)

  datatype Address = Address(service: Service, services: set<nat>, time: int, routable: bool)

  // CAddrInfo
  datatype Info = Info(addr: Service, services: set<nat>, time: int, source: NetAddr,
                       lastSuccess: int, lastTry: int, attempts: int,
                       refCount: int, inTried: bool, randomPos: int)
  {
    predicate IsTerrible(now: int) {
      if lastTry != 0 && lastTry >= now - 60 then false
      else
        || time > now + 10 * 60
        || time == 0 || now - time > HORIZON_DAYS * 86400
        || (lastSuccess == 0 && attempts >= RETRIES)
        || (now - lastSuccess > MIN_FAIL_DAYS * 86400 && attempts >= MAX_FAILURES)
    }
  }

  type Infos = map<int, Info>

  // The secret key, through what it is used for: hashes that pick buckets
  datatype Key = Key(triedHash: Service -> nat, newHash: (NetAddr, NetAddr) -> nat) {
    function TriedBucket(addr: Service): nat {
      triedHash(addr) % TRIED_BUCKET_COUNT
    }

    function NewBucket(addr: Service, source: NetAddr): nat {
      newHash(addr.ip, source) % NEW_BUCKET_COUNT
    }
  }

  // --- the invariant, structure by structure

  // In how many of the buckets the id is
  ghost function Count(buckets: seq<set<int>>, id: int): nat {
    if buckets == [] then 0 else Count(buckets[..|buckets| - 1], id) + if id in buckets[|buckets| - 1] then 1 else 0
  }

  ghost predicate EntryOk(e: Info) {
    && e.lastTry >= 0 && e.lastSuccess >= 0
    && if e.inTried then e.refCount == 0 && e.lastSuccess > 0 else 1 <= e.refCount <= NEW_BUCKETS_PER_ADDRESS
  }

  ghost predicate EntriesOk(info: Infos, idCount: int) {
    && idCount >= 0
    && forall id | id in info :: 0 <= id < idCount && EntryOk(info[id])
  }

  // vRandom and nRandomPos are inverse to each other.
  ghost predicate RandomOk(info: Infos, random: seq<int>) {
    && (forall id | id in info :: 0 <= info[id].randomPos < |random| && random[info[id].randomPos] == id)
    && (forall i | 0 <= i < |random| :: random[i] in info && info[random[i]].randomPos == i)
  }

  // mapAddr inverts the addresses of mapInfo.
  ghost predicate AddrOk(info: Infos, addrs: map<NetAddr, int>) {
    && (forall id | id in info :: info[id].addr.ip in addrs && addrs[info[id].addr.ip] == id)
    && (forall a | a in addrs :: addrs[a] in info && info[addrs[a]].addr.ip == a)
  }

  // Reference counts are exact, but for one reference still to be placed.
  ghost predicate NewOk(info: Infos, buckets: seq<set<int>>, due: int) {
    && |buckets| == NEW_BUCKET_COUNT
    && (forall b, id | 0 <= b < |buckets| && id in buckets[b] :: id in info && !info[id].inTried)
    && (forall b | 0 <= b < |buckets| :: |buckets[b]| <= NEW_BUCKET_SIZE)
    && (forall id | id in info && !info[id].inTried ::
          info[id].refCount == Count(buckets, id) + if id == due then 1 else 0)
  }

  // Tried ids are in their own bucket, once.
  ghost predicate TriedOk(key: Key, info: Infos, buckets: seq<seq<int>>) {
    && |buckets| == TRIED_BUCKET_COUNT
    && (forall b, i | 0 <= b < |buckets| && 0 <= i < |buckets[b]| ::
          buckets[b][i] in info && info[buckets[b][i]].inTried && key.TriedBucket(info[buckets[b][i]].addr) == b)
    && (forall b, i, j | 0 <= b < |buckets| && 0 <= i < j < |buckets[b]| :: buckets[b][i] != buckets[b][j])
    && (forall b | 0 <= b < |buckets| :: |buckets[b]| <= TRIED_BUCKET_SIZE)
    && (forall id | id in info && info[id].inTried :: id in buckets[key.TriedBucket(info[id].addr)])
  }

  function Tried(info: Infos): set<int> {
    set id | id in info && info[id].inTried
  }

  function Untried(info: Infos): set<int> {
    set id | id in info && !info[id].inTried
  }

  const NONE_DUE := -1

  lemma {:induction false} CountUpdate(buckets: seq<set<int>>, b: nat, s: set<int>, id: int)
    requires b < |buckets|
    ensures Count(buckets[b := s], id)
         == Count(buckets, id) - (if id in buckets[b] then 1 else 0) + if id in s then 1 else 0
  {
    var n := |buckets| - 1;
    if b == n {
      assert buckets[b := s][..n] == buckets[..n];
    } else {
      CountUpdate(buckets[..n], b, s, id);
      assert buckets[b := s][..n] == buckets[..n][b := s];
    }
  }

  lemma {:induction false} CountPrefix(news: seq<set<int>>, b: nat, id: int)
    requires b <= |news|
    ensures Count(news[..b], id) <= Count(news, id)
  {
    if b < |news| {
      CountPrefix(news[..|news| - 1], b, id);
      assert news[..|news| - 1][..b] == news[..b];
    } else {
      assert news[..b] == news;
    }
  }

  lemma CountNext(news: seq<set<int>>, b: nat, id: int)
    requires b < |news|
    ensures Count(news[..b + 1], id) == Count(news[..b], id) + if id in news[b] then 1 else 0
    ensures Count(news[..b + 1], id) <= Count(news, id)
  {
    CountPrefix(news, b + 1, id);
    assert news[..b + 1][..b] == news[..b];
  }

  lemma {:induction false} CountZero(buckets: seq<set<int>>, id: int)
    ensures Count(buckets, id) == 0 <==> forall b | 0 <= b < |buckets| :: id !in buckets[b]
    ensures Count(buckets, id) <= |buckets|
  {
    if buckets != [] {
      var n := |buckets| - 1;
      CountZero(buckets[..n], id);
      assert forall b | 0 <= b < n :: buckets[..n][b] == buckets[b];
    }
  }

  // --- how changes to the table carry over to the other structures

  // Nothing but statistics and places in vRandom differs.
  ghost predicate Similar(info: Infos, info': Infos) {
    && info'.Keys == info.Keys
    && forall id | id in info :: info'[id].addr == info[id].addr && info'[id].source == info[id].source
                            && info'[id].refCount == info[id].refCount && info'[id].inTried == info[id].inTried
  }

  lemma SimilarKeeps(key: Key, info: Infos, info': Infos, addrs: map<NetAddr, int>, news: seq<set<int>>, due: int, tried: seq<seq<int>>)
    requires Similar(info, info')
    ensures AddrOk(info, addrs) ==> AddrOk(info', addrs)
    ensures NewOk(info, news, due) ==> NewOk(info', news, due)
    ensures TriedOk(key, info, tried) ==> TriedOk(key, info', tried)
    ensures Tried(info') == Tried(info) && Untried(info') == Untried(info)
  {
    forall id | id in info'
      ensures id in info && info'[id].addr == info[id].addr && info'[id].inTried == info[id].inTried
    {}
  }

  // One reference of an id goes away, and with the last one the id.
  lemma DropFromNew(info: Infos, news: seq<set<int>>, due: int, b: nat, id: int)
    requires NewOk(info, news, due) && b < |news| && id in news[b] && id != due
    ensures var news' := news[b := news[b] - {id}];
      && info[id].refCount >= 1
      && (info[id].refCount > 1 ==> NewOk(info[id := info[id].(refCount := info[id].refCount - 1)], news', due))
      && (info[id].refCount == 1 ==> NewOk(info - {id}, news', due))
  {
    var news' := news[b := news[b] - {id}];
    forall x ensures Count(news', x) == Count(news, x) - if x == id then 1 else 0 {
      CountUpdate(news, b, news[b] - {id}, x);
    }
    CountZero(news', id);
  }

  lemma DropLastRandom(info: Infos, random: seq<int>, id: int)
    requires RandomOk(info, random) && id in info && info[id].randomPos == |random| - 1
    ensures RandomOk(info - {id}, random[..|random| - 1])
  {}

  lemma DropUntried(key: Key, info: Infos, addrs: map<NetAddr, int>, tried: seq<seq<int>>, id: int)
    requires id in info && !info[id].inTried
    ensures AddrOk(info, addrs) ==> AddrOk(info - {id}, addrs - {info[id].addr.ip})
    ensures TriedOk(key, info, tried) ==> TriedOk(key, info - {id}, tried)
    ensures Tried(info - {id}) == Tried(info)
    ensures Untried(info - {id}) == Untried(info) - {id}
  {}

  // A reference count says nothing to the structures other than the new buckets.
  lemma Recount(key: Key, info: Infos, addrs: map<NetAddr, int>, random: seq<int>, tried: seq<seq<int>>, id: int, n: int)
    requires id in info && !info[id].inTried
    ensures var info' := info[id := info[id].(refCount := n)];
      && (RandomOk(info, random) ==> RandomOk(info', random))
      && (AddrOk(info, addrs) ==> AddrOk(info', addrs))
      && (TriedOk(key, info, tried) ==> TriedOk(key, info', tried))
      && Tried(info') == Tried(info) && Untried(info') == Untried(info)
  {}

  // A reference that is counted is put into a bucket.
  lemma PlaceInNew(info: Infos, news: seq<set<int>>, b: nat, id: int)
    requires NewOk(info, news, id) && b < |news| && id in info && !info[id].inTried
    requires id !in news[b] && |news[b]| < NEW_BUCKET_SIZE && NONE_DUE !in info
    ensures NewOk(info, news[b := news[b] + {id}], NONE_DUE)
  {
    forall x ensures Count(news[b := news[b] + {id}], x) == Count(news, x) + if x == id then 1 else 0 {
      CountUpdate(news, b, news[b] + {id}, x);
    }
  }

  // --- moving between the new and the tried buckets

  function RemoveAll(news: seq<set<int>>, id: int): (r: seq<set<int>>)
    ensures |r| == |news| && forall b | 0 <= b < |news| :: r[b] == news[b] - {id}
  {
    seq(|news|, b requires 0 <= b < |news| => news[b] - {id})
  }

  lemma {:induction false} CountRemoveAll(news: seq<set<int>>, id: int, x: int)
    ensures Count(RemoveAll(news, id), x) == if x == id then 0 else Count(news, x)
  {
    if news != [] {
      var n := |news| - 1;
      CountRemoveAll(news[..n], id, x);
      assert RemoveAll(news, id)[..n] == RemoveAll(news[..n], id);
    }
  }

  function Promoted(e: Info): Info {
    e.(inTried := true, refCount := 0)
  }

  function Demoted(e: Info): Info {
    e.(inTried := false, refCount := 1)
  }

  lemma PromoteNew(info: Infos, news: seq<set<int>>, id: int)
    requires NewOk(info, news, NONE_DUE) && id in info && !info[id].inTried
    ensures NewOk(info[id := Promoted(info[id])], RemoveAll(news, id), NONE_DUE)
  {
    forall x ensures Count(RemoveAll(news, id), x) == if x == id then 0 else Count(news, x) {
      CountRemoveAll(news, id, x);
    }
    forall b | 0 <= b < |news| ensures |RemoveAll(news, id)[b]| <= NEW_BUCKET_SIZE {
      Smaller(news[b], id);
    }
  }

  lemma Smaller(s: set<int>, x: int)
    ensures |s - {x}| <= |s| && (x in s ==> |s - {x}| < |s|)
  {
    if x !in s {
      assert s - {x} == s;
    }
  }

  lemma DemoteNew(info: Infos, news: seq<set<int>>, id: int, b: nat)
    requires NewOk(info, news, NONE_DUE) && id in info && info[id].inTried && NONE_DUE !in info
    requires b < |news| && |news[b]| < NEW_BUCKET_SIZE
    ensures NewOk(info[id := Demoted(info[id])], news[b := news[b] + {id}], NONE_DUE)
  {
    CountZero(news, id);
    PlaceInNew(info[id := Demoted(info[id])], news, b, id);
  }

  lemma PromoteTried(key: Key, info: Infos, tried: seq<seq<int>>, id: int, k: nat)
    requires TriedOk(key, info, tried) && id in info && !info[id].inTried
    requires k == key.TriedBucket(info[id].addr) && |tried[k]| < TRIED_BUCKET_SIZE
    ensures TriedOk(key, info[id := Promoted(info[id])], tried[k := tried[k] + [id]])
  {}

  lemma ReplaceTried(key: Key, info: Infos, tried: seq<seq<int>>, id: int, k: nat, pos: nat)
    requires TriedOk(key, info, tried) && id in info && !info[id].inTried
    requires k == key.TriedBucket(info[id].addr) && pos < |tried[k]|
    ensures var out := tried[k][pos];
      TriedOk(key, info[id := Promoted(info[id])][out := Demoted(info[out])], tried[k := tried[k][pos := id]])
  {
    var out := tried[k][pos];
    var info' := info[id := Promoted(info[id])][out := Demoted(info[out])];
    var tried' := tried[k := tried[k][pos := id]];
    forall x | x in info' && info'[x].inTried ensures x in tried'[key.TriedBucket(info'[x].addr)] {
      if x == id {
        assert tried'[k][pos] == id;
      } else {
        var i :| 0 <= i < |tried[key.TriedBucket(info[x].addr)]| && tried[key.TriedBucket(info[x].addr)][i] == x;
        assert tried'[key.TriedBucket(info[x].addr)][i] == x;
      }
    }
  }

  lemma SwapTried(key: Key, info: Infos, tried: seq<seq<int>>, k: nat, i: nat, j: nat)
    requires TriedOk(key, info, tried) && k < |tried| && i < |tried[k]| && j < |tried[k]|
    ensures TriedOk(key, info, tried[k := tried[k][i := tried[k][j]][j := tried[k][i]]])
  {
    var v := tried[k];
    var v' := v[i := v[j]][j := v[i]];
    forall x | x in v ensures x in v' {
      var n :| 0 <= n < |v| && v[n] == x;
      assert v'[if n == i then j else if n == j then i else n] == x;
    }
  }

  lemma TriedMember(key: Key, info: Infos, tried: seq<seq<int>>, k: nat, i: nat)
    requires TriedOk(key, info, tried) && k < |tried| && i < |tried[k]|
    ensures tried[k][i] in info && info[tried[k][i]].inTried
  {}

  lemma TriedShape(key: Key, info: Infos, tried: seq<seq<int>>)
    requires TriedOk(key, info, tried)
    ensures |tried| == TRIED_BUCKET_COUNT
  {}

  // The other structures do not look at which kind of bucket an id is in.
  lemma Reclassify(info: Infos, addrs: map<NetAddr, int>, random: seq<int>, idCount: int, id: int, e: Info)
    requires id in info && EntryOk(e)
    requires e.addr == info[id].addr && e.randomPos == info[id].randomPos
    ensures EntriesOk(info, idCount) ==> EntriesOk(info[id := e], idCount)
    ensures RandomOk(info, random) ==> RandomOk(info[id := e], random)
    ensures AddrOk(info, addrs) ==> AddrOk(info[id := e], addrs)
  {}

  lemma CountPromoted(info: Infos, id: int)
    requires id in info && !info[id].inTried
    ensures Tried(info[id := Promoted(info[id])]) == Tried(info) + {id}
    ensures Untried(info[id := Promoted(info[id])]) == Untried(info) - {id}
    ensures |Tried(info[id := Promoted(info[id])])| == |Tried(info)| + 1
    ensures |Untried(info[id := Promoted(info[id])])| == |Untried(info)| - 1
  {
    assert id !in Tried(info) && id in Untried(info);
  }

  lemma CountDemoted(info: Infos, id: int)
    requires id in info && info[id].inTried
    ensures |Tried(info[id := Demoted(info[id])])| == |Tried(info)| - 1
    ensures |Untried(info[id := Demoted(info[id])])| == |Untried(info)| + 1
  {
    assert Tried(info[id := Demoted(info[id])]) == Tried(info) - {id};
    assert Untried(info[id := Demoted(info[id])]) == Untried(info) + {id};
    assert id in Tried(info) && id !in Untried(info);
  }

  // --- all structures together

  datatype Book = Book(idCount: int, info: Infos, addrs: map<NetAddr, int>, random: seq<int>,
                       nTried: int, tried: seq<seq<int>>, nNew: int, news: seq<set<int>>)

  // What Check_ checks, and more; due is the id whose newest reference is
  // counted already but not yet in its bucket.
  ghost predicate BookOk(key: Key, s: Book, due: int) {
    && EntriesOk(s.info, s.idCount)
    && RandomOk(s.info, s.random)
    && AddrOk(s.info, s.addrs)
    && NewOk(s.info, s.news, due)
    && TriedOk(key, s.info, s.tried)
    && s.nTried == |Tried(s.info)|
    && s.nNew == |Untried(s.info)|
  }

  lemma DropOneReference(key: Key, s: Book, due: int, b: nat, id: int)
    requires BookOk(key, s, due) && b < |s.news| && id in s.news[b] && id != due
    requires s.info[id].refCount > 1
    ensures BookOk(key, s.(info := s.info[id := s.info[id].(refCount := s.info[id].refCount - 1)],
                           news := s.news[b := s.news[b] - {id}]), due)
  {
    hide AddrOk, TriedOk, RandomOk;
    DropFromNew(s.info, s.news, due, b, id);
    Recount(key, s.info, s.addrs, s.random, s.tried, id, s.info[id].refCount - 1);
  }

  lemma DropLastReference(key: Key, s: Book, s': Book, due: int, b: nat, id: int)
    requires BookOk(key, s, due) && b < |s.news| && id in s.news[b] && id != due
    requires s.info[id].refCount == 1
    requires RandomOk(s'.info, s'.random) && s'.info.Keys == s.info.Keys - {id}
    requires forall x | x in s'.info :: s'.info[x] == s.info[x].(randomPos := s'.info[x].randomPos)
    requires s' == s.(info := s'.info, random := s'.random, addrs := s.addrs - {s.info[id].addr.ip},
                      nNew := s.nNew - 1, news := s.news[b := s.news[b] - {id}])
    ensures BookOk(key, s', due)
  {
    hide AddrOk, TriedOk, RandomOk;
    DropFromNew(s.info, s.news, due, b, id);
    DropUntried(key, s.info, s.addrs, s.tried, id);
    SimilarKeeps(key, s.info - {id}, s'.info, s'.addrs, s'.news, due, s'.tried);
  }

  // Statistics of one entry change.
  lemma TouchKeeps(key: Key, s: Book, due: int, id: int, e: Info)
    requires BookOk(key, s, due) && id in s.info && EntryOk(e)
    requires e.addr == s.info[id].addr && e.source == s.info[id].source && e.randomPos == s.info[id].randomPos
    requires e.refCount == s.info[id].refCount && e.inTried == s.info[id].inTried
    ensures BookOk(key, s.(info := s.info[id := e]), due)
  {
    Reclassify(s.info, s.addrs, s.random, s.idCount, id, e);
    SimilarKeeps(key, s.info, s.info[id := e], s.addrs, s.news, due, s.tried);
    hide EntriesOk, RandomOk, AddrOk, NewOk, TriedOk;
  }

  // Entries change places in vRandom.
  lemma ShuffleKeeps(key: Key, s: Book, info: Infos, random: seq<int>)
    requires BookOk(key, s, NONE_DUE) && RandomOk(info, random) && info.Keys == s.info.Keys
    requires forall id | id in info :: info[id] == s.info[id].(randomPos := info[id].randomPos)
    ensures BookOk(key, s.(info := info, random := random), NONE_DUE)
  {
    SimilarKeeps(key, s.info, info, s.addrs, s.news, NONE_DUE, s.tried);
    assert EntriesOk(info, s.idCount);
    hide EntriesOk, RandomOk, AddrOk, NewOk, TriedOk;
  }

  // A further reference to an untried entry is counted.
  lemma ReferKeeps(key: Key, s: Book, id: int)
    requires BookOk(key, s, NONE_DUE) && id in s.info && !s.info[id].inTried
    requires s.info[id].refCount < NEW_BUCKETS_PER_ADDRESS
    ensures BookOk(key, s.(info := s.info[id := s.info[id].(refCount := s.info[id].refCount + 1)]), id)
  {
    Recount(key, s.info, s.addrs, s.random, s.tried, id, s.info[id].refCount + 1);
    assert EntryOk(s.info[id]);
    assert EntriesOk(s.info[id := s.info[id].(refCount := s.info[id].refCount + 1)], s.idCount);
    assert NewOk(s.info[id := s.info[id].(refCount := s.info[id].refCount + 1)], s.news, id);
    hide EntriesOk, RandomOk, AddrOk, NewOk, TriedOk;
  }

  // A new entry with its first reference counted
  lemma CreateKeeps(key: Key, s: Book, e: Info)
    requires BookOk(key, s, NONE_DUE) && e.addr.ip !in s.addrs
    requires EntryOk(e) && e.refCount == 1 && !e.inTried && e.randomPos == |s.random|
    ensures BookOk(key, s.(idCount := s.idCount + 1, info := s.info[s.idCount := e], addrs := s.addrs[e.addr.ip := s.idCount],
                           random := s.random + [s.idCount], nNew := s.nNew + 1), s.idCount)
  {
    CreateEntry(s.info, s.addrs, s.random, s.idCount, e);
    CreateBuckets(key, s.info, s.news, s.tried, s.idCount, e);
    hide EntriesOk, RandomOk, AddrOk, NewOk, TriedOk;
  }

  lemma CreateEntry(info: Infos, addrs: map<NetAddr, int>, random: seq<int>, id: int, e: Info)
    requires EntriesOk(info, id) && RandomOk(info, random) && AddrOk(info, addrs)
    requires EntryOk(e) && e.addr.ip !in addrs && e.randomPos == |random|
    ensures id !in info && EntriesOk(info[id := e], id + 1)
    ensures RandomOk(info[id := e], random + [id])
    ensures AddrOk(info[id := e], addrs[e.addr.ip := id])
  {}

  lemma CreateBuckets(key: Key, info: Infos, news: seq<set<int>>, tried: seq<seq<int>>, id: int, e: Info)
    requires NewOk(info, news, NONE_DUE) && TriedOk(key, info, tried) && NONE_DUE !in info
    requires id !in info && !e.inTried && e.refCount == 1
    ensures NewOk(info[id := e], news, id)
    ensures TriedOk(key, info[id := e], tried)
    ensures |Tried(info[id := e])| == |Tried(info)| && |Untried(info[id := e])| == |Untried(info)| + 1
  {
    CreateNew(info, news, id, e);
    CreateTried(key, info, tried, id, e);
    hide NewOk, TriedOk;
    assert Tried(info[id := e]) == Tried(info);
    assert Untried(info[id := e]) == Untried(info) + {id};
  }

  lemma CreateNew(info: Infos, news: seq<set<int>>, id: int, e: Info)
    requires NewOk(info, news, NONE_DUE) && NONE_DUE !in info && id !in info && !e.inTried && e.refCount == 1
    ensures NewOk(info[id := e], news, id)
  {
    CountZero(news, id);
  }

  lemma CreateTried(key: Key, info: Infos, tried: seq<seq<int>>, id: int, e: Info)
    requires TriedOk(key, info, tried) && id !in info && !e.inTried
    ensures TriedOk(key, info[id := e], tried)
  {}

  // The counted reference is put into a bucket with room.
  lemma PlaceKeeps(key: Key, s: Book, id: int, b: nat)
    requires BookOk(key, s, id) && id in s.info && !s.info[id].inTried
    requires b < |s.news| && id !in s.news[b] && |s.news[b]| < NEW_BUCKET_SIZE
    ensures BookOk(key, s.(news := s.news[b := s.news[b] + {id}]), NONE_DUE)
  {
    assert NONE_DUE !in s.info;
    PlaceInNew(s.info, s.news, b, id);
    hide EntriesOk, RandomOk, AddrOk, NewOk, TriedOk;
  }

  // An id moves to its tried bucket, where there is room.
  lemma PromoteKeeps(key: Key, s: Book, id: int, k: nat)
    requires BookOk(key, s, NONE_DUE) && id in s.info && !s.info[id].inTried && s.info[id].lastSuccess > 0
    requires k == key.TriedBucket(s.info[id].addr) && k < |s.tried| && |s.tried[k]| < TRIED_BUCKET_SIZE
    ensures BookOk(key, s.(info := s.info[id := Promoted(s.info[id])], news := RemoveAll(s.news, id), nNew := s.nNew - 1,
                           tried := s.tried[k := s.tried[k] + [id]], nTried := s.nTried + 1), NONE_DUE)
  {
    var e := Promoted(s.info[id]);
    assert EntryOk(s.info[id]);
    Reclassify(s.info, s.addrs, s.random, s.idCount, id, e);
    PromoteNew(s.info, s.news, id);
    PromoteTried(key, s.info, s.tried, id, k);
    CountPromoted(s.info, id);
    hide EntriesOk, RandomOk, AddrOk, NewOk, TriedOk, RemoveAll;
  }

  // An id takes the place of another in its tried bucket, which goes back to a
  // new bucket with room.
  lemma ReplaceKeeps(key: Key, s: Book, id: int, k: nat, pos: nat, b: nat)
    requires BookOk(key, s, NONE_DUE) && id in s.info && !s.info[id].inTried && s.info[id].lastSuccess > 0
    requires k == key.TriedBucket(s.info[id].addr) && k < |s.tried| && pos < |s.tried[k]| && s.tried[k][pos] in s.info
    requires b < |s.news| && |RemoveAll(s.news, id)[b]| < NEW_BUCKET_SIZE
    ensures var out := s.tried[k][pos];
      var news := RemoveAll(s.news, id);
      BookOk(key, s.(info := s.info[id := Promoted(s.info[id])][out := Demoted(s.info[out])],
                     news := news[b := news[b] + {out}],
                     tried := s.tried[k := s.tried[k][pos := id]]), NONE_DUE)
  {
    var out := s.tried[k][pos];
    var info := s.info[id := Promoted(s.info[id])];
    assert out != id && s.info[out].inTried;
    assert EntryOk(s.info[id]) && EntryOk(s.info[out]);
    Reclassify(s.info, s.addrs, s.random, s.idCount, id, Promoted(s.info[id]));
    Reclassify(info, s.addrs, s.random, s.idCount, out, Demoted(s.info[out]));
    PromoteNew(s.info, s.news, id);
    DemoteNew(info, RemoveAll(s.news, id), out, b);
    ReplaceTried(key, s.info, s.tried, id, k, pos);
    CountPromoted(s.info, id);
    CountDemoted(info, out);
    hide EntriesOk, RandomOk, AddrOk, NewOk, TriedOk, RemoveAll;
  }

  method GetRandInt(n: nat) returns (r: nat)
    requires n > 0
    ensures r < n
  {
    r :| r < n;
  }

  method PickFrom(s: set<int>) returns (x: int)
    requires |s| > 0
    ensures x in s
  {
    assert (forall y :: y !in s) ==> s == {};
    x :| x in s;
  }

  class CAddrMan {
    const key: Key
    var idCount: int
    var info: Infos
    var addrs: map<NetAddr, int>
    var random: seq<int>
    var nTried: int
    var tried: seq<seq<int>>
    var nNew: int
    var news: seq<set<int>>

    ghost function Now(): Book
      reads this
    {
      Book(idCount, info, addrs, random, nTried, tried, nNew, news)
    }

    ghost predicate ValidBut(due: int)
      reads this
    {
      BookOk(key, Now(), due)
    }

    ghost predicate Valid()
      reads this
    {
      ValidBut(NONE_DUE)
    }

    constructor (key: Key)
      ensures Valid() && this.key == key && info == map[]
    {
      this.key := key;
      idCount, info, addrs, random, nTried, nNew := 0, map[], map[], [], 0, 0;
      tried := seq(TRIED_BUCKET_COUNT, _ => []);
      news := seq(NEW_BUCKET_COUNT, _ => {});
    }

    method Find(addr: NetAddr) returns (id: int)
      requires Valid()
      ensures id in info <==> addr in addrs
      ensures id in info ==> info[id].addr.ip == addr && addrs[addr] == id
    {
      hide RandomOk, NewOk, TriedOk;
      if addr in addrs {
        return addrs[addr];
      }
      return -1;
    }

    method SwapRandom(pos1: int, pos2: int)
      requires 0 <= pos1 < |random| && 0 <= pos2 < |random|
      requires RandomOk(info, random)
      modifies this`info, this`random
      ensures RandomOk(info, random)
      ensures random == old(random)[pos1 := old(random)[pos2]][pos2 := old(random)[pos1]]
      ensures info.Keys == old(info).Keys
      ensures forall id | id in info :: info[id] == old(info)[id].(randomPos := info[id].randomPos)
    {
      if pos1 == pos2 {
        return;
      }
      var id1, id2 := random[pos1], random[pos2];
      info := info[id1 := info[id1].(randomPos := pos2)];
      info := info[id2 := info[id2].(randomPos := pos1)];
      random := random[pos1 := id2][pos2 := id1];
    }

    method Create(addr: Address, source: NetAddr) returns (id: int)
      modifies this`idCount, this`info, this`addrs, this`random
      ensures id == old(idCount) && idCount == id + 1
      ensures info == old(info)[id := Info(addr.service, addr.services, addr.time, source, 0, 0, 0, 0, false, |old(random)|)]
      ensures addrs == old(addrs)[addr.service.ip := id]
      ensures random == old(random) + [id]
    {
      id := idCount;
      idCount := idCount + 1;
      info := info[id := Info(addr.service, addr.services, addr.time, source, 0, 0, 0, 0, false, -1)];
      addrs := addrs[addr.service.ip := id];
      info := info[id := info[id].(randomPos := |random|)];
      random := random + [id];
    }

    // Takes an id out of vRandom, mapAddr and mapInfo.
    method Erase(id: int)
      requires id in info && RandomOk(info, random)
      modifies this`info, this`addrs, this`random, this`nNew
      ensures RandomOk(info, random) && info.Keys == old(info).Keys - {id}
      ensures forall x | x in info :: info[x] == old(info)[x].(randomPos := info[x].randomPos)
      ensures addrs == old(addrs) - {old(info)[id].addr.ip} && nNew == old(nNew) - 1
    {
      SwapRandom(info[id].randomPos, |random| - 1);
      DropLastRandom(info, random, id);
      random := random[..|random| - 1];
      addrs := addrs - {info[id].addr.ip};
      info := info - {id};
      nNew := nNew - 1;
    }

    // Takes one id out of one new bucket, and out of everything with its last
    // reference.
    method DropReference(id: int, b: nat, ghost due: int)
      requires ValidBut(due) && b < |news| && id in news[b] && id != due
      modifies this`info, this`addrs, this`random, this`nNew, this`news
      ensures ValidBut(due)
      ensures news == old(news)[b := old(news)[b] - {id}]
      ensures info.Keys == old(info).Keys || info.Keys == old(info).Keys - {id}
      ensures forall x | x in info && x != id :: info[x] == old(info)[x].(randomPos := info[x].randomPos)
      ensures forall a | a in old(addrs) && old(addrs)[a] != id :: a in addrs && addrs[a] == old(addrs)[a]
    {
      hide EntriesOk, RandomOk, AddrOk, NewOk, TriedOk, Tried, Untried;
      ghost var s := Now();
      NewMember(info, news, due, b, id);
      info := info[id := info[id].(refCount := info[id].refCount - 1)];
      if info[id].refCount == 0 {
        Recount(key, s.info, addrs, random, tried, id, 0);
        Erase(id);
        news := news[b := news[b] - {id}];
        DropLastReference(key, s, Now(), due, b, id);
      } else {
        DropOneReference(key, s, due, b, id);
        news := news[b := news[b] - {id}];
      }
    }

    /** Makes room in a full new bucket: a terrible entry goes if there is one,
        otherwise the oldest of up to four picked at random. */
    method ShrinkNew(b: nat, now: int, ghost due: int) returns (ghost victim: int, ghost drawn: set<int>)
      requires ValidBut(due) && b < |news| && |news[b]| > 0 && due !in news[b]
      modifies this`info, this`addrs, this`random, this`nNew, this`news
      ensures ValidBut(due)
      ensures victim in old(news)[b] && news == old(news)[b := old(news)[b] - {victim}]
      ensures victim in old(info)
      ensures old(info)[victim].IsTerrible(now) <==>
        exists x | x in old(news)[b] && x in old(info) :: old(info)[x].IsTerrible(now)
      ensures !old(info)[victim].IsTerrible(now) ==> victim in drawn && drawn <= old(news)[b] && |drawn| <= 4
      ensures !old(info)[victim].IsTerrible(now) ==>
        forall x | x in drawn :: x in old(info) && old(info)[victim].time <= old(info)[x].time
      ensures info.Keys == old(info).Keys || info.Keys == old(info).Keys - {victim}
      ensures forall x | x in info && x != victim :: info[x] == old(info)[x].(randomPos := info[x].randomPos)
      ensures forall a | a in old(addrs) && old(addrs)[a] != victim :: a in addrs && addrs[a] == old(addrs)[a]
    {
      hide AddrOk, TriedOk, RandomOk;
      var rest := news[b];
      while |rest| > 0
        invariant Now() == old(Now()) && rest <= news[b]
        invariant forall x | x in news[b] - rest :: x in info && !info[x].IsTerrible(now)
        decreases rest
      {
        var id := PickFrom(rest);
        if info[id].IsTerrible(now) {
          victim, drawn := id, {};
          DropReference(id, b, due);
          return;
        }
        rest := rest - {id};
      }
      IdsNatural(info, idCount);
      var oldest;
      oldest, drawn := DrawOldest(news[b]);
      victim := oldest;
      DropReference(oldest, b, due);
    }

    // The oldest of up to four entries drawn at random
    method DrawOldest(bucket: set<int>) returns (oldest: int, ghost drawn: set<int>)
      requires |bucket| > 0 && -1 !in bucket && forall x | x in bucket :: x in info
      ensures oldest in drawn && drawn <= bucket && |drawn| <= 4
      ensures forall x | x in drawn :: info[oldest].time <= info[x].time
    {
      var n0 := GetRandInt(|bucket|);
      var n1 := GetRandInt(|bucket|);
      var n2 := GetRandInt(|bucket|);
      var n3 := GetRandInt(|bucket|);
      var i, rest := 0, bucket;
      oldest, drawn := -1, {};
      while |rest| > 0
        invariant rest <= bucket && i + |rest| == |bucket| && drawn <= bucket - rest
        invariant oldest == -1 ==> i <= n0 && drawn == {}
        invariant oldest != -1 ==> oldest in drawn && forall x | x in drawn :: info[oldest].time <= info[x].time
        invariant |drawn| <= Before(n0, i) + Before(n1, i) + Before(n2, i) + Before(n3, i)
        decreases rest
      {
        var id := PickFrom(rest);
        if i == n0 || i == n1 || i == n2 || i == n3 {
          drawn := drawn + {id};
          if oldest == -1 || info[id].time < info[oldest].time {
            oldest := id;
          }
        }
        i := i + 1;
        rest := rest - {id};
      }
    }

    // Shuffles a little and returns some position of the bucket.
    method SelectTried(k: nat) returns (pos: nat)
      requires TriedOk(key, info, tried) && k < |tried| && tried[k] != []
      modifies this`tried
      ensures TriedOk(key, info, tried) && |tried| == |old(tried)| && pos < |tried[k]|
      ensures |tried[k]| == |old(tried)[k]| && multiset(tried[k]) == multiset(old(tried)[k])
      ensures forall b | 0 <= b < |tried| && b != k :: tried[b] == old(tried)[b]
    {
      hide TriedOk;
      pos := 0;
      var oldest := -1;
      var i := 0;
      while i < TRIED_ENTRIES_INSPECT_ON_EVICT && i < |tried[k]|
        invariant TriedOk(key, info, tried) && |tried| == |old(tried)| && |tried[k]| == |old(tried)[k]|
        invariant pos < |tried[k]|
        invariant multiset(tried[k]) == multiset(old(tried)[k])
        invariant forall b | 0 <= b < |tried| && b != k :: tried[b] == old(tried)[b]
        invariant oldest == -1 || oldest in info
      {
        var r := GetRandInt(|tried[k]| - i);
        var p := r + i;
        var bucket := tried[k];
        var temp := bucket[p];
        TriedMember(key, info, tried, k, p);
        SwapTried(key, info, tried, k, p, i);
        tried := tried[k := bucket[p := bucket[i]][i := temp]];
        if oldest == -1 || info[temp].lastSuccess < info[oldest].lastSuccess {
          oldest, pos := temp, p;
        }
        i := i + 1;
      }
    }

    // Takes an id out of every new bucket and off its reference count.
    method RemoveFromNew(id: int)
      requires id in info && info[id].refCount == Count(news, id)
      modifies this`info, this`news
      ensures news == RemoveAll(old(news), id)
      ensures info == old(info)[id := old(info)[id].(refCount := 0)]
    {
      hide Count;
      ghost var was := news;
      CountZero(was[..0], id);
      for b := 0 to |news|
        invariant |news| == |was|
        invariant forall j | 0 <= j < |was| :: news[j] == if j < b then was[j] - {id} else was[j]
        invariant info == old(info)[id := old(info)[id].(refCount := Count(was, id) - Count(was[..b], id))]
      {
        CountNext(was, b, id);
        if id in news[b] {
          news := news[b := news[b] - {id}];
          info := info[id := info[id].(refCount := info[id].refCount - 1)];
        }
      }
      assert was[..|was|] == was;
    }

    /** Moves an entry from the new buckets to its tried bucket; if that is full,
        one entry of it, out, goes back to a new bucket. */
    method MakeTried(id: int, origin: nat) returns (ghost out: int)
      requires Valid() && id in info && !info[id].inTried && info[id].lastSuccess > 0
      requires origin < |news| && id in news[origin]
      modifies this`info, this`news, this`nNew, this`tried, this`nTried
      ensures Valid() && info.Keys == old(info).Keys
      ensures info[id] == Promoted(old(info)[id])
      ensures forall x | x in info && x != id :: info[x] == if x == out then Demoted(old(info)[x]) else old(info)[x]
      ensures out != id ==> out in info && old(info)[out].inTried
    {
      hide EntriesOk, RandomOk, AddrOk, NewOk, TriedOk, Tried, Untried;
      ghost var s := Now();
      out := id;
      TriedShape(key, info, tried);
      IdsNatural(info, idCount);
      NewCount(info, news, id);
      RemoveFromNew(id);
      nNew := nNew - 1;
      var k := key.TriedBucket(info[id].addr);
      if |tried[k]| < TRIED_BUCKET_SIZE {
        tried := tried[k := tried[k] + [id]];
        nTried := nTried + 1;
        info := info[id := info[id].(inTried := true)];
        PromoteKeeps(key, s, id, k);
        assert info == s.info[id := Promoted(s.info[id])];
      } else {
        Recount(key, s.info, addrs, random, tried, id, 0);
        var pos := SelectTried(k);
        Recount(key, info, addrs, random, tried, id, s.info[id].refCount);
        assert info[id := info[id].(refCount := s.info[id].refCount)] == s.info;
        out := Evict(s, id, origin, k, pos);
      }
    }

    // The second half of MakeTried: the tried bucket is full.
    method Evict(ghost s: Book, id: int, origin: nat, k: nat, pos: nat) returns (out: int)
      requires BookOk(key, s, NONE_DUE) && id in s.info && !s.info[id].inTried && s.info[id].lastSuccess > 0
      requires origin < |s.news| && id in s.news[origin]
      requires TriedOk(key, s.info, tried)
      requires k == key.TriedBucket(s.info[id].addr) && k < |tried| && pos < |tried[k]|
      requires Now() == s.(tried := tried, info := s.info[id := s.info[id].(refCount := 0)],
                           news := RemoveAll(s.news, id), nNew := s.nNew - 1)
      modifies this`info, this`news, this`nNew, this`tried
      ensures Valid() && info.Keys == s.info.Keys
      ensures info[id] == Promoted(s.info[id])
      ensures forall x | x in info && x != id :: info[x] == if x == out then Demoted(s.info[x]) else s.info[x]
      ensures out in s.info && s.info[out].inTried
    {
      hide EntriesOk, RandomOk, AddrOk, TriedOk, NewOk, Tried, Untried, Count;
      NewShape(s.info, s.news, origin);
      TriedMember(key, s.info, tried, k, pos);
      out := tried[k][pos];
      var b := key.NewBucket(info[out].addr, info[out].source);
      if |news[b]| >= NEW_BUCKET_SIZE {
        Smaller(s.news[origin], id);
        b := origin;
      }
      ReplaceKeeps(key, s.(tried := tried), id, k, pos, b);
      SwapClasses(s.info, id, out);
      info := info[out := info[out].(inTried := false, refCount := 1)];
      news := news[b := news[b] + {out}];
      nNew := nNew + 1;
      tried := tried[k := tried[k][pos := id]];
      info := info[id := info[id].(inTried := true)];
    }

    // Starts at a random bucket; an untried entry is always found.
    method FindBucket(id: int) returns (bucket: nat)
      requires NewOk(info, news, NONE_DUE) && id in info && !info[id].inTried && info[id].refCount > 0 && id != NONE_DUE
      ensures bucket < |news| && id in news[bucket]
    {
      var rnd := GetRandInt(|news|);
      CountZero(news, id);
      for n := 0 to |news|
        invariant forall b | 0 <= b < |news| && Steps(rnd, b, |news|) < n :: id !in news[b]
      {
        bucket := (n + rnd) % |news|;
        assert bucket == if n + rnd < |news| then n + rnd else n + rnd - |news|;
        if id in news[bucket] {
          return;
        }
      }
      assert false;
    }

    /** Marks an address good: if it is known with this very port, it ends up in
        the tried buckets; at most one other entry, out, leaves them; and nothing
        is ever forgotten. */
    method Good(addr: Service, time: int) returns (ghost out: int)
      requires Valid() && time > 0
      modifies this`info, this`news, this`nNew, this`tried, this`nTried
      ensures Valid() && info.Keys == old(info).Keys
      ensures old(addr.ip in addrs) && old(info)[addrs[addr.ip]].addr == addr ==>
        var e := info[addrs[addr.ip]];
        e.addr == addr && e.inTried && e.lastSuccess == e.lastTry == e.time == time && e.attempts == 0
      ensures forall x | x in info && !(addr.ip in addrs && x == addrs[addr.ip]) ::
        info[x] == if x == out then Demoted(old(info)[x]) else old(info)[x]
      ensures !(old(addr.ip in addrs) && old(info)[addrs[addr.ip]].addr == addr) ==> Now() == old(Now())
    {
      hide RandomOk, TriedOk, NewOk, Tried, Untried;
      var id := Find(addr.ip);
      out := NONE_DUE;
      IdsNatural(info, idCount);
      if id !in info || info[id].addr != addr {
        return;
      }
      assert EntryOk(info[id]);
      TouchKeeps(key, Now(), NONE_DUE, id, info[id].(lastSuccess := time, lastTry := time, time := time, attempts := 0));
      hide EntriesOk, AddrOk;
      info := info[id := info[id].(lastSuccess := time, lastTry := time, time := time, attempts := 0)];
      if info[id].inTried {
        return;
      }
      var bucket := FindBucket(id);
      out := MakeTried(id, bucket);
    }

    // Counts a further reference to an entry, puts it into a bucket and makes
    // room there first if need be.  The state satisfies the invariant once the
    // reference is counted.
    method AddReference(id: int, b: nat, now: int) returns (ghost victim: int)
      requires id in info && !info[id].inTried && b < |news| && id !in news[b]
      requires BookOk(key, Now().(info := info[id := info[id].(refCount := info[id].refCount + 1)]), id)
      modifies this`info, this`addrs, this`random, this`nNew, this`news
      ensures Valid() && id in info && |news| == |old(news)| && id in news[b]
      ensures info[id] == old(info)[id].(refCount := old(info)[id].refCount + 1, randomPos := info[id].randomPos)
      ensures forall a | a in old(addrs) && old(addrs)[a] == id :: a in addrs && addrs[a] == id
      ensures Forgets(old(info), info, victim)
      ensures forall x | x in info && x != id && x != victim :: x in old(info) && info[x] == old(info)[x].(randomPos := info[x].randomPos)
    {
      hide EntriesOk, RandomOk, AddrOk, NewOk, TriedOk, Tried, Untried;
      info := info[id := info[id].(refCount := info[id].refCount + 1)];
      victim := id;
      if |news[b]| == NEW_BUCKET_SIZE {
        ghost var full := info;
        ghost var drawn;
        victim, drawn := ShrinkNew(b, now, id);
        NewMember(full, old(news), id, b, victim);
        Smaller(old(news)[b], victim);
      } else {
        BucketSize(info, news, id, b);
      }
      PlaceKeeps(key, Now(), id, b);
      news := news[b := news[b] + {id}];
    }

    // The address is known from this source, with its services and its time less the
    // penalty, never tried, and held by the one new bucket it selects.
    ghost predicate IsListed(addr: Address, source: NetAddr, timePenalty: int)
      reads this
    {
      && addr.service.ip in addrs && addrs[addr.service.ip] in info
      && var id, b := addrs[addr.service.ip], key.NewBucket(addr.service, source);
      && info[id] == Listed(addr, source, timePenalty).(randomPos := info[id].randomPos)
      && b < |news| && id in news[b]
    }

    /** Adds an address that somebody reported.  True is returned exactly for
        addresses not known before, and those are in a new bucket afterwards. */
    method Add(addr: Address, source: NetAddr, timePenalty: int, now: int) returns (isNew: bool, ghost victim: int)
      requires Valid()
      modifies this`idCount, this`info, this`addrs, this`random, this`nNew, this`news
      ensures Valid()
      ensures isNew <==> addr.routable && addr.service.ip !in old(addrs)
      ensures isNew ==> IsListed(addr, source, timePenalty)
      ensures Forgets(old(info), info, victim)
      ensures OthersStay(old(info), info, if addr.service.ip in addrs then addrs[addr.service.ip] else victim, victim)
      ensures addr.routable && !isNew ==>
        var id := old(addrs)[addr.service.ip];
        addr.service.ip in addrs && addrs[addr.service.ip] == id && id in info && id in old(info) &&
        var e := Refreshed(old(info)[id], addr, timePenalty, now);
        || info[id] == e
        || (&& addr.time != 0 && (e.time == 0 || addr.time > e.time) && !e.inTried && e.refCount < NEW_BUCKETS_PER_ADDRESS
            && info[id] == e.(refCount := e.refCount + 1, randomPos := info[id].randomPos)
            && key.NewBucket(e.addr, source) < |news| && id in news[key.NewBucket(e.addr, source)])
      ensures !addr.routable ==> Now() == old(Now())
    {
      hide EntriesOk, RandomOk, AddrOk, NewOk, TriedOk, Tried, Untried;
      victim := NONE_DUE;
      isNew := false;
      if !addr.routable {
        return;
      }
      NewLength(info, news);
      AddrDomain(info, addrs);
      var id := Find(addr.service.ip);
      if id in info {
        var go := Refresh(id, addr, timePenalty, now);
        if !go {
          return;
        }
        ReferKeeps(key, Now(), id);
      } else {
        isNew := true;
        id := Introduce(addr, source, timePenalty);
      }
      var b := key.NewBucket(info[id].addr, source);
      if id !in news[b] {
        ghost var known := info;
        assert forall x | x in old(info) :: x in known && known[x].inTried == old(info)[x].inTried;
        victim := AddReference(id, b, now);
        StillForgets(old(info), known, info, victim);
      }
    }

    // Creates an entry whose first reference is still to be counted.
    method Introduce(addr: Address, source: NetAddr, timePenalty: int) returns (id: int)
      requires Valid() && addr.service.ip !in addrs
      modifies this`idCount, this`info, this`addrs, this`random, this`nNew
      ensures id in info && info[id].addr == addr.service && info[id].source == source
      ensures forall x | x in old(info) :: x in info && info[x] == old(info)[x]
      ensures info[id] == Listed(addr, source, timePenalty).(refCount := 0, randomPos := info[id].randomPos)
      ensures addr.service.ip in addrs && addrs[addr.service.ip] == id
      ensures forall b | 0 <= b < |news| :: id !in news[b]
      ensures BookOk(key, Now().(info := info[id := info[id].(refCount := 1)]), id)
    {
      hide EntriesOk, RandomOk, AddrOk, NewOk, TriedOk, Tried, Untried;
      ghost var s := Now();
      FreshId(info, news, idCount);
      id := Create(addr, source);
      info := info[id := info[id].(time := if info[id].time - timePenalty > 0 then info[id].time - timePenalty else 0)];
      nNew := nNew + 1;
      CreateKeeps(key, s, info[id].(refCount := 1));
      assert info[id := info[id].(refCount := 1)] == s.info[id := info[id].(refCount := 1)];
    }

    // A known address: update time and services, then decide whether it may be
    // referred to once more.  Without news it may not.
    method Refresh(id: int, addr: Address, timePenalty: int, now: int) returns (go: bool)
      requires Valid() && id in info
      modifies this`info
      ensures Valid() && info.Keys == old(info).Keys
      ensures forall x | x in info && x != id :: info[x] == old(info)[x]
      ensures info[id] == Refreshed(old(info)[id], addr, timePenalty, now)
      ensures go ==> addr.time != 0 && (info[id].time == 0 || addr.time > info[id].time)
      ensures go ==> !info[id].inTried && info[id].refCount < NEW_BUCKETS_PER_ADDRESS
    {
      hide RandomOk, AddrOk, NewOk, TriedOk, Tried, Untried;
      assert EntryOk(info[id]);
      var e := info[id];
      var online := now - addr.time < 24 * 60 * 60;
      var interval := if online then 60 * 60 else 24 * 60 * 60;
      if addr.time != 0 && (e.time == 0 || e.time < addr.time - interval - timePenalty) {
        e := e.(time := if addr.time - timePenalty > 0 then addr.time - timePenalty else 0);
      }
      e := e.(services := e.services + addr.services);
      TouchKeeps(key, Now(), NONE_DUE, id, e);
      info := info[id := e];
      if addr.time == 0 || (e.time != 0 && addr.time <= e.time) {
        return false;
      }
      if e.inTried || e.refCount == NEW_BUCKETS_PER_ADDRESS {
        return false;
      }
      var factor := 1;
      for n := 0 to e.refCount
        invariant factor >= 1
      {
        factor := factor * 2;
      }
      if factor > 1 {
        var r := GetRandInt(factor);
        return r == 0;
      }
      return true;
    }

    method Attempt(addr: Service, time: int)
      requires Valid() && time >= 0
      modifies this`info
      ensures Valid()
      ensures info == if addr.ip in addrs && old(info)[addrs[addr.ip]].addr == addr
        then var e := old(info)[addrs[addr.ip]];
             old(info)[addrs[addr.ip] := e.(lastTry := time, attempts := e.attempts + 1)]
        else old(info)
    {
      hide RandomOk, NewOk, TriedOk, Tried, Untried;
      var id := Find(addr.ip);
      if id !in info || info[id].addr != addr {
        return;
      }
      assert EntryOk(info[id]);
      TouchKeeps(key, Now(), NONE_DUE, id, info[id].(lastTry := time, attempts := info[id].attempts + 1));
      info := info[id := info[id].(lastTry := time, attempts := info[id].attempts + 1)];
    }

    method Connected(addr: Service, time: int)
      requires Valid()
      modifies this`info
      ensures Valid()
      ensures info == if addr.ip in addrs && old(info)[addrs[addr.ip]].addr == addr
          && time - old(info)[addrs[addr.ip]].time > 20 * 60
        then old(info)[addrs[addr.ip] := old(info)[addrs[addr.ip]].(time := time)]
        else old(info)
    {
      hide RandomOk, NewOk, TriedOk, Tried, Untried;
      var id := Find(addr.ip);
      if id !in info || info[id].addr != addr {
        return;
      }
      if time - info[id].time > 20 * 60 {
        assert EntryOk(info[id]);
        TouchKeeps(key, Now(), NONE_DUE, id, info[id].(time := time));
        info := info[id := info[id].(time := time)];
      }
    }

    /** Returns the addresses of 23% of the entries, rounded down, but of at most 2500,
        none of them twice; the entries only change places. */
    method GetAddr() returns (result: seq<Service>)
      requires Valid()
      modifies this`info, this`random
      ensures Valid() && addrs == old(addrs) && info.Keys == old(info).Keys
      ensures forall id | id in info :: info[id] == old(info)[id].(randomPos := info[id].randomPos)
      ensures |random| == |old(random)| && |result| == Min(GETADDR_MAX, GETADDR_MAX_PCT * |random| / 100)
      ensures forall i | 0 <= i < |result| :: result[i].ip in addrs && addrs[result[i].ip] in info
      ensures forall i | 0 <= i < |result| :: result[i] == info[addrs[result[i].ip]].addr
      ensures forall i, j | 0 <= i < j < |result| :: result[i].ip != result[j].ip
    {
      hide EntriesOk, RandomOk, AddrOk, NewOk, TriedOk, Tried, Untried;
      var nodes := GETADDR_MAX_PCT * |random| / 100;
      if nodes > GETADDR_MAX {
        nodes := GETADDR_MAX;
      }
      ghost var s := Now();
      result := Shuffle(nodes);
      ShuffleKeeps(key, s, info, random);
      DistinctAddresses(s.info, info, addrs, random, result);
    }

    // Swaps random entries to the front and returns their addresses.
    method Shuffle(nodes: nat) returns (result: seq<Service>)
      requires RandomOk(info, random) && nodes <= |random|
      modifies this`info, this`random
      ensures RandomOk(info, random) && info.Keys == old(info).Keys && |random| == |old(random)| && |result| == nodes
      ensures forall id | id in info :: info[id] == old(info)[id].(randomPos := info[id].randomPos)
      ensures forall i | 0 <= i < nodes :: random[i] in old(info) && result[i] == old(info)[random[i]].addr
    {
      hide RandomOk;
      result := [];
      for n := 0 to nodes
        invariant |random| == |old(random)| && |result| == n
        invariant RandomOk(info, random) && info.Keys == old(info).Keys
        invariant forall id | id in info :: info[id] == old(info)[id].(randomPos := info[id].randomPos)
        invariant forall i | 0 <= i < n :: random[i] in old(info) && result[i] == old(info)[random[i]].addr
      {
        var pos := GetRandInt(|random| - n);
        SwapRandom(n, pos + n);
        RandomMember(info, random, n);
        result := result + [info[random[n]].addr];
      }
    }
  }

  // Whether a drawn place has been passed
  ghost function Before(n: int, i: int): nat {
    if n < i then 1 else 0
  }

  // A new entry, in one bucket: not yet tried, and seen as long ago as reported and by
  // the penalty longer, but not before the epoch.
  function Listed(addr: Address, source: NetAddr, timePenalty: int): Info {
    Info(addr.service, addr.services, if addr.time > timePenalty then addr.time - timePenalty else 0, source, 0, 0, 0, 1, false, 0)
  }

  // A known entry when it is reported again: its time changes only if the report
  // is newer by more than an hour, or a day for an address not seen today.
  function Refreshed(e: Info, addr: Address, timePenalty: int, now: int): Info {
    var interval := if now - addr.time < 24 * 60 * 60 then 60 * 60 else 24 * 60 * 60;
    var newer := addr.time != 0 && (e.time == 0 || e.time < addr.time - interval - timePenalty);
    var time := if addr.time - timePenalty > 0 then addr.time - timePenalty else 0;
    e.(time := if newer then time else e.time, services := e.services + addr.services)
  }

  // Entries but for id and one victim stay as they are, apart from their places in vRandom.
  ghost predicate OthersStay(was: Infos, info: Infos, id: int, victim: int) {
    forall x | x in was && x in info && x != id && x != victim :: info[x] == was[x].(randomPos := info[x].randomPos)
  }

  // At most one entry is gone, and no tried one.
  ghost predicate Forgets(was: Infos, info: Infos, victim: int) {
    was.Keys - {victim} <= info.Keys && (victim in was && victim !in info ==> !was[victim].inTried)
  }

  lemma StillForgets(was: Infos, known: Infos, info: Infos, victim: int)
    requires forall x | x in was :: x in known && known[x].inTried == was[x].inTried
    requires Forgets(known, info, victim)
    ensures Forgets(was, info, victim)
  {
    forall x | x in was.Keys - {victim} ensures x in info.Keys {
      assert x in known.Keys - {victim};
    }
  }

  lemma RandomMember(info: Infos, random: seq<int>, i: nat)
    requires RandomOk(info, random) && i < |random|
    ensures random[i] in info
  {}

  lemma NewMember(info: Infos, news: seq<set<int>>, due: int, b: nat, id: int)
    requires NewOk(info, news, due) && b < |news| && id in news[b]
    ensures id in info && !info[id].inTried && info[id].refCount >= 1
  {
    CountZero(news, id);
  }

  lemma NewCount(info: Infos, news: seq<set<int>>, id: int)
    requires NewOk(info, news, NONE_DUE) && id in info && !info[id].inTried && id != NONE_DUE
    ensures info[id].refCount == Count(news, id)
  {}

  lemma NewShape(info: Infos, news: seq<set<int>>, b: nat)
    requires NewOk(info, news, NONE_DUE) && b < |news|
    ensures |news| == NEW_BUCKET_COUNT && |news[b]| <= NEW_BUCKET_SIZE
  {}

  lemma SwapClasses(info: Infos, id: int, out: int)
    requires id in info && out in info && id != out
    ensures var cleared := info[id := info[id].(refCount := 0)];
      var demoted := cleared[out := cleared[out].(inTried := false, refCount := 1)];
      demoted[id := demoted[id].(inTried := true)] == info[id := Promoted(info[id])][out := Demoted(info[out])]
  {}

  lemma NewLength(info: Infos, news: seq<set<int>>)
    requires NewOk(info, news, NONE_DUE)
    ensures |news| == NEW_BUCKET_COUNT
  {}

  lemma BucketSize(info: Infos, news: seq<set<int>>, due: int, b: nat)
    requires NewOk(info, news, due) && b < |news|
    ensures |news[b]| <= NEW_BUCKET_SIZE
  {}

  lemma FreshId(info: Infos, news: seq<set<int>>, idCount: int)
    requires EntriesOk(info, idCount) && NewOk(info, news, NONE_DUE)
    ensures idCount !in info && forall b | 0 <= b < |news| :: idCount !in news[b]
  {}

  lemma AddrDomain(info: Infos, addrs: map<NetAddr, int>)
    requires AddrOk(info, addrs)
    ensures forall a | a in addrs :: addrs[a] in info
  {}

  // Distinct places of vRandom hold entries with distinct addresses.
  lemma DistinctAddresses(was: Infos, info: Infos, addrs: map<NetAddr, int>, random: seq<int>, result: seq<Service>)
    requires RandomOk(info, random) && AddrOk(was, addrs) && |result| <= |random| && was.Keys == info.Keys
    requires forall id | id in info :: info[id] == was[id].(randomPos := info[id].randomPos)
    requires forall i | 0 <= i < |result| :: random[i] in was && result[i] == was[random[i]].addr
    ensures forall i | 0 <= i < |result| :: result[i].ip in addrs && addrs[result[i].ip] in info
    ensures forall i | 0 <= i < |result| :: result[i] == info[addrs[result[i].ip]].addr
    ensures forall i, j | 0 <= i < j < |result| :: result[i].ip != result[j].ip
  {
    forall i | 0 <= i < |result|
      ensures result[i].ip in addrs && random[i] in info
      ensures addrs[result[i].ip] == random[i] && info[random[i]].randomPos == i
    {
      var id := random[i];
      assert id in was && result[i] == was[id].addr;
      assert was[id].addr.ip in addrs;
    }
  }

  lemma IdsNatural(info: Infos, idCount: int)
    requires EntriesOk(info, idCount)
    ensures NONE_DUE !in info
  {}

  // How far ahead of one bucket another is
  ghost function Steps(from: int, to: int, n: int): int {
    if to >= from then to - from else to + n - from
  }

  /** A report never makes an entry look older and never takes services away.  An entry
      with a time gets another exactly if the report, less the penalty, is newer by more
      than an hour, or by more than a day if the address was not seen today. */
  lemma RefreshMovesForward(e: Info, addr: Address, timePenalty: int, now: int)
    requires e.time >= 0
    ensures var r := Refreshed(e, addr, timePenalty, now);
      && r.time >= e.time && r.services == e.services + addr.services
      && r.(time := e.time, services := e.services) == e
      && (r.time != e.time ==> r.time == addr.time - timePenalty)
      && (e.time != 0 && addr.time != 0 ==>
            (r.time != e.time <==> addr.time - timePenalty - e.time > if now < addr.time + 86400 then 3600 else 86400))
  {}
}
