/**
 Stake modifiers: 64 bits, one from each of the blocks selected out of a
 stretch of the chain, renewed once in an interval of time.
 */
module StakeModifier {
  import opened Basics
  import opened Headers
  import opened Sorting

  const ROUNDS := 64
  const INTERVAL_RATIO := 3

  // interval is the length of a modifier interval; hash is the hash of a proof
  // and a modifier; v04Switch is the time the v0.4 rules start.
  datatype Kernel = Kernel(interval: nat, hash: (nat, nat) -> nat, v04Switch: nat)
  {
    predicate IsV04(time: nat) {
      time >= v04Switch
    }

    function Section(k: nat): nat
      requires k < ROUNDS
    {
      interval * 63 / (63 + (63 - k) * (INTERVAL_RATIO - 1))
    }

    // The length of the first n sections
    function Sections(n: nat): nat
      requires n <= ROUNDS
    {
      if n == 0 then 0 else Sections(n - 1) + Section(n - 1)
    }

    // Proof of stake is favoured by dividing its hash by 2^32.
    function SelectionHash(b: Index, modifier: nat): nat
      requires b.Index?
    {
      if b.stake then hash(b.proof, modifier) / 0x1_0000_0000 else hash(b.id, modifier)
    }
  }

  method GetStakeModifierSelectionInterval(kernel: Kernel) returns (r: nat)
    ensures r == kernel.Sections(ROUNDS)
  {
    r := 0;
    for k := 0 to ROUNDS
      invariant r == kernel.Sections(k)
    {
      r := r + kernel.Section(k);
    }
  }

  /** The sections grow from a third of the modifier interval to the whole of it. */
  lemma SectionsGrow(kernel: Kernel, j: nat, k: nat)
    requires j <= k < ROUNDS
    ensures kernel.Section(0) == kernel.interval / 3 && kernel.Section(ROUNDS - 1) == kernel.interval
    ensures kernel.Section(j) <= kernel.Section(k)
  {
    FirstSection(kernel.interval);
    DividedByMore(kernel.interval * 63, 63 + (63 - k) * (INTERVAL_RATIO - 1), 63 + (63 - j) * (INTERVAL_RATIO - 1));
  }

  lemma FirstSection(x: nat)
    ensures x * 63 / 189 == x / 3 && x * 63 / 63 == x
  {}

  /** A stake block is selected before a work block unless the hash of the work block
      is lower by a factor of 2^32. */
  lemma StakeIsFavoured(kernel: Kernel, a: Index, b: Index, modifier: nat)
    requires a.Index? && b.Index? && a.stake && !b.stake
    ensures kernel.SelectionHash(a, modifier) < kernel.SelectionHash(b, modifier)
       <==> kernel.hash(a.proof, modifier) < kernel.hash(b.id, modifier) * 0x1_0000_0000
  {}

  // --- when a modifier is renewed

  // The last block up to b that renewed the modifier, or the genesis block
  function LastRenewal(b: Index): (r: Index)
    requires b.Index?
    ensures r.Index? && IsAncestor(r, b)
  {
    if b.generated || b.pprev.Null? then b else LastRenewal(b.pprev)
  }

  method GetLastStakeModifier(b: Index) returns (ok: bool, modifier: nat, time: nat)
    ensures ok <==> b.Index? && LastRenewal(b).generated
    ensures ok ==> modifier == LastRenewal(b).modifier && time == LastRenewal(b).time
  {
    if b.Null? {
      return false, 0, 0;
    }
    var at := b;
    while at.pprev.Index? && !at.generated
      invariant at.Index? && LastRenewal(at) == LastRenewal(b)
      decreases at
    {
      at := at.pprev;
    }
    return at.generated, at.modifier, at.time;
  }

  predicate Renews(kernel: Kernel, b: Index)
    requires b.Index? && kernel.interval > 0
  {
    b.pprev.Null? ||
    var slot := LastRenewal(b.pprev).time / kernel.interval;
    slot < b.pprev.time / kernel.interval && (slot < b.time / kernel.interval || !kernel.IsV04(b.time))
  }

  // Every block up to b is marked as the rule says.
  predicate Marked(kernel: Kernel, b: Index)
    requires kernel.interval > 0
  {
    b.Index? ==> b.generated == Renews(kernel, b) && Marked(kernel, b.pprev)
  }

  lemma {:induction false} LastRenewalGenerated(kernel: Kernel, b: Index)
    requires b.Index? && kernel.interval > 0 && Marked(kernel, b)
    ensures LastRenewal(b).generated
  {
    if !b.generated && b.pprev.Index? {
      LastRenewalGenerated(kernel, b.pprev);
    }
  }

  predicate AllV04(kernel: Kernel, b: Index) {
    b.Index? ==> kernel.IsV04(b.time) && AllV04(kernel, b.pprev)
  }

  // The last renewal is in the latest interval of all renewals up to b.
  lemma {:induction false} LastRenewalIsLatest(kernel: Kernel, a: Index, b: Index)
    requires kernel.interval > 0 && b.Index? && Marked(kernel, b) && AllV04(kernel, b)
    requires a.Index? && a.generated && IsAncestor(a, b)
    ensures a.time / kernel.interval <= LastRenewal(b).time / kernel.interval
    decreases b
  {
    if a != b {
      LastRenewalIsLatest(kernel, a, b.pprev);
    }
  }

  /** Under the v0.4 rules the blocks that renew the modifier lie in strictly
      increasing intervals. */
  lemma RenewalsInNewIntervals(kernel: Kernel, a: Index, b: Index)
    requires kernel.interval > 0 && b.Index? && Marked(kernel, b) && AllV04(kernel, b)
    requires a.Index? && a != b && a.generated && b.generated && IsAncestor(a, b)
    ensures a.time / kernel.interval < b.time / kernel.interval
  {
    LastRenewalIsLatest(kernel, a, b.pprev);
  }

  /** No renewal is missed: after every block the last renewal is no further back than
      the interval of that block or of its predecessor. */
  lemma NoRenewalMissed(kernel: Kernel, b: Index)
    requires kernel.interval > 0 && b.Index? && b.pprev.Index? && Marked(kernel, b)
    ensures LastRenewal(b).time / kernel.interval >= Min(b.pprev.time / kernel.interval, b.time / kernel.interval)
  {}

  // --- the candidates

  // b and the blocks before it, back to the first that is older than start
  function Collected(b: Index, start: int): (r: seq<Index>)
    ensures forall i | 0 <= i < |r| :: r[i].Index?
  {
    if b.Null? || b.time < start then [] else Collected(b.pprev, start) + [b]
  }

  // By time, then by id
  function Before(): Compare<Index> {
    (a: Index, b: Index) => a.Null? || (b.Index? && (a.time < b.time || (a.time == b.time && a.id <= b.id)))
  }

  type Blocks = s: seq<Index> | forall i | 0 <= i < |s| :: s[i].Index?

  ghost predicate Ordered(s: Blocks) {
    Sorted(Before(), s)
  }

  function SortBlocks(s: Blocks): Blocks {
    SortKeepsBlocks(s);
    Sort(Before(), s)
  }

  lemma SortKeepsBlocks(s: Blocks)
    ensures multiset(Sort(Before(), s)) == multiset(s) && Sorted(Before(), Sort(Before(), s)) && |Sort(Before(), s)| == |s|
    ensures forall i | 0 <= i < |Sort(Before(), s)| :: Sort(Before(), s)[i].Index?
  {
    SortSorts(Before(), s);
    var t := Sort(Before(), s);
    forall i | 0 <= i < |t| ensures t[i].Index? {
      MultisetPlaces(t, s, i);
    }
  }

  function Ids(s: Blocks): set<nat> {
    set i | 0 <= i < |s| :: s[i].id
  }

  lemma SortKeeps(s: Blocks)
    ensures Ordered(SortBlocks(s)) && |SortBlocks(s)| == |s| && Ids(SortBlocks(s)) == Ids(s)
  {
    hide Sort;
    SortKeepsBlocks(s);
    var t: Blocks := SortBlocks(s);
    forall id ensures id in Ids(t) <==> id in Ids(s) {
      if id in Ids(t) {
        var i :| 0 <= i < |t| && t[i].id == id;
        MultisetPlaces(t, s, i);
      }
      if id in Ids(s) {
        var i :| 0 <= i < |s| && s[i].id == id;
        MultisetPlaces(s, t, i);
      }
    }
  }

  // Ids are the keys of the block index, so that no two blocks share one.
  predicate Distinct(b: Index) {
    b.Index? ==> b.id !in ChainIds(b.pprev) && Distinct(b.pprev)
  }

  function ChainIds(b: Index): set<nat> {
    if b.Null? then {} else {b.id} + ChainIds(b.pprev)
  }

  lemma {:induction false} CollectedDistinct(b: Index, start: int)
    requires Distinct(b)
    ensures |Ids(Collected(b, start))| == |Collected(b, start)| && Ids(Collected(b, start)) <= ChainIds(b)
  {
    if b.Index? && b.time >= start {
      CollectedDistinct(b.pprev, start);
      IdsAppend(Collected(b.pprev, start), b);
    }
  }

  lemma IdsAppend(s: Blocks, x: Index)
    requires x.Index?
    ensures Ids(s + [x]) == Ids(s) + {x.id}
  {
    var t: Blocks := s + [x];
    assert t[|s|] == x;
    forall id ensures id in Ids(t) <==> id in Ids(s) + {x.id} {
      if id in Ids(s) {
        var i :| 0 <= i < |s| && s[i].id == id;
        assert t[i].id == id;
      }
    }
  }

  // --- one round

  ghost predicate Free(s: Blocks, selected: set<nat>, i: int) {
    0 <= i < |s| && s[i].id !in selected
  }

  // The blocks a round looks at: those not selected before, up to the stop, and
  // the first of them whatever its time
  ghost predicate Considered(s: Blocks, selected: set<nat>, stop: int, i: int) {
    Free(s, selected, i) && (s[i].time <= stop || forall j | Free(s, selected, j) :: i <= j)
  }

  // k is the earliest of the considered blocks with the lowest selection hash.
  ghost predicate Wins(kernel: Kernel, s: Blocks, selected: set<nat>, stop: int, modifier: nat, k: int) {
    && Considered(s, selected, stop, k)
    && (forall i | Considered(s, selected, stop, i) :: kernel.SelectionHash(s[k], modifier) <= kernel.SelectionHash(s[i], modifier))
    && (forall i | Considered(s, selected, stop, i) && i < k :: kernel.SelectionHash(s[k], modifier) < kernel.SelectionHash(s[i], modifier))
  }

  method SelectBlockFromCandidates(kernel: Kernel, s: Blocks, selected: set<nat>, stop: int, modifier: nat) returns (found: bool, k: nat)
    requires Ordered(s)
    ensures found <==> exists i :: Free(s, selected, i)
    ensures found ==> Wins(kernel, s, selected, stop, modifier, k)
  {
    hide Kernel.SelectionHash;
    found, k := false, 0;
    var best := 0;
    var i := 0;
    while i < |s|
      invariant 0 <= i <= |s|
      invariant !found ==> forall j | 0 <= j < i :: !Free(s, selected, j)
      invariant found ==> k < i && Considered(s, selected, stop, k) && best == kernel.SelectionHash(s[k], modifier)
      invariant found ==> forall j | Considered(s, selected, stop, j) && j < i :: best <= kernel.SelectionHash(s[j], modifier)
      invariant found ==> forall j | Considered(s, selected, stop, j) && j < k :: best < kernel.SelectionHash(s[j], modifier)
    {
      if found && s[i].time > stop {
        LaterNotConsidered(s, selected, stop, k, i);
        return;
      }
      if s[i].id !in selected {
        var h := kernel.SelectionHash(s[i], modifier);
        assert Free(s, selected, i);
        if !found || h < best {
          assert Considered(s, selected, stop, i);
          found, best, k := true, h, i;
        }
      }
      i := i + 1;
    }
  }

  lemma LaterNotConsidered(s: Blocks, selected: set<nat>, stop: int, k: int, i: int)
    requires Ordered(s) && 0 <= k < i < |s| && Free(s, selected, k) && s[i].time > stop
    ensures forall j | Considered(s, selected, stop, j) :: j < i
  {
    assert forall j | i < j < |s| :: Before()(s[i], s[j]);
    assert forall j | i <= j < |s| :: s[j].time > stop;
  }

  lemma WinnerIsUnique(kernel: Kernel, s: Blocks, selected: set<nat>, stop: int, modifier: nat, k: int, k': int)
    requires Wins(kernel, s, selected, stop, modifier, k) && Wins(kernel, s, selected, stop, modifier, k')
    ensures k == k'
  {}

  /** A work block wins a round over a stake block only with a hash lower by a factor
      of 2^32. */
  lemma StakeWins(kernel: Kernel, s: Blocks, selected: set<nat>, stop: int, modifier: nat, k: int, i: int)
    requires Wins(kernel, s, selected, stop, modifier, k) && Considered(s, selected, stop, i)
    requires s[i].stake && !s[k].stake
    ensures kernel.hash(s[k].id, modifier) * 0x1_0000_0000 <= kernel.hash(s[i].proof, modifier)
  {
    hide Kernel.SelectionHash;
    StakeIsFavoured(kernel, s[i], s[k], modifier);
  }

  // --- all rounds

  function PickedIds(s: Blocks, picks: seq<nat>): set<nat>
    requires forall i | 0 <= i < |picks| :: picks[i] < |s|
  {
    set i | 0 <= i < |picks| :: s[picks[i]].id
  }

  // Round i has the blocks picked in the rounds before it out of the way.
  ghost predicate Picked(kernel: Kernel, s: Blocks, start: int, modifier: nat, picks: seq<nat>) {
    && |picks| <= ROUNDS
    && (forall i | 0 <= i < |picks| :: picks[i] < |s|)
    && (forall i | 0 <= i < |picks| ::
         Wins(kernel, s, PickedIds(s, picks[..i]), start + kernel.Sections(i + 1), modifier, picks[i]))
  }

  function Bit(b: Index): nat
    requires b.Index?
  {
    if b.entropy then 1 else 0
  }

  // The entropy bits of the picks, the first the lowest
  function Gathered(s: Blocks, picks: seq<nat>): nat
    requires forall i | 0 <= i < |picks| :: picks[i] < |s|
  {
    if picks == [] then 0 else Bit(s[picks[0]]) + 2 * Gathered(s, picks[1..])
  }

  function Pow2(n: nat): nat {
    if n == 0 then 1 else 2 * Pow2(n - 1)
  }

  function BitAt(x: nat, k: nat): nat {
    if k == 0 then x % 2 else BitAt(x / 2, k - 1)
  }

  /** Bit k of the modifier is the entropy bit of the block picked in round k. */
  lemma {:induction false} GatheredBit(s: Blocks, picks: seq<nat>, k: nat)
    requires (forall i | 0 <= i < |picks| :: picks[i] < |s|) && k < |picks|
    ensures BitAt(Gathered(s, picks), k) == Bit(s[picks[k]])
  {
    var rest := Gathered(s, picks[1..]);
    assert Gathered(s, picks) % 2 == Bit(s[picks[0]]) && Gathered(s, picks) / 2 == rest;
    if k > 0 {
      GatheredBit(s, picks[1..], k - 1);
    }
  }

  // Where the selection for a block after prev starts
  function SelectionStart(kernel: Kernel, prev: Index): int
    requires prev.Index? && kernel.interval > 0
  {
    prev.time / kernel.interval * kernel.interval - kernel.Sections(ROUNDS)
  }

  function Candidates(kernel: Kernel, prev: Index): Blocks
    requires prev.Index? && kernel.interval > 0
  {
    SortBlocks(Collected(prev, SelectionStart(kernel, prev)))
  }

  /** The selection ends where the modifier interval of the predecessor begins. */
  lemma SelectionEnds(kernel: Kernel, prev: Index) returns (slot: nat)
    requires prev.Index? && kernel.interval > 0
    ensures var end := SelectionStart(kernel, prev) + kernel.Sections(ROUNDS);
      end == slot * kernel.interval && end <= prev.time < end + kernel.interval
  {
    hide Kernel.Sections;
    slot := prev.time / kernel.interval;
    Divided(prev.time, kernel.interval);
  }

  // All blocks from a to b are at or after start.
  predicate AllSince(a: Index, b: Index, start: int)
    decreases b
  {
    b.Index? && b.time >= start && (a == b || AllSince(a, b.pprev, start))
  }

  /** The candidates are the blocks back to the first that is too old. */
  lemma {:induction false} CollectedAre(a: Index, b: Index, start: int)
    requires a.Index?
    ensures a in Collected(b, start) <==> IsAncestor(a, b) && AllSince(a, b, start)
    decreases b
  {
    if b.Index? && b.time >= start {
      CollectedAre(a, b.pprev, start);
    }
  }

  // Some candidate is still free in round i.
  lemma SomeFree(s: Blocks, picks: seq<nat>)
    requires (forall i | 0 <= i < |picks| :: picks[i] < |s|) && |picks| < |Ids(s)|
    ensures exists i :: Free(s, PickedIds(s, picks), i)
  {
    PickedCount(s, picks);
    if Ids(s) <= PickedIds(s, picks) {
      SubsetCount(Ids(s), PickedIds(s, picks));
      assert false;
    }
    var id :| id in Ids(s) && id !in PickedIds(s, picks);
    var i :| 0 <= i < |s| && s[i].id == id;
    assert Free(s, PickedIds(s, picks), i);
  }

  lemma {:induction false} SubsetCount(a: set<nat>, b: set<nat>)
    requires a <= b
    ensures |a| <= |b|
  {
    assert b == a + (b - a);
  }

  lemma {:induction false} PickedCount(s: Blocks, picks: seq<nat>)
    requires forall i | 0 <= i < |picks| :: picks[i] < |s|
    ensures |PickedIds(s, picks)| <= |picks|
  {
    if picks == [] {
      assert PickedIds(s, picks) == {};
    } else {
      var last := |picks| - 1;
      PickedCount(s, picks[..last]);
      PickedNext(s, picks[..last], picks[last]);
      assert picks == picks[..last] + [picks[last]];
    }
  }

  lemma PickedNext(s: Blocks, picks: seq<nat>, k: nat)
    requires (forall i | 0 <= i < |picks| :: picks[i] < |s|) && k < |s|
    ensures PickedIds(s, picks + [k]) == PickedIds(s, picks) + {s[k].id}
  {
    var more := picks + [k];
    assert more[|picks|] == k;
    forall id ensures id in PickedIds(s, more) <==> id in PickedIds(s, picks) + {s[k].id} {
      if id in PickedIds(s, picks) {
        var i :| 0 <= i < |picks| && s[picks[i]].id == id;
        assert more[i] == picks[i];
      }
    }
  }

  lemma PickedExtends(kernel: Kernel, s: Blocks, start: int, modifier: nat, picks: seq<nat>, k: nat)
    requires Picked(kernel, s, start, modifier, picks) && |picks| < ROUNDS && k < |s|
    requires Wins(kernel, s, PickedIds(s, picks), start + kernel.Sections(|picks| + 1), modifier, k)
    ensures Picked(kernel, s, start, modifier, picks + [k])
  {
    hide Wins, PickedIds, Kernel.Sections;
    var more := picks + [k];
    forall i | 0 <= i < |more|
      ensures Wins(kernel, s, PickedIds(s, more[..i]), start + kernel.Sections(i + 1), modifier, more[i])
    {
      assert more[..i] == if i == |picks| then picks else picks[..i];
    }
  }

  method ComputeNextStakeModifier(kernel: Kernel, current: Index) returns (ok: bool, modifier: nat, generated: bool, ghost picks: seq<nat>)
    requires current.Index? && kernel.interval > 0
    requires Marked(kernel, current.pprev) && Distinct(current.pprev)
    ensures ok && (generated <==> Renews(kernel, current))
    ensures current.pprev.Null? ==> modifier == 0
    ensures !generated ==> modifier == LastRenewal(current.pprev).modifier
    ensures generated && current.pprev.Index? ==>
      var s := Candidates(kernel, current.pprev);
      && Picked(kernel, s, SelectionStart(kernel, current.pprev), LastRenewal(current.pprev).modifier, picks)
      && |picks| == Min(ROUNDS, |s|)
      && modifier == Gathered(s, picks)
  {
    hide Marked, Distinct, LastRenewal, Kernel.Section, Kernel.Sections, Wins, Picked, SortBlocks, Collected, Ids, PickedIds, Ordered;
    picks := [];
    var prev := current.pprev;
    if prev.Null? {
      return true, 0, true, picks;
    }
    var time;
    LastRenewalGenerated(kernel, prev);
    ok, modifier, time := GetLastStakeModifier(prev);
    var slot := time / kernel.interval;
    if slot >= prev.time / kernel.interval || (slot >= current.time / kernel.interval && kernel.IsV04(current.time)) {
      return true, modifier, false, picks;
    }
    var length := GetStakeModifierSelectionInterval(kernel);
    var start: int := prev.time / kernel.interval * kernel.interval - length;
    var s := CollectCandidates(prev, start);
    NoPicks(kernel, s, start, modifier);
    var stop := start;
    var next := 0;
    var selected: set<nat> := {};
    var rounds := Min(ROUNDS, |s|);
    for round := 0 to rounds
      invariant |picks| == round && Picked(kernel, s, start, modifier, picks)
      invariant forall i | 0 <= i < |picks| :: picks[i] < |s|
      invariant selected == PickedIds(s, picks)
      invariant stop == start + kernel.Sections(round)
      invariant next == Gathered(s, picks)
    {
      NextSection(kernel, round);
      stop := stop + kernel.Section(round);
      SomeFree(s, picks);
      var found, k := SelectBlockFromCandidates(kernel, s, selected, stop, modifier);
      WinnerInRange(kernel, s, selected, stop, modifier, k);
      next := next + if s[k].entropy then Pow2(round) else 0;
      PickedExtends(kernel, s, start, modifier, picks, k);
      PickedNext(s, picks, k);
      GatheredNext(s, picks, k);
      selected := selected + {s[k].id};
      picks := picks + [k];
    }
    return true, next, true, picks;
  }

  lemma NextSection(kernel: Kernel, k: nat)
    requires k < ROUNDS
    ensures kernel.Sections(k + 1) == kernel.Sections(k) + kernel.Section(k)
  {}

  lemma NoPicks(kernel: Kernel, s: Blocks, start: int, modifier: nat)
    ensures Picked(kernel, s, start, modifier, []) && PickedIds(s, []) == {} && kernel.Sections(0) == 0
  {}

  lemma WinnerInRange(kernel: Kernel, s: Blocks, selected: set<nat>, stop: int, modifier: nat, k: int)
    requires Wins(kernel, s, selected, stop, modifier, k)
    ensures 0 <= k < |s| && s[k].id !in selected
  {}

  lemma {:induction false} GatheredNext(s: Blocks, picks: seq<nat>, k: nat)
    requires (forall i | 0 <= i < |picks| :: picks[i] < |s|) && k < |s|
    ensures Gathered(s, picks + [k]) == Gathered(s, picks) + if s[k].entropy then Pow2(|picks|) else 0
    decreases |picks|
  {
    if picks == [] {
      assert picks + [k] == [k];
      assert Gathered(s, [k][1..]) == 0;
    } else {
      assert (picks + [k])[1..] == picks[1..] + [k];
      GatheredNext(s, picks[1..], k);
    }
  }

  // The candidates, sorted; all have different ids.
  method CollectCandidates(prev: Index, start: int) returns (s: Blocks)
    requires Distinct(prev)
    ensures s == SortBlocks(Collected(prev, start))
    ensures Ordered(s) && |Ids(s)| == |s|
  {
    hide Ids, Ordered, SortBlocks, Distinct, Collected;
    var c: Blocks := [];
    var at := prev;
    while at.Index? && at.time >= start
      invariant Collected(prev, start) == Collected(at, start) + c
      decreases at
    {
      CollectedStep(at, start, c);
      c := [at] + c;
      at := at.pprev;
    }
    CollectedEnd(at, start, c);
    CollectedDistinct(prev, start);
    SortKeeps(c);
    s := SortBlocks(c);
  }

  lemma CollectedStep(at: Index, start: int, c: Blocks)
    requires at.Index? && at.time >= start
    ensures Collected(at, start) + c == Collected(at.pprev, start) + ([at] + c)
  {}

  lemma CollectedEnd(at: Index, start: int, c: Blocks)
    requires at.Null? || at.time < start
    ensures Collected(at, start) + c == c
  {}

  /** The picks, and with them the modifier, are determined by the block and its
      predecessors. */
  lemma {:induction false} PicksAreDetermined(kernel: Kernel, s: Blocks, start: int, modifier: nat, picks: seq<nat>, picks': seq<nat>)
    requires Picked(kernel, s, start, modifier, picks) && Picked(kernel, s, start, modifier, picks') && |picks| == |picks'|
    ensures picks == picks'
  {
    hide Wins, PickedIds, Kernel.Sections;
    if picks != [] {
      var last := |picks| - 1;
      PickedPrefix(kernel, s, start, modifier, picks);
      PickedPrefix(kernel, s, start, modifier, picks');
      PicksAreDetermined(kernel, s, start, modifier, picks[..last], picks'[..last]);
      WinnerIsUnique(kernel, s, PickedIds(s, picks[..last]), start + kernel.Sections(last + 1), modifier, picks[last], picks'[last]);
      assert picks == picks[..last] + [picks[last]];
    }
  }

  lemma PickedPrefix(kernel: Kernel, s: Blocks, start: int, modifier: nat, picks: seq<nat>)
    requires picks != [] && Picked(kernel, s, start, modifier, picks)
    ensures Picked(kernel, s, start, modifier, picks[..|picks| - 1])
  {
    hide Wins, PickedIds, Kernel.Sections;
    var less := picks[..|picks| - 1];
    forall i | 0 <= i < |less|
      ensures Wins(kernel, s, PickedIds(s, less[..i]), start + kernel.Sections(i + 1), modifier, less[i])
    {
      assert less[..i] == picks[..i];
    }
  }

  /** No block is picked twice. */
  lemma PicksAreDistinct(kernel: Kernel, s: Blocks, start: int, modifier: nat, picks: seq<nat>, i: nat, j: nat)
    requires Picked(kernel, s, start, modifier, picks) && i < j < |picks|
    ensures s[picks[i]].id != s[picks[j]].id
  {
    hide Kernel.Sections, Wins;
    var before := picks[..j];
    assert before[i] == picks[i];
    assert s[picks[i]].id in PickedIds(s, before);
    WinnerInRange(kernel, s, PickedIds(s, before), start + kernel.Sections(j + 1), modifier, picks[j]);
  }

  // --- the modifier a kernel is hashed with

  // Whether the search along the main chain from path[0] may stop at i
  predicate LateEnough(path: Blocks, length: nat, i: int) {
    0 <= i < |path| && (i == 0 || path[i].generated) && path[i].time >= path[0].time + length
  }

  /** The modifier is that of the first renewal at least a selection interval
      later than the block, on the main chain from that block on. */
  method GetKernelStakeModifier(kernel: Kernel, path: Blocks) returns (ok: bool, modifier: nat, height: nat, time: nat, ghost at: nat)
    requires path != []
    ensures ok <==> exists i :: LateEnough(path, kernel.Sections(ROUNDS), i)
    ensures ok ==>
      && LateEnough(path, kernel.Sections(ROUNDS), at)
      && (forall i | LateEnough(path, kernel.Sections(ROUNDS), i) :: at <= i)
      && modifier == path[at].modifier && height == path[at].height && time == path[at].time
  {
    hide Kernel.Sections;
    var length := GetStakeModifierSelectionInterval(kernel);
    height, time, at := path[0].height, path[0].time, 0;
    ghost var seen := 0;
    var i := 0;
    while time < path[0].time + length
      invariant 0 <= seen <= i < |path| && (seen == 0 || path[seen].generated)
      invariant height == path[seen].height && time == path[seen].time
      invariant forall j | 0 <= j < i :: !LateEnough(path, length, j)
      invariant time < path[0].time + length ==> !LateEnough(path, length, i)
      invariant time >= path[0].time + length ==> seen == i
      decreases |path| - i
    {
      if i == |path| - 1 {
        return false, 0, height, time, 0;
      }
      i := i + 1;
      if path[i].generated {
        height, time, seen := path[i].height, path[i].time, i;
      }
    }
    assert LateEnough(path, length, i);
    return true, path[i].modifier, height, time, i;
  }
}
