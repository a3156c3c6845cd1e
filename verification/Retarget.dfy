/**
 The target a new block of either kind must meet.
 */
module Retarget {
  import opened Basics
  import opened Headers
  import opened Compact

  const PAST_BLOCKS_MIN := 2
  const PAST_BLOCKS_MAX := 24
  const POW_SWITCH_HEIGHT := 8
  const WORK_SPACING := 300
  const STAKE_SPACING := 120
  const WORK_SPACING_MAX := 60 * STAKE_SPACING

  // The limits of a network
  datatype Limits = Limits(oldWork: nat, newWork: nat, firstStake: nat)
  {
    predicate Ok() {
      oldWork <= newWork < TWO_256 && firstStake <= newWork
    }

    function Work(height: nat): nat {
      if height < POW_SWITCH_HEIGHT then oldWork else newWork
    }
  }

  const MAIN_NET := Limits(TWO_256 / 0x2_0000 - 1, TWO_256 / 0x400 - 1, TWO_256 / 0x10_0000_0000 - 1)

  lemma MainNetLimits()
    ensures MAIN_NET.Ok() && MAIN_NET.oldWork < MAIN_NET.newWork
  {}

  // --- blocks of one kind

  function LastOfType(b: Index, stake: bool): Index {
    if b.Null? || b.stake == stake then b else LastOfType(b.pprev, stake)
  }

  method GetLastBlockIndex2(b: Index, stake: bool) returns (r: Index)
    ensures r == LastOfType(b, stake)
  {
    r := b;
    while r.Index? && r.stake != stake
      invariant LastOfType(r, stake) == LastOfType(b, stake)
      decreases r
    {
      r := r.pprev;
    }
  }

  function TypeHeight(b: Index, stake: bool): int {
    if b.Null? then 0 else if stake then b.height - b.powHeight else b.powHeight
  }

  // Heights as AddToBlockIndex sets them
  predicate Heights(b: Index) {
    b.Index? ==>
      if b.pprev.Null? then b.height == 0 && b.powHeight == 0
      else b.height == b.pprev.height + 1 && b.powHeight == b.pprev.powHeight + (if b.stake then 0 else 1) && Heights(b.pprev)
  }

  lemma {:induction false} AncestorHeights(a: Index, b: Index)
    requires IsAncestor(a, b) && Heights(b)
    ensures Heights(a) && TypeHeight(a, true) <= TypeHeight(b, true)
    ensures a.Index? ==> a.powHeight <= a.height
    decreases b
  {
    if b.Index? && a != b {
      AncestorHeights(a, b.pprev);
      AncestorHeights(b.pprev, b.pprev);
    } else if b.Index? && b.pprev.Index? {
      AncestorHeights(b.pprev, b.pprev);
    }
  }

  lemma {:induction false} LastOfTypeIsAncestor(b: Index, stake: bool)
    ensures IsAncestor(LastOfType(b, stake), b)
  {
    if b.Index? && b.stake != stake {
      LastOfTypeIsAncestor(b.pprev, stake);
    }
  }

  lemma {:induction false} AncestorTrans(a: Index, b: Index, c: Index)
    requires IsAncestor(a, b) && IsAncestor(b, c)
    ensures IsAncestor(a, c)
    decreases c
  {
    if b != c {
      AncestorTrans(a, b, c.pprev);
    }
  }

  // --- the window

  // The blocks that are read, latest first
  function Read(b: Index, stake: bool, n: nat): seq<Index>
    decreases n
  {
    if n == 0 || TypeHeight(b, stake) <= 1 then [] else [b] + Read(LastOfType(b.pprev, stake), stake, n - 1)
  }

  function TruncDiv(a: int, b: int): int
    requires b > 0
  {
    if a >= 0 then a / b else -((-a) / b)
  }

  function Target(b: Index): int
    requires b.Index? && b.bits < 0x1_0000_0000
  {
    FromCompact(b.bits)
  }

  ghost predicate AllIndexed(w: seq<Index>) {
    forall i | 0 <= i < |w| :: w[i].Index? && w[i].bits < 0x1_0000_0000
  }

  // The average, updated block by block with a rounding division each time
  ghost function Average(w: seq<Index>): int
    requires w != [] && AllIndexed(w)
  {
    var n := |w| - 1;
    if n == 0 then Target(w[0]) else TruncDiv(Average(w[..n]) * n + Target(w[n]), n + 1)
  }

  // --- the next target

  function TargetTimespan(last: Index, oldest: Index, stake: bool, count: nat): int {
    if stake then count * STAKE_SPACING else
    var span := count * WORK_SPACING + (TypeHeight(last, true) - TypeHeight(oldest, true)) * STAKE_SPACING;
    if span > count * WORK_SPACING_MAX then count * WORK_SPACING_MAX else span
  }

  function MaxAdjust(count: nat): real {
    1.0 + 2.0 * (count as real) / (PAST_BLOCKS_MAX as real)
  }

  function Bounded(actual: int, low: real, high: real): int {
    var raised := if actual as real < low then low.Floor else actual;
    if raised as real > high then high.Floor else raised
  }

  function Clamp(actual: int, span: nat, count: nat): int {
    Bounded(actual, Shortest(span, MaxAdjust(count)), Longest(span, MaxAdjust(count)))
  }

  function Shortest(span: nat, adjust: real): real
    requires adjust > 0.0
  {
    span as real / adjust
  }

  function Longest(span: nat, adjust: real): real {
    span as real * adjust
  }

  predicate Bits32(b: Index) {
    b.Index? ==> b.bits < 0x1_0000_0000 && Bits32(b.pprev)
  }

  lemma {:induction false} ReadBlocks(b: Index, stake: bool, n: nat)
    requires Heights(b) && Bits32(b)
    ensures AllIndexed(Read(b, stake, n)) && |Read(b, stake, n)| <= n
    ensures forall i | 0 <= i < |Read(b, stake, n)| :: IsAncestor(Read(b, stake, n)[i], b)
    decreases n
  {
    if n > 0 && TypeHeight(b, stake) > 1 {
      var next := LastOfType(b.pprev, stake);
      LastOfTypeIsAncestor(b.pprev, stake);
      AncestorHeights(next, b.pprev);
      AncestorBits(next, b.pprev);
      ReadBlocks(next, stake, n - 1);
      var w := Read(next, stake, n - 1);
      forall i | 0 <= i < |w| ensures IsAncestor(w[i], b) {
        AncestorTrans(w[i], next, b.pprev);
      }
    }
  }

  lemma {:induction false} AncestorBits(a: Index, b: Index)
    requires IsAncestor(a, b) && Bits32(b)
    ensures Bits32(a)
    decreases b
  {
    if a != b {
      AncestorBits(a, b.pprev);
    }
  }

  // The blocks GetNextTargetRequired averages over
  ghost function Past(last: Index, stake: bool): seq<Index> {
    Read(LastOfType(last, stake), stake, PAST_BLOCKS_MAX)
  }

  lemma PastBlocks(last: Index, stake: bool)
    requires Heights(last) && Bits32(last)
    ensures AllIndexed(Past(last, stake)) && |Past(last, stake)| <= PAST_BLOCKS_MAX
    ensures forall i | 0 <= i < |Past(last, stake)| :: IsAncestor(Past(last, stake)[i], last)
  {
    var b := LastOfType(last, stake);
    LastOfTypeIsAncestor(last, stake);
    AncestorHeights(b, last);
    AncestorBits(b, last);
    ReadBlocks(b, stake, PAST_BLOCKS_MAX);
    forall i | 0 <= i < |Past(last, stake)| ensures IsAncestor(Past(last, stake)[i], last) {
      AncestorTrans(Past(last, stake)[i], b, last);
    }
  }

  // Whether the target is an average and not a fixed value
  predicate Averages(last: Index, stake: bool)
    requires last.Index?
  {
    && !(POW_SWITCH_HEIGHT <= last.height < POW_SWITCH_HEIGHT + 8)
    && TypeHeight(LastOfType(last, stake), stake) - 1 >= PAST_BLOCKS_MIN
  }

  lemma SpanPositive(last: Index, oldest: Index, stake: bool, count: nat)
    requires Heights(last) && IsAncestor(oldest, last) && count > 0
    ensures TargetTimespan(last, oldest, stake, count) > 0
    ensures TargetTimespan(last, oldest, stake, count) % 3 == 0
  {
    hide Heights, IsAncestor;
    AncestorHeights(oldest, last);
    WorkSpan(count, TypeHeight(last, true) - TypeHeight(oldest, true));
  }

  lemma WorkSpan(count: nat, s: nat)
    requires count > 0
    ensures count * STAKE_SPACING > 0 && count * STAKE_SPACING % 3 == 0
    ensures count * WORK_SPACING_MAX > 0 && count * WORK_SPACING_MAX % 3 == 0
    ensures count * WORK_SPACING + s * STAKE_SPACING > 0 && (count * WORK_SPACING + s * STAKE_SPACING) % 3 == 0
  {
    Thrice(count * 40);
    Thrice(count * 2400);
    Thrice(count * 100 + s * 40);
  }

  lemma Thrice(x: int)
    ensures 3 * x % 3 == 0
  {}

  // The averaged target before the limit is applied
  ghost function Adjusted(last: Index, stake: bool): int
    requires last.Index? && Heights(last) && Bits32(last) && Averages(last, stake)
  {
    PastBlocks(last, stake);
    var w := Past(last, stake);
    var count := |w|;
    var oldest := w[count - 1];
    SpanPositive(last, oldest, stake, count);
    var span := TargetTimespan(last, oldest, stake, count);
    TruncDiv(Average(w) * Clamp(last.time - oldest.time, span, count), span)
  }

  ghost function NextTarget(limits: Limits, last: Index, stake: bool): int
    requires last.Index? && Heights(last) && Bits32(last)
  {
    if POW_SWITCH_HEIGHT <= last.height < POW_SWITCH_HEIGHT + 8 then limits.newWork
    else if !Averages(last, stake) then (if stake then limits.firstStake else limits.Work(last.height))
    else Min(Adjusted(last, stake), limits.Work(last.height))
  }

  method GetNextTargetRequired(limits: Limits, last: Index, stake: bool) returns (bits: uint32)
    requires last.Index? && Heights(last) && Bits32(last)
    ensures bits == ToCompact(NextTarget(limits, last, stake))
  {
    hide FromCompact, ToCompact, LastOfType, Heights, Bits32, IsAncestor, AllIndexed, Read, TruncDiv, Clamp;
    if last.height >= POW_SWITCH_HEIGHT && last.height < POW_SWITCH_HEIGHT + 8 {
      bits := GetCompact(limits.newWork);
      return;
    }
    var reading := GetLastBlockIndex2(last, stake);
    var limit := limits.Work(last.height);
    if TypeHeight(reading, stake) - 1 < PAST_BLOCKS_MIN {
      bits := GetCompact(if stake then limits.firstStake else limit);
      return;
    }
    PastBlocks(last, stake);
    ghost var w := Past(last, stake);
    var count: nat, actual, lastTime: int, average := 0, 0, last.time, 0;
    var oldest := Null;
    while reading.Index? && TypeHeight(reading, stake) > 1 && count < PAST_BLOCKS_MAX
      invariant count <= |w| && count <= PAST_BLOCKS_MAX
      invariant w[count..] == Read(reading, stake, PAST_BLOCKS_MAX - count)
      invariant actual == last.time - lastTime
      invariant count > 0 ==> oldest == w[count - 1] && oldest.Index? && lastTime == oldest.time
      invariant count > 0 ==> AllIndexed(w[..count]) && average == Average(w[..count])
      invariant count == 0 ==> TypeHeight(reading, stake) > 1 && lastTime == last.time
      decreases PAST_BLOCKS_MAX - count
    {
      ReadStep(w, count, reading, stake);
      AverageStep(w, count);
      if count == 0 {
        average := SetCompact(reading.bits);
      } else {
        var target := SetCompact(reading.bits);
        average := TruncDiv(average * count + target, count + 1);
      }
      actual := actual + (lastTime - reading.time);
      lastTime := reading.time;
      oldest := reading;
      reading := GetLastBlockIndex2(reading.pprev, stake);
      count := count + 1;
    }
    ReadDone(w, count, reading, stake);
    assert w[..count] == w;
    SpanPositive(last, oldest, stake, count);
    var span := TargetTimespan(last, oldest, stake, count);
    actual := Clamp(actual, span, count);
    var target := TruncDiv(average * actual, span);
    if target > limit {
      target := limit;
    }
    bits := GetCompact(target);
  }

  lemma ReadStep(w: seq<Index>, count: nat, b: Index, stake: bool)
    requires count <= |w| && count < PAST_BLOCKS_MAX && TypeHeight(b, stake) > 1
    requires w[count..] == Read(b, stake, PAST_BLOCKS_MAX - count)
    ensures b.Index? && count < |w| && w[count] == b
    ensures w[count + 1..] == Read(LastOfType(b.pprev, stake), stake, PAST_BLOCKS_MAX - (count + 1))
  {
    assert w[count..][1..] == w[count + 1..];
    assert w[count..][0] == w[count];
  }

  lemma ReadDone(w: seq<Index>, count: nat, b: Index, stake: bool)
    requires count <= |w| && count <= PAST_BLOCKS_MAX
    requires b.Null? || TypeHeight(b, stake) <= 1 || count == PAST_BLOCKS_MAX
    requires w[count..] == Read(b, stake, PAST_BLOCKS_MAX - count)
    ensures count == |w|
  {
    assert |w[count..]| == 0;
  }

  lemma AverageStep(w: seq<Index>, count: nat)
    requires count < |w| && AllIndexed(w)
    ensures w[count].Index? && w[count].bits < 0x1_0000_0000 && AllIndexed(w[..count]) && AllIndexed(w[..count + 1])
    ensures Average(w[..count + 1]) ==
      if count == 0 then Target(w[0]) else TruncDiv(Average(w[..count]) * count + Target(w[count]), count + 1)
  {
    hide FromCompact, TruncDiv;
    assert w[..count + 1][..count] == w[..count];
  }

  // --- what the result is worth

  ghost predicate Within(w: seq<Index>, lo: int, hi: int)
    requires AllIndexed(w)
  {
    forall i | 0 <= i < |w| :: lo <= Target(w[i]) <= hi
  }

  lemma TruncDivBetween(a: int, n: nat, t: int, lo: int, hi: int)
    requires lo <= a <= hi && lo <= t <= hi
    ensures lo <= TruncDiv(a * n + t, n + 1) <= hi
  {
    hide TruncDiv;
    var x := a * n + t;
    assert lo * n <= a * n <= hi * n;
    assert lo * (n + 1) <= x <= hi * (n + 1);
    QuotientBetween(x, n + 1, lo, hi);
  }

  lemma Smaller(a: int, b: int, n: nat)
    requires a * n < b * n
    ensures a < b
  {
    assert a >= b ==> a * n >= b * n;
  }

  lemma Quotients(x: nat, n: nat)
    requires n > 0
    ensures x / n * n <= x < (x / n + 1) * n
  {}

  lemma QuotientBetween(x: int, n: nat, lo: int, hi: int)
    requires n > 0 && lo * n <= x <= hi * n
    ensures lo <= TruncDiv(x, n) <= hi
  {
    var q := TruncDiv(x, n);
    Quotients(Abs(x), n);
    if x >= 0 {
      Smaller(lo, q + 1, n);
      Smaller(q, hi + 1, n);
    } else {
      assert q * n >= x > (q - 1) * n;
      Smaller(lo, q + 1, n);
      Smaller(q - 1, hi, n);
    }
  }

  /** The running average lies between any bounds on the targets read. */
  lemma {:induction false} AverageWithin(w: seq<Index>, lo: int, hi: int)
    requires w != [] && AllIndexed(w) && Within(w, lo, hi)
    ensures lo <= Average(w) <= hi
    decreases |w|
  {
    hide FromCompact, TruncDiv;
    var n := |w| - 1;
    if n > 0 {
      AverageWithin(w[..n], lo, hi);
      TruncDivBetween(Average(w[..n]), n, Target(w[n]), lo, hi);
    }
  }

  /** The clamped timespan is at least a third of the wanted one and at most three
      times it. */
  lemma ClampBounds(actual: int, span: nat, count: nat)
    requires 0 < count <= PAST_BLOCKS_MAX && span % 3 == 0
    ensures span <= 3 * Clamp(actual, span, count) && Clamp(actual, span, count) <= 3 * span
  {
    hide MaxAdjust, Shortest, Longest;
    AdjustRange(count);
    SpanRange(span, MaxAdjust(count));
    BoundedBetween(actual, Shortest(span, MaxAdjust(count)), Longest(span, MaxAdjust(count)), span / 3, 3 * span);
  }

  lemma AdjustRange(count: nat)
    requires count <= PAST_BLOCKS_MAX
    ensures 1.0 <= MaxAdjust(count) <= 3.0
  {}

  lemma SpanRange(span: nat, adjust: real)
    requires 1.0 <= adjust <= 3.0 && span % 3 == 0
    ensures (span / 3) as real <= Shortest(span, adjust) <= Longest(span, adjust) <= (3 * span) as real
  {
    var s := span as real;
    var third := (span / 3) as real;
    assert third * 3.0 == s;
    Division(s, adjust);
    Quotient(s, adjust, s / adjust, third);
    Product(s, adjust);
  }

  lemma Division(s: real, adjust: real)
    requires adjust > 0.0
    ensures s / adjust * adjust == s
  {}

  lemma BoundedBetween(actual: int, low: real, high: real, a: int, b: int)
    requires a as real <= low <= high <= b as real
    ensures a <= Bounded(actual, low, high) <= b
  {}

  lemma Quotient(s: real, adjust: real, x: real, third: real)
    requires 1.0 <= adjust <= 3.0 && 0.0 <= third && third * 3.0 == s && x * adjust == s
    ensures third <= x <= s
  {
    assert third * adjust <= third * 3.0;
    NotLarger(third, x, adjust);
    assert s * 1.0 <= s * adjust;
    NotLarger(x, s, adjust);
  }

  lemma NotLarger(a: real, b: real, c: real)
    requires c > 0.0 && a * c <= b * c
    ensures a <= b
  {
    assert a > b ==> a * c > b * c;
  }

  lemma Product(s: real, adjust: real)
    requires 1.0 <= adjust <= 3.0 && 0.0 <= s
    ensures s <= s * adjust <= 3.0 * s
  {}

  lemma Larger(a: nat, b: nat, c: nat, d: nat)
    requires a <= b && c <= d
    ensures a * c <= b * d
  {
    assert a * c <= a * d <= b * d;
  }

  lemma ScaledQuotient(average: nat, actual: int, span: nat)
    requires span > 0 && span <= 3 * actual && actual <= 3 * span
    ensures average / 3 <= TruncDiv(average * actual, span) <= 3 * average
  {
    hide TruncDiv;
    var third := average / 3;
    Larger(average, average, actual, 3 * span);
    Thirds(average, span);
    Larger(third, third, span, 3 * actual);
    Thirds(third, actual);
    Larger(3 * third, average, actual, actual);
    QuotientBetween(average * actual, span, third, 3 * average);
  }

  lemma Thirds(a: int, b: int)
    ensures a * (3 * b) == (3 * a) * b
  {}

  /** An averaged target is between a third of the lowest and three times the
      highest target read. */
  lemma AdjustedBounds(last: Index, stake: bool, lo: nat, hi: nat)
    requires last.Index? && Heights(last) && Bits32(last) && Averages(last, stake)
    requires AllIndexed(Past(last, stake)) && Within(Past(last, stake), lo, hi)
    ensures lo / 3 <= Adjusted(last, stake) <= 3 * hi
  {
    hide FromCompact, TruncDiv, Clamp, LastOfType, Heights, Bits32, TargetTimespan, Average, Read;
    PastBlocks(last, stake);
    var w := Past(last, stake);
    var count := |w|;
    PastNotEmpty(last, stake);
    var oldest := w[count - 1];
    SpanPositive(last, oldest, stake, count);
    var span := TargetTimespan(last, oldest, stake, count);
    AverageWithin(w, lo, hi);
    var actual := Clamp(last.time - oldest.time, span, count);
    ClampBounds(last.time - oldest.time, span, count);
    ScaledQuotient(Average(w), actual, span);
  }

  lemma PastNotEmpty(last: Index, stake: bool)
    requires last.Index? && Averages(last, stake)
    ensures Past(last, stake) != []
  {}

  // Bits as AcceptBlock demands them; the genesis block has the first limit.
  ghost predicate BitsAccepted(limits: Limits, b: Index) {
    b.Index? ==>
      if b.pprev.Null? then b.bits == ToCompact(limits.Work(0))
      else
        && BitsAccepted(limits, b.pprev) && Heights(b.pprev) && Bits32(b.pprev)
        && b.bits == ToCompact(NextTarget(limits, b.pprev, b.stake))
  }

  lemma {:induction false} AcceptedAncestor(limits: Limits, a: Index, b: Index)
    requires IsAncestor(a, b) && BitsAccepted(limits, b)
    ensures BitsAccepted(limits, a)
    decreases b
  {
    hide Heights, Bits32, NextTarget, ToCompact;
    if a != b {
      AcceptedAncestor(limits, a, b.pprev);
    }
  }

  // The next target is not negative and within the limit.
  lemma NextTargetInRange(limits: Limits, last: Index, stake: bool)
    requires limits.Ok() && last.Index? && Heights(last) && Bits32(last)
    requires Averages(last, stake) ==> AllIndexed(Past(last, stake)) && Within(Past(last, stake), 0, limits.newWork)
    ensures 0 <= NextTarget(limits, last, stake) <= limits.newWork
  {
    hide Adjusted, Averages, Heights, Bits32, Past, Within;
    if Averages(last, stake) {
      AdjustedBounds(last, stake, 0, limits.newWork);
    }
  }

  /** On every chain whose targets AcceptBlock accepts, each decoded target is
      within the limit, so that the upper range test of CheckProofOfWork never
      fails. */
  lemma {:induction false} TargetsInRange(limits: Limits, b: Index)
    requires limits.Ok() && b.Index? && BitsAccepted(limits, b)
    ensures b.bits < 0x1_0000_0000 && 0 <= Target(b) <= limits.newWork
    decreases Size(b)
  {
    hide Heights, Bits32, NextTarget, FromCompact, ToCompact, Averages, Past, AllIndexed, IsAncestor;
    if b.pprev.Null? {
      NeverAbove(limits.Work(0));
    } else {
      var last := b.pprev;
      PastBlocks(last, b.stake);
      var w := Past(last, b.stake);
      forall i | 0 <= i < |w| ensures w[i].Index? && w[i].bits < 0x1_0000_0000 && 0 <= Target(w[i]) <= limits.newWork {
        AcceptedAncestor(limits, w[i], last);
        EntryIndexed(w, i);
        AncestorIsSmaller(w[i], last);
        TargetsInRange(limits, w[i]);
      }
      NextTargetInRange(limits, last, b.stake);
      NeverAbove(NextTarget(limits, last, b.stake));
    }
  }

  lemma EntryIndexed(w: seq<Index>, i: nat)
    requires AllIndexed(w) && i < |w|
    ensures w[i].Index? && w[i].bits < 0x1_0000_0000
  {}

  function Size(b: Index): nat {
    if b.Null? then 0 else 1 + Size(b.pprev)
  }

  lemma {:induction false} AncestorIsSmaller(a: Index, b: Index)
    requires IsAncestor(a, b)
    ensures Size(a) <= Size(b)
    decreases b
  {
    if a != b {
      AncestorIsSmaller(a, b.pprev);
    }
  }
}
