/**
 How the next target answers to the time that the last blocks took.
 */
module TargetResponse {
  import opened Basics
  import opened ScriptBytes
  import opened ScriptNumbers
  import opened Headers
  import opened Compact
  import opened Retarget

  // --- the wanted time

  // The stake blocks after a on the way to b
  function StakeBetween(a: Index, b: Index): nat {
    if a == b || b.Null? then 0 else (if b.stake then 1 else 0) + StakeBetween(a, b.pprev)
  }

  // The time that count blocks should take: two minutes a stake block; five minutes
  // a work block and two for each stake block on the way, but at most two hours a
  // work block.
  function Wanted(last: Index, oldest: Index, stake: bool, count: nat): int {
    if stake then 120 * count else Min(300 * count + 120 * StakeBetween(oldest, last), 7200 * count)
  }

  lemma {:induction false} StakeBlocksCounted(a: Index, b: Index)
    requires a.Index? && IsAncestor(a, b) && Heights(b)
    ensures TypeHeight(b, true) - TypeHeight(a, true) == StakeBetween(a, b)
    decreases b
  {
    if a != b {
      StakeBlocksCounted(a, b.pprev);
    }
  }

  /** The target timespan is the wanted time. */
  lemma SpanIsWanted(last: Index, oldest: Index, stake: bool, count: nat)
    requires oldest.Index? && IsAncestor(oldest, last) && Heights(last)
    ensures TargetTimespan(last, oldest, stake, count) == Wanted(last, oldest, stake, count)
  {
    hide Heights, IsAncestor, StakeBetween;
    StakeBlocksCounted(oldest, last);
  }

  // --- the time that counts

  // With count blocks the time may be off by a factor of 1 + count / 12; beyond, it
  // counts as that much off.
  function Limited(actual: int, wanted: nat, count: nat): int {
    if actual * (12 + count) < 12 * wanted then 12 * wanted / (12 + count)
    else if 12 * actual > wanted * (12 + count) then wanted * (12 + count) / 12
    else actual
  }

  lemma FloorOf(x: real, a: nat, n: nat)
    requires n > 0 && x * (n as real) == a as real
    ensures x.Floor == a / n
  {
    var q := x.Floor;
    var next := q + 1;
    assert q as real <= x < next as real;
    Compared(q, x, a, n);
    Compared(next, x, a, n);
    DivisionIs(a, n, q);
  }

  lemma DivisionIs(a: nat, n: nat, q: int)
    requires n > 0 && q * n <= a < (q + 1) * n
    ensures a / n == q
  {
    Quotients(a, n);
    var r := a / n;
    Smaller(r, q + 1, n);
    Smaller(q, r + 1, n);
  }

  lemma AdjustIs(count: nat)
    ensures MaxAdjust(count) * 12.0 == (12 + count) as real && MaxAdjust(count) > 0.0
  {}

  lemma ShortestIs(wanted: nat, count: nat)
    ensures MaxAdjust(count) > 0.0
    ensures Shortest(wanted, MaxAdjust(count)) * ((12 + count) as real) == (12 * wanted) as real
  {
    AdjustIs(count);
    var s, adjust := wanted as real, MaxAdjust(count);
    Division(s, adjust);
    Regroup(s / adjust, adjust);
  }

  lemma Regroup(x: real, adjust: real)
    ensures x * (adjust * 12.0) == x * adjust * 12.0
  {}

  lemma LongestIs(wanted: nat, count: nat)
    ensures Longest(wanted, MaxAdjust(count)) * 12.0 == (wanted * (12 + count)) as real
  {
    AdjustIs(count);
    Regroup(wanted as real, MaxAdjust(count));
    assert (wanted * (12 + count)) as real == wanted as real * (12 + count) as real;
  }

  lemma Compared(actual: int, x: real, a: nat, n: nat)
    requires n > 0 && x * (n as real) == a as real
    ensures (actual as real) < x <==> actual * n < a
    ensures (actual as real) > x <==> actual * n > a
  {
    assert (actual * n) as real == actual as real * n as real;
    Ordered(actual as real, x, n as real);
    Ordered(x, actual as real, n as real);
  }

  lemma Ordered(x: real, y: real, c: real)
    requires c > 0.0
    ensures x < y ==> x * c < y * c
    ensures x == y ==> x * c == y * c
  {}

  /** The clamp, whose bounds the code computes with fractions, in whole seconds */
  lemma ClampIsLimited(actual: int, wanted: nat, count: nat)
    ensures Clamp(actual, wanted, count) == Limited(actual, wanted, count)
  {
    hide MaxAdjust, Shortest, Longest;
    AdjustIs(count);
    ShortestIs(wanted, count);
    LongestIs(wanted, count);
    var low, high := Shortest(wanted, MaxAdjust(count)), Longest(wanted, MaxAdjust(count));
    FloorOf(low, 12 * wanted, 12 + count);
    FloorOf(high, wanted * (12 + count), 12);
    Compared(actual, low, 12 * wanted, 12 + count);
    Compared(actual, high, wanted * (12 + count), 12);
    LowIsBelow(wanted, count);
    var raised := low.Floor;
    Compared(raised, high, wanted * (12 + count), 12);
  }

  lemma LowIsBelow(wanted: nat, count: nat)
    ensures 12 * wanted / (12 + count) <= wanted && 12 * (12 * wanted / (12 + count)) <= wanted * (12 + count)
    ensures wanted <= wanted * (12 + count) / 12
  {
    var q := 12 * wanted / (12 + count);
    Quotients(12 * wanted, 12 + count);
    Larger(q, q, 12, 12 + count);
    Larger(wanted, wanted, 12, 12 + count);
  }

  // --- the next target

  ghost predicate Ready(last: Index, stake: bool) {
    last.Index? && Heights(last) && Bits32(last) && Averages(last, stake)
  }

  // The block the window ends with, the mean target, and the time taken and wanted
  ghost function Oldest(last: Index, stake: bool): Index
    requires Ready(last, stake)
  {
    PastNotEmpty(last, stake);
    Past(last, stake)[|Past(last, stake)| - 1]
  }

  ghost function Mean(last: Index, stake: bool): int
    requires Ready(last, stake)
  {
    PastBlocks(last, stake);
    PastNotEmpty(last, stake);
    Average(Past(last, stake))
  }

  ghost function Due(last: Index, stake: bool): int
    requires Ready(last, stake)
  {
    Wanted(last, Oldest(last, stake), stake, |Past(last, stake)|)
  }

  ghost function Took(last: Index, stake: bool): int
    requires Ready(last, stake)
  {
    PastBlocks(last, stake);
    PastNotEmpty(last, stake);
    last.time - Oldest(last, stake).time
  }

  lemma DueIsSpan(last: Index, stake: bool)
    requires Ready(last, stake)
    ensures Due(last, stake) > 0 && 1 <= |Past(last, stake)| <= PAST_BLOCKS_MAX && Oldest(last, stake).Index?
    ensures Due(last, stake) == TargetTimespan(last, Oldest(last, stake), stake, |Past(last, stake)|)
  {
    hide Heights, Bits32, IsAncestor, Past, TargetTimespan, Wanted, Averages;
    PastBlocks(last, stake);
    PastNotEmpty(last, stake);
    SpanPositive(last, Oldest(last, stake), stake, |Past(last, stake)|);
    SpanIsWanted(last, Oldest(last, stake), stake, |Past(last, stake)|);
  }

  // The mean over the wanted time, times the time that counts, before the limit
  lemma AdjustedIs(last: Index, stake: bool)
    requires Ready(last, stake)
    ensures Due(last, stake) > 0
    ensures Adjusted(last, stake) == TruncDiv(Mean(last, stake) * Limited(Took(last, stake), Due(last, stake), |Past(last, stake)|), Due(last, stake))
  {
    hide Heights, Bits32, IsAncestor, Past, TargetTimespan, Wanted, Averages, Average, TruncDiv, Clamp, Limited, AllIndexed;
    DueIsSpan(last, stake);
    PastBlocks(last, stake);
    PastNotEmpty(last, stake);
    ClampIsLimited(Took(last, stake), Due(last, stake), |Past(last, stake)|);
  }

  // The target nobody may exceed at this height
  function Cap(limits: Limits, last: Index): nat
    requires last.Index?
  {
    limits.Work(last.height)
  }

  lemma NextIsLeast(limits: Limits, last: Index, stake: bool)
    requires Ready(last, stake)
    ensures NextTarget(limits, last, stake) == Min(Adjusted(last, stake), Cap(limits, last))
  {
    hide Heights, Bits32, Adjusted;
  }

  lemma LimitedBounds(actual: int, wanted: nat, count: nat)
    requires wanted > 0
    ensures 0 <= Limited(actual, wanted, count)
    ensures actual <= wanted ==> Limited(actual, wanted, count) <= wanted
    ensures actual >= wanted ==> Limited(actual, wanted, count) >= wanted
  {
    LowIsBelow(wanted, count);
    if actual < 0 {
      assert actual * (12 + count) < 0;
    }
    if actual <= wanted {
      Scales(actual, wanted, 12 + count);
    } else {
      Scales(wanted, actual, 12 + count);
    }
    Larger(wanted, wanted, 12, 12 + count);
  }

  lemma Scales(a: int, b: int, n: nat)
    requires a <= b
    ensures a * n <= b * n
  {}

  /** The next target is the mean of the last targets times the time taken over the
      time wanted, rounded down, unless that exceeds the limit. */
  lemma NextIsProportional(limits: Limits, last: Index, stake: bool)
    requires Ready(last, stake) && Mean(last, stake) >= 0
    ensures var r, due := NextTarget(limits, last, stake), Due(last, stake);
      var product := Mean(last, stake) * Limited(Took(last, stake), due, |Past(last, stake)|);
      && 0 < due && 0 <= r <= Cap(limits, last)
      && r * due <= product
      && (r < Cap(limits, last) ==> product < (r + 1) * due)
  {
    hide Heights, Bits32, Past, Averages, Mean, Due, Took, Limited, Adjusted, NextTarget;
    AdjustedIs(last, stake);
    NextIsLeast(limits, last, stake);
    var due := Due(last, stake);
    var time := Limited(Took(last, stake), due, |Past(last, stake)|);
    LimitedBounds(Took(last, stake), due, |Past(last, stake)|);
    var product := Mean(last, stake) * time;
    assert product >= 0;
    Quotients(product, due);
    Scales(NextTarget(limits, last, stake), product / due, due);
  }

  // --- as it is decoded

  // What is left of a target that is written in compact form
  function Rounded(x: int): int {
    FromCompact(ToCompact(x))
  }

  lemma PowerOf32()
    ensures TWO_256 == Power(32)
  {
    PowerValues();
    assert Power(8) == 256 * (256 * (256 * (256 * Power(4))));
    assert Power(12) == 256 * (256 * (256 * (256 * Power(8))));
    assert Power(16) == 256 * (256 * (256 * (256 * Power(12))));
    assert Power(20) == 256 * (256 * (256 * (256 * Power(16))));
    assert Power(24) == 256 * (256 * (256 * (256 * Power(20))));
    assert Power(28) == 256 * (256 * (256 * (256 * Power(24))));
    assert Power(32) == 256 * (256 * (256 * (256 * Power(28))));
  }

  /** Rounding keeps the order of targets. */
  lemma RoundedGrows(x: nat, y: nat)
    requires x <= y < TWO_256
    ensures 0 <= Rounded(x) <= Rounded(y) <= y
  {
    hide FromCompact, ToCompact, EncodeNum, Power;
    PowerOf32();
    EncodeSize(y, 32);
    NeverAbove(x);
    NeverAbove(y);
    GreatestBelow(y, ToCompact(x));
  }

  lemma CapBelow(limits: Limits, last: Index)
    requires limits.Ok() && last.Index?
    ensures Cap(limits, last) < TWO_256
  {}

  lemma Cancel(r: int, mean: nat, time: nat, due: nat)
    requires due > 0
    ensures time <= due && r * due <= mean * time ==> r <= mean
    ensures time >= due && mean * time < (r + 1) * due ==> mean <= r
  {
    if time <= due && r * due <= mean * time {
      Larger(mean, mean, time, due);
      Smaller(r, mean + 1, due);
    }
    if time >= due && mean * time < (r + 1) * due {
      Larger(mean, mean, due, time);
      Smaller(mean, r + 1, due);
    }
  }

  /** Blocks that came faster than wanted do not make the next target easier than
      their mean, blocks that came slower do not make it harder, up to the limit, and
      blocks that came in time leave it. */
  lemma TargetFollowsTime(limits: Limits, last: Index, stake: bool)
    requires limits.Ok() && Ready(last, stake) && Mean(last, stake) >= 0
    ensures var d, kept := Rounded(NextTarget(limits, last, stake)), Rounded(Min(Mean(last, stake), Cap(limits, last)));
      && (Took(last, stake) <= Due(last, stake) ==> d <= kept <= Mean(last, stake))
      && (Took(last, stake) >= Due(last, stake) ==> d >= kept)
      && (Took(last, stake) == Due(last, stake) ==> d == kept)
  {
    hide Heights, Bits32, Averages, Mean, Due, Took, Limited, NextTarget, Rounded, Past, Cap;
    NextIsProportional(limits, last, stake);
    var r, due, mean := NextTarget(limits, last, stake), Due(last, stake), Mean(last, stake);
    var time := Limited(Took(last, stake), due, |Past(last, stake)|);
    LimitedBounds(Took(last, stake), due, |Past(last, stake)|);
    CapBelow(limits, last);
    Cancel(r, mean, time, due);
    var kept := Min(mean, Cap(limits, last));
    if r <= kept {
      RoundedGrows(r, kept);
    }
    if kept <= r {
      RoundedGrows(kept, r);
    }
    RoundedGrows(kept, kept);
  }

  /** On every chain whose targets were accepted the mean is within the limits. */
  lemma MeanInRange(limits: Limits, last: Index, stake: bool)
    requires limits.Ok() && Ready(last, stake) && BitsAccepted(limits, last)
    ensures 0 <= Mean(last, stake) <= limits.newWork
  {
    hide Heights, Bits32, FromCompact, Averages, Past, AllIndexed, IsAncestor, BitsAccepted, Average;
    PastBlocks(last, stake);
    PastNotEmpty(last, stake);
    var w := Past(last, stake);
    forall i | 0 <= i < |w| ensures w[i].Index? && w[i].bits < 0x1_0000_0000 && 0 <= Target(w[i]) <= limits.newWork {
      AcceptedAncestor(limits, w[i], last);
      EntryIndexed(w, i);
      TargetsInRange(limits, w[i]);
    }
    AverageWithin(w, 0, limits.newWork);
  }

  // --- a later last block

  function Later(last: Index, t: nat): Index
    requires last.Index?
  {
    last.(time := t)
  }

  lemma {:induction false} NextOfType(b: Index, stake: bool)
    requires Heights(b)
    ensures Heights(LastOfType(b, stake)) && TypeHeight(LastOfType(b, stake), stake) == TypeHeight(b, stake)
  {
    if b.Index? && b.stake != stake {
      NextOfType(b.pprev, stake);
    }
  }

  // The first block may have another time; everything else that is read is the same.
  lemma SameWindow(last: Index, stake: bool, t: nat)
    requires Ready(last, stake)
    ensures Ready(Later(last, t), stake)
    ensures var w, w' := Past(last, stake), Past(Later(last, t), stake);
      && |w| == |w'| && w[1..] == w'[1..] && |w| >= 2
      && w[0].Index? && w'[0].Index? && w[0].bits == w'[0].bits
  {
    hide Bits32;
    LaterBits(last, t);
    var b := LastOfType(last, stake);
    NextOfType(last, stake);
    var next := LastOfType(b.pprev, stake);
    NextOfType(b.pprev, stake);
    LastIsOfType(last, stake);
    assert TypeHeight(next, stake) > 1;
    var more := Retarget.Read(next, stake, PAST_BLOCKS_MAX - 1);
    assert more != [];
    assert Past(last, stake) == [b] + more;
    var b' := if last.stake == stake then Later(last, t) else b;
    assert LastOfType(Later(last, t), stake) == b';
    assert Past(Later(last, t), stake) == [b'] + more;
  }

  lemma LaterBits(last: Index, t: nat)
    requires last.Index? && Bits32(last)
    ensures Bits32(Later(last, t)) && last.bits < 0x1_0000_0000
  {}

  lemma {:induction false} LastIsOfType(b: Index, stake: bool)
    ensures LastOfType(b, stake).Index? ==> LastOfType(b, stake).stake == stake
  {
    if b.Index? && b.stake != stake {
      LastIsOfType(b.pprev, stake);
    }
  }

  lemma {:induction false} SameAverage(w: seq<Index>, w': seq<Index>)
    requires |w| == |w'| > 0 && AllIndexed(w) && AllIndexed(w')
    requires w[1..] == w'[1..] && w[0].bits == w'[0].bits
    ensures Average(w) == Average(w')
    decreases |w|
  {
    hide TruncDiv, FromCompact;
    var n := |w| - 1;
    if n > 0 {
      assert w[n] == w[1..][n - 1] && w'[n] == w'[1..][n - 1];
      assert w[..n][1..] == w[1..][..n - 1] && w'[..n][1..] == w'[1..][..n - 1];
      SameAverage(w[..n], w'[..n]);
    }
  }

  // Only the time taken changes.
  lemma LaterTakesLonger(last: Index, stake: bool, t: nat)
    requires Ready(last, stake) && t >= last.time
    ensures Ready(Later(last, t), stake)
    ensures Mean(Later(last, t), stake) == Mean(last, stake) && Due(Later(last, t), stake) == Due(last, stake)
    ensures |Past(Later(last, t), stake)| == |Past(last, stake)|
    ensures Took(Later(last, t), stake) == Took(last, stake) + (t - last.time)
  {
    hide Heights, Bits32, Past, Averages, Average, AllIndexed, Wanted, TargetTimespan, IsAncestor;
    var last' := Later(last, t);
    SameWindow(last, stake, t);
    var w, w' := Past(last, stake), Past(last', stake);
    PastBlocks(last, stake);
    PastBlocks(last', stake);
    SameAverage(w, w');
    var n := |w| - 1;
    assert w[n] == w[1..][n - 1] == w'[1..][n - 1] == w'[n];
    DueIsSpan(last, stake);
    DueIsSpan(last', stake);
    SameSpan(last, t, Oldest(last, stake), stake, |w|);
  }

  lemma SameSpan(last: Index, t: nat, oldest: Index, stake: bool, count: nat)
    requires last.Index?
    ensures TargetTimespan(Later(last, t), oldest, stake, count) == TargetTimespan(last, oldest, stake, count)
  {}

  lemma LimitedGrows(actual: int, later: int, wanted: nat, count: nat)
    requires actual <= later && wanted > 0
    ensures Limited(actual, wanted, count) <= Limited(later, wanted, count)
  {
    Scales(actual, later, 12 + count);
    LowIsBelow(wanted, count);
    LimitedBounds(actual, wanted, count);
    LimitedBounds(later, wanted, count);
    AboveLow(later, wanted, count);
    BelowHigh(actual, wanted, count);
  }

  lemma AboveLow(actual: int, wanted: nat, count: nat)
    ensures actual * (12 + count) >= 12 * wanted ==> actual >= 12 * wanted / (12 + count)
  {
    var q := 12 * wanted / (12 + count);
    Quotients(12 * wanted, 12 + count);
    if actual * (12 + count) >= 12 * wanted {
      Smaller(q, actual + 1, 12 + count);
    }
  }

  lemma BelowHigh(actual: int, wanted: nat, count: nat)
    ensures 12 * actual <= wanted * (12 + count) ==> actual <= wanted * (12 + count) / 12
  {}

  lemma Monotone(r: int, r': int, mean: nat, time: nat, time': nat, due: nat)
    requires due > 0 && time <= time' && r * due <= mean * time && mean * time' < (r' + 1) * due
    ensures r <= r'
  {
    Larger(mean, mean, time, time');
    Smaller(r, r' + 1, due);
  }

  /** The later the last block, the easier the next target, or as easy. */
  lemma LaterIsEasier(limits: Limits, last: Index, stake: bool, t: nat)
    requires limits.Ok() && Ready(last, stake) && Mean(last, stake) >= 0 && t >= last.time
    ensures Ready(Later(last, t), stake)
    ensures Rounded(NextTarget(limits, last, stake)) <= Rounded(NextTarget(limits, Later(last, t), stake))
  {
    hide Heights, Bits32, Averages, Mean, Due, Took, Limited, NextTarget, Rounded, Past;
    var last' := Later(last, t);
    LaterTakesLonger(last, stake, t);
    NextIsProportional(limits, last, stake);
    NextIsProportional(limits, last', stake);
    CapBelow(limits, last);
    var due, count := Due(last, stake), |Past(last, stake)|;
    LimitedGrows(Took(last, stake), Took(last', stake), due, count);
    LimitedBounds(Took(last, stake), due, count);
    var r, r' := NextTarget(limits, last, stake), NextTarget(limits, last', stake);
    if r' < Cap(limits, last) {
      Monotone(r, r', Mean(last, stake), Limited(Took(last, stake), due, count), Limited(Took(last', stake), due, count), due);
    }
    RoundedGrows(r, r');
  }

  // --- what is averaged

  /** The window is the last 24 blocks of the kind, or all but the first if there are
      fewer, one after the other. */
  lemma {:induction false} WindowIs(b: Index, stake: bool, n: nat)
    requires Heights(b) && (b.Index? ==> b.stake == stake)
    ensures var w := Retarget.Read(b, stake, n);
      && |w| == (if TypeHeight(b, stake) <= 1 then 0 else Min(n, TypeHeight(b, stake) - 1))
      && (forall i | 0 <= i < |w| :: w[i].Index? && w[i].stake == stake && TypeHeight(w[i], stake) == TypeHeight(b, stake) - i)
    decreases n
  {
    if n > 0 && TypeHeight(b, stake) > 1 {
      var next := LastOfType(b.pprev, stake);
      NextOfType(b.pprev, stake);
      LastIsOfType(b.pprev, stake);
      WindowIs(next, stake, n - 1);
    }
  }

  lemma PastIs(last: Index, stake: bool)
    requires Heights(last)
    ensures var w, first := Past(last, stake), TypeHeight(last, stake);
      && |w| == (if first <= 1 then 0 else Min(24, first - 1))
      && (forall i | 0 <= i < |w| :: w[i].Index? && w[i].stake == stake && TypeHeight(w[i], stake) == first - i)
  {
    NextOfType(last, stake);
    LastIsOfType(last, stake);
    WindowIs(LastOfType(last, stake), stake, PAST_BLOCKS_MAX);
  }

  ghost function Total(w: seq<Index>): int
    requires AllIndexed(w)
  {
    if w == [] then 0 else Total(w[..|w| - 1]) + Target(w[|w| - 1])
  }

  ghost predicate NoneNegative(w: seq<Index>)
    requires AllIndexed(w)
  {
    forall i | 0 <= i < |w| :: Target(w[i]) >= 0
  }

  lemma MeanStep(a: nat, n: nat, t: nat)
    ensures var q := TruncDiv(a * n + t, n + 1); 0 <= q && a * n + t - n <= q * (n + 1) <= a * n + t
  {
    hide TruncDiv;
    var x := a * n + t;
    MeanQuotient(x, n + 1);
  }

  lemma MeanQuotient(x: nat, d: nat)
    requires d > 0
    ensures 0 <= TruncDiv(x, d) && x - (d - 1) <= TruncDiv(x, d) * d <= x
  {
    QuotientWithin(x, d);
  }

  lemma QuotientWithin(x: nat, d: nat)
    requires d > 0
    ensures x - (d - 1) <= Basics.Quotient(x, d) * d <= x
  {
    hide Basics.Quotient;
    Divided(x, d);
    Expand(Basics.Quotient(x, d), d);
  }

  lemma Expand(q: int, d: int)
    ensures (q + 1) * d == q * d + d
  {}

  // What rounding may have taken away
  function Lost(n: nat): nat {
    if n == 0 then 0 else Lost(n - 1) + (n - 1)
  }

  /** The running average is the mean of the targets, but for what is rounded off at
      each step, which is less than n / 2 for n targets. */
  lemma {:induction false} AverageIsMean(w: seq<Index>)
    requires w != [] && AllIndexed(w) && NoneNegative(w)
    ensures 0 <= Average(w) && Total(w) - Lost(|w|) <= Average(w) * |w| <= Total(w)
    decreases |w|
  {
    hide FromCompact, TruncDiv;
    var n := |w| - 1;
    if n > 0 {
      AverageIsMean(w[..n]);
      MeanStep(Average(w[..n]), n, Target(w[n]));
    } else {
      assert w[..0] == [];
      assert Total(w) == Total(w[..0]) + Target(w[0]);
      assert Lost(1) == Lost(0);
    }
  }

  lemma {:induction false} LostIs(n: nat)
    ensures 2 * Lost(n) == n * (n - 1)
  {
    if n > 0 {
      LostIs(n - 1);
      Expand(n - 2, n);
      Expand(n - 1, n - 1);
    }
  }

  /** Where nothing is averaged the target is fixed: the limit of the network for the
      eight blocks from height 9 on, and, until a kind has three blocks, the limit for
      work or the first target for stake. */
  lemma FixedTargets(limits: Limits, last: Index, stake: bool)
    requires last.Index? && Heights(last) && Bits32(last)
    ensures 8 <= last.height < 16 ==> NextTarget(limits, last, stake) == limits.newWork
    ensures !(8 <= last.height < 16) && TypeHeight(last, stake) < 3 ==>
      NextTarget(limits, last, stake) == if stake then limits.firstStake else if last.height < 8 then limits.oldWork else limits.newWork
    ensures !(8 <= last.height < 16) && TypeHeight(last, stake) >= 3 ==> Averages(last, stake)
  {
    hide Heights, Bits32, Adjusted;
    NextOfType(last, stake);
  }
}
