/**
 * The volume cascade of one lane group: carriers are visited best rank
 * first, each takes volume up to its growth cap, what is left goes round
 * again without the cap, anything still left lands on the best carrier, and
 * the fractional shares are rounded with the largest-remainder method.
 */
module CascadeAllocation {
  import opened Wrappers
  import opened Seqs
  import opened PyMath

  /** A carrier code; `None` is a carrier cell that is NaN. */
  type Carrier = Option<string>

  /** `carrier_ranks.get(c, 999)` */
  function RankOf(ranks: map<Carrier, int>, c: Carrier): int
  {
    if c in ranks then ranks[c] else 999
  }

  /** `historical_pcts.get(c, 0)` */
  function HistOf(hist: map<Carrier, real>, c: Carrier): real
  {
    if c in hist then hist[c] else 0.0
  }

  /** The positions of the carriers that are not NaN, in input order. */
  function ValidPositions(carriers: seq<Carrier>): (ps: seq<nat>)
    ensures NoDup(ps)
    ensures forall k :: 0 <= k < |ps| ==> ps[k] < |carriers| && carriers[ps[k]].Some?
    ensures forall i :: 0 <= i < |carriers| && carriers[i].Some? ==> i in ps
  {
    if |carriers| == 0 then []
    else
      var ps := ValidPositions(carriers[..|carriers| - 1]);
      var last := |carriers| - 1;
      assert forall k :: 0 <= k < |ps| ==> ps[k] < last;
      if carriers[last].Some? then ps + [last] else ps
  }

  function RankKey(carriers: seq<Carrier>, ranks: map<Carrier, int>): nat -> real
  {
    (i: nat) => if i < |carriers| then RankOf(ranks, carriers[i]) as real else 0.0
  }

  /**
   * `sorted(valid_carriers, key=lambda c: carrier_ranks.get(c, 999))`, as
   * positions into `carriers`: every non-NaN carrier once, best (lowest)
   * rank first, equal ranks in input order.
   */
  function RankOrder(carriers: seq<Carrier>, ranks: map<Carrier, int>): (order: seq<nat>)
    ensures NoDup(order)
    ensures forall k :: 0 <= k < |order| ==> order[k] < |carriers| && carriers[order[k]].Some?
    ensures forall i :: 0 <= i < |carriers| && carriers[i].Some? ==> i in order
    ensures forall k1, k2 :: 0 <= k1 < k2 < |order| ==>
      RankOf(ranks, carriers[order[k1]]) < RankOf(ranks, carriers[order[k2]]) ||
      (RankOf(ranks, carriers[order[k1]]) == RankOf(ranks, carriers[order[k2]]) && order[k1] < order[k2])
  {
    var key := RankKey(carriers, ranks);
    ByKeyIsOrder(key, |carriers|);
    SortPositions(ValidPositions(carriers), ByKey(key), |carriers|)
  }

  /**
   * The first-pass cap of a carrier whose historical share is `h` percent:
   * `h * (1 + g)` percent of the total when it has history, `g * 100`
   * percent of the total when it has none.
   */
  function Cap(h: real, g: real, total: real): (cap: real)
    ensures total >= 0.0 && g >= 0.0 ==> cap >= 0.0
  {
    if h > 0.0 then (h * (1.0 + g) / 100.0) * total
    else ((g * 100.0) / 100.0) * total
  }

  /** The caps of the carriers, listed in visiting order. */
  function Caps(carriers: seq<Carrier>, order: seq<nat>, hist: map<Carrier, real>, g: real, total: real): (caps: seq<real>)
    requires forall k :: 0 <= k < |order| ==> order[k] < |carriers|
    ensures |caps| == |order|
    ensures forall k :: 0 <= k < |order| ==> caps[k] == Cap(HistOf(hist, carriers[order[k]]), g, total)
  {
    seq(|order|, k requires 0 <= k < |order| => Cap(HistOf(hist, carriers[order[k]]), g, total))
  }

  predicate NonNegative(s: seq<real>)
  {
    forall k :: 0 <= k < |s| ==> 0.0 <= s[k]
  }

  // ---------------------------------------------------------------------
  // The first pass as a specification: the k-th carrier in visiting order
  // takes min(remaining, cap) while anything remains.

  function Take(cap: real, remaining: real): real
  {
    if remaining <= 0.0 then 0.0 else MinR(remaining, cap)
  }

  /** What is left of `total` after the first `k` carriers have taken theirs. */
  function RemainingAfter(caps: seq<real>, total: real, k: nat): real
    requires k <= |caps|
  {
    if k == 0 then total
    else
      var r := RemainingAfter(caps, total, k - 1);
      r - Take(caps[k - 1], r)
  }

  function FirstPassShare(caps: seq<real>, total: real, k: nat): real
    requires k < |caps|
  {
    Take(caps[k], RemainingAfter(caps, total, k))
  }

  function FirstPassShares(caps: seq<real>, total: real): (shares: seq<real>)
    ensures |shares| == |caps|
    ensures forall k :: 0 <= k < |caps| ==> shares[k] == FirstPassShare(caps, total, k)
  {
    seq(|caps|, k requires 0 <= k < |caps| => FirstPassShare(caps, total, k))
  }

  /**
   * The cascade's fractional result in visiting order: the first-pass
   * shares, with whatever the caps left over added to the best carrier.
   */
  function CascadeShares(caps: seq<real>, total: real): (shares: seq<real>)
    ensures |shares| == |caps|
  {
    var s := FirstPassShares(caps, total);
    if |caps| == 0 then s
    else s[0 := s[0] + RemainingAfter(caps, total, |caps|)]
  }

  /** With non-negative caps nothing is over-taken: each share lies between
      zero and its cap, and the remainder stays between zero and the total. */
  lemma {:induction false} FirstPassBounds(caps: seq<real>, total: real, k: nat)
    requires NonNegative(caps) && total >= 0.0 && k <= |caps|
    ensures 0.0 <= RemainingAfter(caps, total, k) <= total
    ensures k < |caps| ==>
      0.0 <= FirstPassShare(caps, total, k) <= caps[k] &&
      FirstPassShare(caps, total, k) <= RemainingAfter(caps, total, k)
  {
    if k > 0 {
      FirstPassBounds(caps, total, k - 1);
    }
  }

  /** Every container is either taken in the first pass or still remaining. */
  lemma {:induction false} FirstPassConserves(caps: seq<real>, total: real, k: nat)
    requires k <= |caps|
    ensures SumReal(FirstPassShares(caps, total)[..k]) + RemainingAfter(caps, total, k) == total
  {
    if k > 0 {
      FirstPassConserves(caps, total, k - 1);
      var s := FirstPassShares(caps, total);
      assert s[..k][..k - 1] == s[..k - 1];
    }
  }

  /** After the first pass exactly the volume above the sum of the caps is left. */
  lemma {:induction false} FirstPassLeftover(caps: seq<real>, total: real, k: nat)
    requires NonNegative(caps) && total >= 0.0 && k <= |caps|
    ensures RemainingAfter(caps, total, k) == MaxR(0.0, total - SumReal(caps[..k]))
  {
    if k > 0 {
      FirstPassLeftover(caps, total, k - 1);
      assert caps[..k][..k - 1] == caps[..k - 1];
      SumRealNonNegative(caps[..k - 1]);
    }
  }

  /** A carrier gets volume in the first pass only once every carrier ranked
      above it has been filled to its cap. */
  lemma {:induction false} FirstPassGreedy(caps: seq<real>, total: real, k: nat)
    requires NonNegative(caps) && total >= 0.0 && k <= |caps|
    requires RemainingAfter(caps, total, k) > 0.0
    ensures forall m :: 0 <= m < k ==> FirstPassShare(caps, total, m) == caps[m]
  {
    if k > 0 {
      var r := RemainingAfter(caps, total, k - 1);
      FirstPassBounds(caps, total, k - 1);
      assert r > 0.0;
      FirstPassGreedy(caps, total, k - 1);
    }
  }

  /** Once nothing remains, nobody later in the order takes anything. */
  lemma {:induction false} FirstPassSettled(caps: seq<real>, total: real, k: nat, m: nat)
    requires k <= m <= |caps| && RemainingAfter(caps, total, k) <= 0.0
    ensures RemainingAfter(caps, total, m) == RemainingAfter(caps, total, k)
    ensures m < |caps| ==> FirstPassShare(caps, total, m) == 0.0
  {
    if m > k {
      FirstPassSettled(caps, total, k, m - 1);
    }
  }

  /** The cascade hands out exactly the total. */
  lemma {:induction false} CascadeSharesTotal(caps: seq<real>, total: real)
    requires |caps| > 0
    ensures SumReal(CascadeShares(caps, total)) == total
  {
    var s := FirstPassShares(caps, total);
    FirstPassConserves(caps, total, |caps|);
    assert s[..|caps|] == s;
    SumRealUpdate(s, 0, s[0] + RemainingAfter(caps, total, |caps|));
  }

  /** Every carrier but the best stays within its growth cap; the best gets
      its first-pass share plus all volume beyond the sum of the caps. */
  lemma {:induction false} CascadeSharesCapped(caps: seq<real>, total: real)
    requires NonNegative(caps) && total >= 0.0 && |caps| > 0
    ensures forall k :: 1 <= k < |caps| ==> 0.0 <= CascadeShares(caps, total)[k] <= caps[k]
    ensures CascadeShares(caps, total)[0] ==
      FirstPassShare(caps, total, 0) + MaxR(0.0, total - SumReal(caps))
  {
    var s := CascadeShares(caps, total);
    forall k | 1 <= k < |caps| ensures 0.0 <= s[k] <= caps[k] {
      FirstPassBounds(caps, total, k);
    }
    CascadeSharesTop(caps, total);
  }

  lemma {:induction false} CascadeSharesTop(caps: seq<real>, total: real)
    requires NonNegative(caps) && total >= 0.0 && |caps| > 0
    ensures CascadeShares(caps, total)[0] ==
      FirstPassShare(caps, total, 0) + MaxR(0.0, total - SumReal(caps))
  {
    FirstPassLeftover(caps, total, |caps|);
    assert caps[..|caps|] == caps;
    assert CascadeShares(caps, total)[0] ==
      FirstPassShare(caps, total, 0) + RemainingAfter(caps, total, |caps|);
  }

  // ---------------------------------------------------------------------
  // The cascade itself.

  /** First pass: in visiting order, each carrier takes min(remaining, cap)
      while anything remains. `alloc` is indexed by carrier position. */
  method FirstPass(n: nat, order: seq<nat>, caps: seq<real>, total: real)
    returns (alloc: seq<real>, remaining: real)
    requires NoDup(order) && |caps| == |order|
    requires forall k :: 0 <= k < |order| ==> order[k] < n
    ensures |alloc| == n
    ensures remaining == RemainingAfter(caps, total, |order|)
    ensures forall k :: 0 <= k < |order| ==> alloc[order[k]] == FirstPassShare(caps, total, k)
    ensures forall i :: 0 <= i < n && i !in order ==> alloc[i] == 0.0
    ensures SumReal(alloc) + remaining == total
    ensures NonNegative(caps) && total >= 0.0 ==> NonNegative(alloc)
  {
    ghost var good := NonNegative(caps) && total >= 0.0;
    alloc := seq(n, _ => 0.0);
    SumRealConst(n, 0.0);
    remaining := total;
    var k := 0;
    while k < |order|
      invariant 0 <= k <= |order| && |alloc| == n
      invariant remaining == RemainingAfter(caps, total, k)
      invariant forall m :: 0 <= m < k ==> alloc[order[m]] == FirstPassShare(caps, total, m)
      invariant forall i :: 0 <= i < n && i !in order[..k] ==> alloc[i] == 0.0
      invariant SumReal(alloc) + remaining == total
      invariant good ==> NonNegative(alloc)
    {
      if remaining <= 0.0 {
        break;
      }
      var c := order[k];
      var taken := MinR(remaining, caps[k]);
      if good {
        FirstPassBounds(caps, total, k);
      }
      assert c !in order[..k];
      SumRealUpdate(alloc, c, taken);
      alloc := alloc[c := taken];
      remaining := remaining - taken;
      assert order[..k + 1] == order[..k] + [c];
      k := k + 1;
    }
    forall m | k <= m < |order| ensures alloc[order[m]] == FirstPassShare(caps, total, m) {
      FirstPassSettled(caps, total, k, m);
      assert order[m] !in order[..k];
    }
    if k < |order| {
      FirstPassSettled(caps, total, k, |order|);
    }
  }

  /** Second pass: while volume remains, each carrier in visiting order may
      grow up to the whole total, ignoring its cap. */
  method SecondPass(order: seq<nat>, alloc0: seq<real>, remaining0: real, total: real)
    returns (alloc: seq<real>, remaining: real)
    requires forall k :: 0 <= k < |order| ==> order[k] < |alloc0|
    ensures |alloc| == |alloc0|
    ensures forall i :: 0 <= i < |alloc0| && i !in order ==> alloc[i] == alloc0[i]
    ensures SumReal(alloc) + remaining == SumReal(alloc0) + remaining0
    ensures |order| > 0 && NonNegative(alloc0) && SumReal(alloc0) + remaining0 == total && remaining0 >= 0.0 ==>
      remaining == 0.0 && alloc == alloc0[order[0] := alloc0[order[0]] + remaining0]
  {
    ghost var good := |order| > 0 && NonNegative(alloc0) && SumReal(alloc0) + remaining0 == total && remaining0 >= 0.0;
    alloc, remaining := alloc0, remaining0;
    if remaining > 0.0 {
      var k := 0;
      while k < |order|
        invariant 0 <= k <= |order| && |alloc| == |alloc0|
        invariant forall i :: 0 <= i < |alloc0| && i !in order ==> alloc[i] == alloc0[i]
        invariant SumReal(alloc) + remaining == SumReal(alloc0) + remaining0
        invariant good ==>
          (k == 0 && alloc == alloc0 && remaining == remaining0) ||
          (k > 0 && remaining == 0.0 && alloc == alloc0[order[0] := alloc0[order[0]] + remaining0])
      {
        if remaining <= 0.0 {
          break;
        }
        var c := order[k];
        var capacity := total - alloc[c];
        if good && k == 0 {
          EntryAtMostSum(alloc, c);
        }
        if capacity > 0.0 {
          var extra := MinR(remaining, capacity);
          SumRealUpdate(alloc, c, alloc[c] + extra);
          alloc := alloc[c := alloc[c] + extra];
          remaining := remaining - extra;
        }
        k := k + 1;
      }
    }
  }

  /** Third pass: more than half a container still unallocated goes to the
      best-ranked carrier. */
  method ThirdPass(order: seq<nat>, alloc0: seq<real>, remaining: real) returns (alloc: seq<real>, overflowed: bool)
    requires forall k :: 0 <= k < |order| ==> order[k] < |alloc0|
    ensures overflowed <==> remaining > 0.5 && |order| > 0
    ensures |alloc| == |alloc0|
    ensures forall i :: 0 <= i < |alloc0| && i !in order ==> alloc[i] == alloc0[i]
    ensures !overflowed ==> alloc == alloc0
    ensures overflowed ==> SumReal(alloc) == SumReal(alloc0) + remaining
  {
    alloc, overflowed := alloc0, false;
    if remaining > 0.5 && |order| > 0 {
      var best := order[0];
      SumRealUpdate(alloc, best, alloc[best] + remaining);
      alloc := alloc[best := alloc[best] + remaining];
      overflowed := true;
    }
  }

  /**
   * The three passes of `_cascade_allocate_volume`, before rounding.
   * `alloc` is indexed like `carriers`; `overflowed` says whether the third
   * pass put leftover volume on the best carrier.
   */
  method CascadeFractional(carriers: seq<Carrier>, ranks: map<Carrier, int>, hist: map<Carrier, real>,
                           total: real, g: real)
    returns (alloc: seq<real>, overflowed: bool)
    ensures |alloc| == |carriers|
    ensures forall i :: 0 <= i < |carriers| && carriers[i].None? ==> alloc[i] == 0.0
    ensures RankOrder(carriers, ranks) == [] ==> forall i :: 0 <= i < |carriers| ==> alloc[i] == 0.0
    ensures overflowed ==> SumReal(alloc) == total
    ensures var order := RankOrder(carriers, ranks);
      total >= 0.0 && g >= 0.0 && |order| > 0 ==>
        !overflowed && SumReal(alloc) == total && NonNegative(alloc) &&
        forall k :: 0 <= k < |order| ==>
          alloc[order[k]] == CascadeShares(Caps(carriers, order, hist, g, total), total)[k]
  {
    var order := RankOrder(carriers, ranks);
    var caps := Caps(carriers, order, hist, g, total);
    alloc, overflowed := CascadeInOrder(|carriers|, order, caps, total);
    forall i | 0 <= i < |carriers| && carriers[i].None? ensures alloc[i] == 0.0 {
      assert i !in order;
    }
  }

  /** The three passes over carrier positions visited in `order`. */
  method CascadeInOrder(n: nat, order: seq<nat>, caps: seq<real>, total: real)
    returns (alloc: seq<real>, overflowed: bool)
    requires NoDup(order) && |caps| == |order|
    requires forall k :: 0 <= k < |order| ==> order[k] < n
    ensures |alloc| == n
    ensures forall i :: 0 <= i < n && i !in order ==> alloc[i] == 0.0
    ensures overflowed ==> SumReal(alloc) == total
    ensures NonNegative(caps) && total >= 0.0 && |order| > 0 ==>
      !overflowed && SumReal(alloc) == total && NonNegative(alloc) &&
      forall k :: 0 <= k < |order| ==> alloc[order[k]] == CascadeShares(caps, total)[k]
  {
    ghost var good := NonNegative(caps) && total >= 0.0 && |order| > 0;
    var remaining;
    alloc, remaining := FirstPass(n, order, caps, total);
    ghost var a1, r1 := alloc, remaining;
    if good {
      FirstPassBounds(caps, total, |order|);
    }
    alloc, remaining := SecondPass(order, alloc, remaining, total);
    alloc, overflowed := ThirdPass(order, alloc, remaining);
    if good {
      assert alloc == a1[order[0] := a1[order[0]] + r1];
      CascadeMatchesShares(order, caps, total, a1, alloc);
    }
  }

  /** Adding the first-pass leftover to the best carrier's first-pass share
      gives `CascadeShares`, position by position. */
  lemma CascadeMatchesShares(order: seq<nat>, caps: seq<real>, total: real, a1: seq<real>, alloc: seq<real>)
    requires NoDup(order) && |caps| == |order| > 0
    requires forall k :: 0 <= k < |order| ==> order[k] < |a1|
    requires forall k :: 0 <= k < |order| ==> a1[order[k]] == FirstPassShare(caps, total, k)
    requires alloc == a1[order[0] := a1[order[0]] + RemainingAfter(caps, total, |order|)]
    ensures forall k :: 0 <= k < |order| ==> alloc[order[k]] == CascadeShares(caps, total)[k]
  {
    var shares := CascadeShares(caps, total);
    forall k | 0 <= k < |order| ensures alloc[order[k]] == shares[k] {
      if k > 0 {
        assert order[k] != order[0];
      }
    }
  }

  // ---------------------------------------------------------------------
  // Largest-remainder rounding.

  function Remainder(x: real): real { x - Trunc(x) as real }

  function Truncs(alloc: seq<real>): (t: seq<int>)
    ensures |t| == |alloc| && forall i :: 0 <= i < |alloc| ==> t[i] == Trunc(alloc[i])
  {
    seq(|alloc|, i requires 0 <= i < |alloc| => Trunc(alloc[i]))
  }

  function Clamp(x: int, lo: int, hi: int): int
  {
    if x < lo then lo else if x > hi then hi else x
  }

  /** Entry `i` was rounded up, entry `j` was rounded down. */
  predicate RoundedUp(alloc: seq<real>, counts: seq<int>, i: nat)
    requires i < |alloc| && i < |counts|
  {
    counts[i] == Trunc(alloc[i]) + 1
  }

  /**
   * `counts` is a largest-remainder rounding of `alloc` toward `total`:
   * each entry is its truncation or one more, as many entries are bumped as
   * `round(total)` exceeds the truncated sum (clamped to 0..n), and no
   * bumped entry has a smaller remainder than an entry left alone (equal
   * remainders favour the earlier entry).
   */
  ghost predicate IsLargestRemainder(alloc: seq<real>, total: real, counts: seq<int>)
  {
    |counts| == |alloc| &&
    (forall i :: 0 <= i < |alloc| ==> counts[i] == Trunc(alloc[i]) || RoundedUp(alloc, counts, i)) &&
    (forall i, j ::
      0 <= i < |alloc| && 0 <= j < |alloc| && RoundedUp(alloc, counts, i) && counts[j] == Trunc(alloc[j])
      ==> Remainder(alloc[j]) < Remainder(alloc[i]) || (Remainder(alloc[j]) == Remainder(alloc[i]) && i < j)) &&
    SumInt(counts) - SumInt(Truncs(alloc)) ==
      Clamp(RoundHalfEven(total) - SumInt(Truncs(alloc)), 0, |alloc|)
  }

  function RemainderKey(alloc: seq<real>): nat -> real
  {
    (i: nat) => if i < |alloc| then -Remainder(alloc[i]) else 0.0
  }

  /** The final step of `_cascade_allocate_volume`. */
  method RoundLargestRemainder(alloc: seq<real>, total: real) returns (counts: seq<int>)
    ensures IsLargestRemainder(alloc, total, counts)
  {
    var floors := Truncs(alloc);
    var key := RemainderKey(alloc);
    ByKeyIsOrder(key, |alloc|);
    var order := SortedPositions(|alloc|, ByKey(key));
    OrderFacts(order, |alloc|);
    var k;
    counts, k := BumpInOrder(floors, order, RoundHalfEven(total) - SumInt(floors));
    RoundingOrder(alloc, counts, order, k);
  }

  /** Adds one to the entries named by `order`, front to back, `shortfall`
      times at most. */
  method BumpInOrder(floors: seq<int>, order: seq<nat>, shortfall: int) returns (counts: seq<int>, k: nat)
    requires NoDup(order) && |order| == |floors|
    requires forall m :: 0 <= m < |order| ==> order[m] < |floors|
    ensures |counts| == |floors| && k == Clamp(shortfall, 0, |floors|)
    ensures forall m :: 0 <= m < k ==> counts[order[m]] == floors[order[m]] + 1
    ensures forall i :: 0 <= i < |floors| && i !in order[..k] ==> counts[i] == floors[i]
    ensures SumInt(counts) == SumInt(floors) + k
  {
    var n := |floors|;
    counts := floors;
    var left := shortfall;
    k := 0;
    while k < n && left > 0
      invariant 0 <= k <= n && |counts| == n
      invariant left == shortfall - k && (k == 0 || k <= shortfall)
      invariant forall m :: 0 <= m < k ==> counts[order[m]] == floors[order[m]] + 1
      invariant forall i :: 0 <= i < n && i !in order[..k] ==> counts[i] == floors[i]
      invariant SumInt(counts) == SumInt(floors) + k
    {
      var c := order[k];
      BumpStep(floors, order, counts, k);
      SumIntUpdate(counts, c, counts[c] + 1);
      counts := counts[c := counts[c] + 1];
      left := left - 1;
      k := k + 1;
    }
  }

  /** One more bump keeps the bumped entries one above their floors and the others at them. */
  lemma BumpStep(floors: seq<int>, order: seq<nat>, counts: seq<int>, k: nat)
    requires NoDup(order) && |order| == |floors| == |counts| && k < |order|
    requires forall m :: 0 <= m < |order| ==> order[m] < |floors|
    requires forall m :: 0 <= m < k ==> counts[order[m]] == floors[order[m]] + 1
    requires forall i :: 0 <= i < |floors| && i !in order[..k] ==> counts[i] == floors[i]
    ensures var next := counts[order[k] := counts[order[k]] + 1];
      (forall m :: 0 <= m < k + 1 ==> next[order[m]] == floors[order[m]] + 1) &&
      (forall i :: 0 <= i < |floors| && i !in order[..k + 1] ==> next[i] == floors[i])
  {
    var c := order[k];
    assert c !in order[..k];
    assert order[..k + 1] == order[..k] + [c];
  }

  /** Bumping the first `k` entries of the remainder order bumps larger
      remainders before smaller ones. */
  lemma RoundingOrder(alloc: seq<real>, counts: seq<int>, order: seq<nat>, k: nat)
    requires IsOrderOf(order, |alloc|) && SortedBy(order, ByKey(RemainderKey(alloc)))
    requires |counts| == |alloc| && k <= |alloc| == |order|
    requires forall m :: 0 <= m < |order| ==> order[m] < |alloc|
    requires forall m :: 0 <= m < k ==> counts[order[m]] == Trunc(alloc[order[m]]) + 1
    requires forall i :: 0 <= i < |alloc| && i !in order[..k] ==> counts[i] == Trunc(alloc[i])
    ensures forall i, j ::
      0 <= i < |alloc| && 0 <= j < |alloc| && RoundedUp(alloc, counts, i) && counts[j] == Trunc(alloc[j])
      ==> Remainder(alloc[j]) < Remainder(alloc[i]) || (Remainder(alloc[j]) == Remainder(alloc[i]) && i < j)
  {
    OrderFacts(order, |alloc|);
    forall i, j | 0 <= i < |alloc| && 0 <= j < |alloc| && RoundedUp(alloc, counts, i) && counts[j] == Trunc(alloc[j])
      ensures Remainder(alloc[j]) < Remainder(alloc[i]) || (Remainder(alloc[j]) == Remainder(alloc[i]) && i < j)
    {
      var mi := IndexOf(order, i);
      var mj := IndexOf(order, j);
      assert ByKey(RemainderKey(alloc))(order[mi], order[mj]);
    }
  }

  function Remainders(alloc: seq<real>): (r: seq<real>)
    ensures |r| == |alloc| && forall i :: 0 <= i < |alloc| ==> r[i] == Remainder(alloc[i])
  {
    seq(|alloc|, i requires 0 <= i < |alloc| => Remainder(alloc[i]))
  }

  /** Each entry is its truncation plus its remainder, so the remainders sum
      to what truncation lost. */
  lemma RemaindersSum(alloc: seq<real>)
    ensures SumReal(Remainders(alloc)) == SumReal(alloc) - SumInt(Truncs(alloc)) as real
  {
    SumRealAdd(IntsToReals(Truncs(alloc)), Remainders(alloc), alloc);
    SumIntsToReals(Truncs(alloc));
  }

  /** How many units the rounding added, entry by entry. */
  function Bumps(alloc: seq<real>, counts: seq<int>): (b: seq<real>)
    requires |counts| == |alloc|
    ensures |b| == |alloc| && forall i :: 0 <= i < |alloc| ==> b[i] == (counts[i] - Trunc(alloc[i])) as real
  {
    seq(|alloc|, i requires 0 <= i < |alloc| => (counts[i] - Trunc(alloc[i])) as real)
  }

  lemma BumpsSum(alloc: seq<real>, counts: seq<int>)
    requires |counts| == |alloc|
    ensures SumReal(Bumps(alloc, counts)) == (SumInt(counts) - SumInt(Truncs(alloc))) as real
  {
    SumRealAdd(IntsToReals(Truncs(alloc)), Bumps(alloc, counts), IntsToReals(counts));
    SumIntsToReals(Truncs(alloc));
    SumIntsToReals(counts);
  }

  /**
   * When the shares are non-negative and add up to a whole total, the
   * largest-remainder rounding adds up to exactly that total.
   */
  lemma {:induction false} RoundingPreservesTotal(alloc: seq<real>, total: real, counts: seq<int>)
    requires IsLargestRemainder(alloc, total, counts)
    requires NonNegative(alloc) && SumReal(alloc) == total && total == total.Floor as real
    ensures SumInt(counts) == total.Floor
  {
    var n := |alloc|;
    var rems := Remainders(alloc);
    RemaindersSum(alloc);
    SumRealMonotone(seq(n, _ => 0.0), rems);
    SumRealConst(n, 0.0);
    SumRealConst(n, 1.0);
    if n > 0 {
      assert rems[0] < seq(n, _ => 1.0)[0];
      SumRealMonotone(rems, seq(n, _ => 1.0));
    }
  }

  /**
   * Under the same conditions an entry that is already whole is never
   * rounded up (so a carrier allocated nothing gets nothing), and every
   * count lies within one unit of its share.
   */
  lemma {:induction false} RoundingKeepsWholeEntries(alloc: seq<real>, total: real, counts: seq<int>)
    requires IsLargestRemainder(alloc, total, counts)
    requires NonNegative(alloc) && SumReal(alloc) == total && total == total.Floor as real
    ensures forall j :: 0 <= j < |alloc| && alloc[j] == alloc[j].Floor as real ==> counts[j] == alloc[j].Floor
    ensures forall j :: 0 <= j < |alloc| ==> alloc[j] - 1.0 < counts[j] as real < alloc[j] + 1.0
  {
    forall j | 0 <= j < |alloc| && Remainder(alloc[j]) == 0.0
      ensures counts[j] == Trunc(alloc[j])
    {
      if RoundedUp(alloc, counts, j) {
        var rems := Remainders(alloc);
        var bumps := Bumps(alloc, counts);
        assert rems[j] < bumps[j];
        SumRealMonotone(rems, bumps);
        RoundingPreservesTotal(alloc, total, counts);
        RemaindersSum(alloc);
        BumpsSum(alloc, counts);
        assert false;
      }
    }
  }

  /**
   * `_cascade_allocate_volume`: the fractional passes, then the rounding.
   * `fractional` and `overflowed` are what the notes of the source report.
   */
  method CascadeAllocateVolume(carriers: seq<Carrier>, ranks: map<Carrier, int>, hist: map<Carrier, real>,
                               total: real, g: real)
    returns (counts: seq<int>, fractional: seq<real>, overflowed: bool)
    ensures |counts| == |carriers| && |fractional| == |carriers|
    ensures IsLargestRemainder(fractional, total, counts)
    ensures forall i :: 0 <= i < |carriers| && carriers[i].None? ==> fractional[i] == 0.0
    ensures var order := RankOrder(carriers, ranks);
      total >= 0.0 && g >= 0.0 && |order| > 0 ==>
        !overflowed && SumReal(fractional) == total &&
        forall k :: 0 <= k < |order| ==>
          fractional[order[k]] == CascadeShares(Caps(carriers, order, hist, g, total), total)[k]
    ensures total >= 0.0 && g >= 0.0 && |RankOrder(carriers, ranks)| > 0 && total == total.Floor as real ==>
      SumInt(counts) == total.Floor &&
      forall i :: 0 <= i < |carriers| && carriers[i].None? ==> counts[i] == 0
  {
    fractional, overflowed := CascadeFractional(carriers, ranks, hist, total, g);
    counts := RoundLargestRemainder(fractional, total);
    if total >= 0.0 && g >= 0.0 && |RankOrder(carriers, ranks)| > 0 && total == total.Floor as real {
      RoundingPreservesTotal(fractional, total, counts);
      RoundingKeepsWholeEntries(fractional, total, counts);
    }
  }
}
