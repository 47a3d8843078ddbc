/** Sequence facts shared by the allocator modules: sums accumulated left to
    right (as the source's loops and pandas' `sum()` do), duplicate-free
    sequences, first-occurrence deduplication (`dict.fromkeys`) and a sort of
    positions under a strict total order (Python's stable `sorted`, with the
    original position as the final tie-break). */
module Seqs {

  function SumInt(s: seq<int>): int
  {
    if |s| == 0 then 0 else SumInt(s[..|s| - 1]) + s[|s| - 1]
  }

  function SumReal(s: seq<real>): real
  {
    if |s| == 0 then 0.0 else SumReal(s[..|s| - 1]) + s[|s| - 1]
  }

  lemma {:induction false} SumIntAppend(a: seq<int>, b: seq<int>)
    ensures SumInt(a + b) == SumInt(a) + SumInt(b)
    decreases |b|
  {
    if |b| == 0 {
      assert a + b == a;
    } else {
      assert (a + b)[..|a + b| - 1] == a + b[..|b| - 1];
      SumIntAppend(a, b[..|b| - 1]);
    }
  }

  lemma {:induction false} SumRealAppend(a: seq<real>, b: seq<real>)
    ensures SumReal(a + b) == SumReal(a) + SumReal(b)
    decreases |b|
  {
    if |b| == 0 {
      assert a + b == a;
    } else {
      assert (a + b)[..|a + b| - 1] == a + b[..|b| - 1];
      SumRealAppend(a, b[..|b| - 1]);
    }
  }

  /** Changing one entry changes the sum by the difference. */
  lemma {:induction false} SumIntUpdate(s: seq<int>, i: nat, v: int)
    requires i < |s|
    ensures SumInt(s[i := v]) == SumInt(s) - s[i] + v
  {
    assert s == s[..i] + [s[i]] + s[i + 1..];
    assert s[i := v] == s[..i] + [v] + s[i + 1..];
    SumIntAppend(s[..i] + [s[i]], s[i + 1..]);
    SumIntAppend(s[..i], [s[i]]);
    SumIntAppend(s[..i] + [v], s[i + 1..]);
    SumIntAppend(s[..i], [v]);
  }

  lemma {:induction false} SumRealUpdate(s: seq<real>, i: nat, v: real)
    requires i < |s|
    ensures SumReal(s[i := v]) == SumReal(s) - s[i] + v
  {
    assert s == s[..i] + [s[i]] + s[i + 1..];
    assert s[i := v] == s[..i] + [v] + s[i + 1..];
    SumRealAppend(s[..i] + [s[i]], s[i + 1..]);
    SumRealAppend(s[..i], [s[i]]);
    SumRealAppend(s[..i] + [v], s[i + 1..]);
    SumRealAppend(s[..i], [v]);
  }

  lemma {:induction false} SumRealNonNegative(s: seq<real>)
    requires forall k :: 0 <= k < |s| ==> 0.0 <= s[k]
    ensures 0.0 <= SumReal(s)
  {
    if |s| > 0 {
      SumRealNonNegative(s[..|s| - 1]);
    }
  }

  lemma {:induction false} SumIntNonNegative(s: seq<int>)
    requires forall k :: 0 <= k < |s| ==> 0 <= s[k]
    ensures 0 <= SumInt(s)
  {
    if |s| > 0 {
      SumIntNonNegative(s[..|s| - 1]);
    }
  }

  predicate NoDup<T(==)>(s: seq<T>)
  {
    forall i, j :: 0 <= i < j < |s| ==> s[i] != s[j]
  }

  lemma InAppend<T>(a: seq<T>, b: seq<T>, x: T)
    ensures x in a + b <==> x in a || x in b
  {
  }

  /** The sequences of `ss` one after another. */
  function Flatten<T>(ss: seq<seq<T>>): seq<T>
  {
    if |ss| == 0 then [] else Flatten(ss[..|ss| - 1]) + ss[|ss| - 1]
  }

  /** An element of one of the sequences is an element of their flattening. */
  lemma {:induction false} InFlatten<T>(ss: seq<seq<T>>, k: nat, x: T)
    requires k < |ss| && x in ss[k]
    ensures x in Flatten(ss)
  {
    var p := ss[..|ss| - 1];
    if k < |p| {
      assert p[k] == ss[k];
      InFlatten(p, k, x);
    }
    InAppend(Flatten(p), ss[|ss| - 1], x);
  }

  /** The flattening is the first sequence followed by the others'. */
  lemma {:induction false} FlattenHead<T>(ss: seq<seq<T>>)
    requires |ss| > 0
    ensures Flatten(ss) == ss[0] + Flatten(ss[1..])
  {
    var n := |ss|;
    if n == 1 {
      assert ss[..0] == [] && ss[1..] == [];
    } else {
      var init, tail := ss[..n - 1], ss[1..];
      FlattenHead(init);
      assert init[1..] == tail[..n - 2];
      assert tail[n - 2] == ss[n - 1];
    }
  }

  /** Taking a prefix of `left` onto `a` and then the rest gives `a + left`. */
  lemma PrefixThenRest<T>(a: seq<T>, left: seq<T>, m: nat)
    requires m <= |left|
    ensures (a + left[..m]) + left[m..] == a + left
  {
    assert left[..m] + left[m..] == left;
  }

  /** Some element satisfies `p`. */
  predicate AnyOf<T>(xs: seq<T>, p: T -> bool)
  {
    exists i :: 0 <= i < |xs| && p(xs[i])
  }

  lemma AnyOfLast<T>(xs: seq<T>, p: T -> bool)
    requires |xs| > 0
    ensures AnyOf(xs, p) <==> AnyOf(xs[..|xs| - 1], p) || p(xs[|xs| - 1])
  {
    var init := xs[..|xs| - 1];
    if AnyOf(xs, p) {
      var i :| 0 <= i < |xs| && p(xs[i]);
      if i < |init| {
        assert init[i] == xs[i];
      }
    }
    if AnyOf(init, p) {
      var i :| 0 <= i < |init| && p(init[i]);
      assert xs[i] == init[i];
    }
  }

  /** Two orders of the same elements stay so once the last of the first
      and one equal element of the second are taken out. */
  lemma MultisetRemove<T>(a: seq<T>, b: seq<T>, i: nat)
    requires multiset(a) == multiset(b) && |a| > 0 && i < |b| && b[i] == a[|a| - 1]
    ensures multiset(a[..|a| - 1]) == multiset(b[..i] + b[i + 1..])
  {
    MultisetTakeOut(a, |a| - 1);
    MultisetTakeOut(b, i);
    MultisetCancel(multiset(a[..|a| - 1]), multiset(b[..i] + b[i + 1..]), b[i]);
  }

  lemma MultisetTakeOut<T>(b: seq<T>, i: nat)
    requires i < |b|
    ensures multiset(b) == multiset(b[..i] + b[i + 1..]) + multiset{b[i]}
  {
    assert b == b[..i] + [b[i]] + b[i + 1..];
  }

  lemma MultisetCancel<T>(m1: multiset<T>, m2: multiset<T>, x: T)
    requires m1 + multiset{x} == m2 + multiset{x}
    ensures m1 == m2
  {
    forall y ensures m1[y] == m2[y] {
      assert (m1 + multiset{x})[y] == (m2 + multiset{x})[y];
    }
  }

  /** `f` applied to every element. */
  function Map<A, B>(xs: seq<A>, f: A -> B): (ys: seq<B>)
    ensures |ys| == |xs| && forall k :: 0 <= k < |xs| ==> ys[k] == f(xs[k])
  {
    seq(|xs|, k requires 0 <= k < |xs| => f(xs[k]))
  }

  /** Mapping commutes with slicing. */
  lemma MapSlice<A, B>(xs: seq<A>, f: A -> B, i: nat, j: nat)
    requires i <= j <= |xs|
    ensures Map(xs, f)[i..j] == Map(xs[i..j], f)
  {
    var a, b := Map(xs, f)[i..j], Map(xs[i..j], f);
    forall k | 0 <= k < |a| ensures a[k] == b[k] {
      assert xs[i..j][k] == xs[i + k];
    }
  }

  /** Position of the first occurrence of `x` (Python `list.index`). */
  function IndexOf<T(==)>(s: seq<T>, x: T): (i: nat)
    requires x in s
    ensures i < |s| && s[i] == x && forall k :: 0 <= k < i ==> s[k] != x
  {
    if s[0] == x then 0 else 1 + IndexOf(s[1..], x)
  }

  lemma {:induction false} IndexOfPrefix<T>(s: seq<T>, n: nat, x: T)
    requires n <= |s| && x in s[..n]
    ensures IndexOf(s, x) == IndexOf(s[..n], x)
  {
    var p := s[..n];
    assert forall k :: 0 <= k < |p| ==> s[k] == p[k];
    IndexOfIs(s, x, IndexOf(p, x));
  }

  /** `list(dict.fromkeys(s))`: the distinct elements in order of first occurrence. */
  function Dedupe<T(==)>(s: seq<T>): (r: seq<T>)
    ensures NoDup(r)
    ensures forall k :: 0 <= k < |r| ==> r[k] in s
    ensures forall k :: 0 <= k < |s| ==> s[k] in r
    ensures |r| <= |s|
  {
    if |s| == 0 then []
    else
      var d := Dedupe(s[..|s| - 1]);
      if s[|s| - 1] in d then d else d + [s[|s| - 1]]
  }

  /** The elements of `r` come from `s`, in the order of their first occurrence in `s`. */
  ghost predicate FirstOccurrenceOrder<T>(s: seq<T>, r: seq<T>)
  {
    (forall k :: 0 <= k < |r| ==> r[k] in s) &&
    forall i, j :: 0 <= i < j < |r| ==> IndexOf(s, r[i]) < IndexOf(s, r[j])
  }

  /** Dedupe keeps the order of first occurrences. */
  lemma {:induction false} DedupeOrder<T>(s: seq<T>)
    ensures FirstOccurrenceOrder(s, Dedupe(s))
  {
    if |s| > 0 {
      var p := s[..|s| - 1];
      DedupeOrder(p);
      var r := Dedupe(s);
      forall i, j | 0 <= i < j < |r|
        ensures IndexOf(s, r[i]) < IndexOf(s, r[j])
      {
        DedupeStep(s, Dedupe(p), i, j);
      }
    }
  }

  lemma DedupeStep<T>(s: seq<T>, d: seq<T>, i: nat, j: nat)
    requires |s| > 0 && d == Dedupe(s[..|s| - 1])
    requires i < j < |Dedupe(s)|
    requires j < |d| ==> IndexOf(s[..|s| - 1], d[i]) < IndexOf(s[..|s| - 1], d[j])
    ensures IndexOf(s, Dedupe(s)[i]) < IndexOf(s, Dedupe(s)[j])
  {
    var r := Dedupe(s);
    DedupeSnoc(s);
    assert r[..|d|] == d;
    if j < |d| {
      assert r[i] == d[i] && r[j] == d[j];
      OrderKept(s, d[i], d[j]);
    } else {
      OrderLast(s, d, r, i);
    }
  }

  /** Two first occurrences keep their order when an element is appended. */
  lemma OrderKept<T>(s: seq<T>, x: T, y: T)
    requires |s| > 0 && x in s[..|s| - 1] && y in s[..|s| - 1]
    requires IndexOf(s[..|s| - 1], x) < IndexOf(s[..|s| - 1], y)
    ensures IndexOf(s, x) < IndexOf(s, y)
  {
    var p := s[..|s| - 1];
    assert forall k :: 0 <= k < |p| ==> s[k] == p[k];
    IndexOfIs(s, x, IndexOf(p, x));
    IndexOfIs(s, y, IndexOf(p, y));
  }

  /** The first position holding `x` is its index. */
  lemma IndexOfIs<T>(s: seq<T>, x: T, i: nat)
    requires i < |s| && s[i] == x && forall k :: 0 <= k < i ==> s[k] != x
    ensures IndexOf(s, x) == i
  {
  }

  /** A first occurrence at the last position comes after every earlier one. */
  lemma OrderLast<T>(s: seq<T>, d: seq<T>, r: seq<T>, i: nat)
    requires |s| > 0 && i < |d| && r == d + [s[|s| - 1]]
    requires d[i] in s[..|s| - 1]
    requires s[|s| - 1] !in s[..|s| - 1]
    ensures IndexOf(s, r[i]) < IndexOf(s, r[|d|])
  {
    assert r[i] == d[i];
    IndexOfPrefix(s, |s| - 1, d[i]);
    IndexOfLast(s, s[..|s| - 1], s[|s| - 1]);
  }

  /** An element missing from all but the last position is found there. */
  lemma IndexOfLast<T>(s: seq<T>, p: seq<T>, x: T)
    requires |s| > 0 && p == s[..|s| - 1] && x == s[|s| - 1]
    requires forall k :: 0 <= k < |p| ==> p[k] != x
    ensures IndexOf(s, x) == |p|
  {
    assert forall k :: 0 <= k < |p| ==> s[k] == p[k];
    IndexOfIs(s, x, |p|);
  }

  /** A duplicate-free sequence is its own deduplication. */
  lemma {:induction false} DedupeOfNoDup<T>(s: seq<T>)
    requires NoDup(s)
    ensures Dedupe(s) == s
  {
    if |s| > 0 {
      var p := s[..|s| - 1];
      assert NoDup(p);
      DedupeOfNoDup(p);
      assert s[|s| - 1] !in p;
      assert p + [s[|s| - 1]] == s;
    }
  }

  /** The positions 0, 1, ..., n-1. */
  function Range(n: nat): (r: seq<nat>)
    ensures |r| == n
    ensures forall i :: 0 <= i < n ==> r[i] == i
  {
    if n == 0 then [] else Range(n - 1) + [n - 1]
  }

  /** `lt` is a strict total order on the positions below `n`. */
  ghost predicate StrictOrderBelow(lt: (nat, nat) -> bool, n: nat)
  {
    (forall a: nat, b: nat :: a < n && b < n && lt(a, b) ==> !lt(b, a)) &&
    (forall a: nat, b: nat, c: nat {:trigger lt(a, b), lt(b, c)} ::
       a < n && b < n && c < n && lt(a, b) && lt(b, c) ==> lt(a, c)) &&
    (forall a: nat, b: nat :: a < n && b < n && a != b ==> lt(a, b) || lt(b, a))
  }

  predicate SortedBy(s: seq<nat>, lt: (nat, nat) -> bool)
  {
    forall i, j :: 0 <= i < j < |s| ==> lt(s[i], s[j])
  }

  function InsertBy(x: nat, s: seq<nat>, lt: (nat, nat) -> bool): (r: seq<nat>)
    ensures multiset(r) == multiset(s) + multiset{x}
    ensures |r| == |s| + 1
  {
    if |s| == 0 then [x]
    else if lt(x, s[0]) then [x] + s
    else
      assert s == [s[0]] + s[1..];
      [s[0]] + InsertBy(x, s[1..], lt)
  }

  /** Insertion sort of positions by `lt`. */
  function SortBy(s: seq<nat>, lt: (nat, nat) -> bool): (r: seq<nat>)
    ensures multiset(r) == multiset(s)
    ensures |r| == |s|
  {
    if |s| == 0 then []
    else
      assert s == [s[0]] + s[1..];
      InsertBy(s[0], SortBy(s[1..], lt), lt)
  }

  lemma {:induction false} InsertBySorted(x: nat, s: seq<nat>, lt: (nat, nat) -> bool, n: nat)
    requires StrictOrderBelow(lt, n)
    requires x < n && x !in s && forall k :: 0 <= k < |s| ==> s[k] < n
    requires SortedBy(s, lt)
    ensures SortedBy(InsertBy(x, s, lt), lt)
  {
    if |s| > 0 && !lt(x, s[0]) {
      assert lt(s[0], x);
      InsertBySorted(x, s[1..], lt, n);
      var t := InsertBy(x, s[1..], lt);
      var r := [s[0]] + t;
      assert forall y :: y in multiset(t) ==> y == x || y in s[1..];
      forall j | 0 < j < |r|
        ensures lt(r[0], r[j])
      {
        assert r[j] in multiset(t);
      }
    }
  }

  lemma {:induction false} SortBySorted(s: seq<nat>, lt: (nat, nat) -> bool, n: nat)
    requires StrictOrderBelow(lt, n)
    requires NoDup(s) && forall k :: 0 <= k < |s| ==> s[k] < n
    ensures SortedBy(SortBy(s, lt), lt)
  {
    if |s| > 0 {
      SortBySorted(s[1..], lt, n);
      var t := SortBy(s[1..], lt);
      assert s[0] !in s[1..];
      assert s[0] !in multiset(t);
      forall k | 0 <= k < |t| ensures t[k] < n {
        assert t[k] in multiset(s[1..]);
      }
      InsertBySorted(s[0], t, lt, n);
    }
  }

  lemma {:induction false} RangeNoDup(n: nat)
    ensures NoDup(Range(n))
  {
  }

  /** A rearrangement of the positions below `n`. */
  predicate IsOrderOf(order: seq<nat>, n: nat)
  {
    multiset(order) == multiset(Range(n)) && NoDup(order)
  }

  lemma OrderFacts(order: seq<nat>, n: nat)
    requires IsOrderOf(order, n)
    ensures |order| == n
    ensures forall k :: 0 <= k < n ==> order[k] < n
    ensures forall i :: 0 <= i < n ==> i in order
  {
    assert |order| == |multiset(order)| == |multiset(Range(n))| == n;
    forall k | 0 <= k < n ensures order[k] < n {
      assert order[k] in multiset(Range(n));
    }
    forall i | 0 <= i < n ensures i in order {
      assert Range(n)[i] == i;
      assert i in multiset(order);
    }
  }

  /** The positions below `n`, sorted by `lt`. */
  function SortedPositions(n: nat, lt: (nat, nat) -> bool): (r: seq<nat>)
    requires StrictOrderBelow(lt, n)
    ensures IsOrderOf(r, n)
    ensures SortedBy(r, lt)
  {
    var r := SortBy(Range(n), lt);
    RangeNoDup(n);
    SortBySorted(Range(n), lt, n);
    assert NoDup(r) by {
      forall i, j | 0 <= i < j < n ensures r[i] != r[j] {
        assert r[i] in multiset(Range(n));
        assert lt(r[i], r[j]);
      }
    }
    r
  }

  /** Ascending by `key`, ties by position: the order Python's stable
      `sorted(..., key=key)` produces. */
  function ByKey(key: nat -> real): (nat, nat) -> bool
  {
    (i: nat, j: nat) => key(i) < key(j) || (key(i) == key(j) && i < j)
  }

  lemma ByKeyIsOrder(key: nat -> real, n: nat)
    ensures StrictOrderBelow(ByKey(key), n)
  {
  }

  /** The given positions, sorted by `lt`. */
  function SortPositions(s: seq<nat>, lt: (nat, nat) -> bool, n: nat): (r: seq<nat>)
    requires StrictOrderBelow(lt, n)
    requires NoDup(s) && forall k :: 0 <= k < |s| ==> s[k] < n
    ensures multiset(r) == multiset(s) && |r| == |s|
    ensures forall k :: 0 <= k < |r| ==> r[k] < n && r[k] in s
    ensures forall k :: 0 <= k < |s| ==> s[k] in r
    ensures NoDup(r)
    ensures SortedBy(r, lt)
  {
    var r := SortBy(s, lt);
    SortBySorted(s, lt, n);
    assert forall k :: 0 <= k < |r| ==> r[k] in multiset(s);
    assert forall k :: 0 <= k < |s| ==> s[k] in multiset(r);
    assert NoDup(r) by {
      forall i, j | 0 <= i < j < |r| ensures r[i] != r[j] {
        assert r[i] in multiset(s);
        assert lt(r[i], r[j]);
      }
    }
    r
  }

  /** `s` rearranged by `order`. */
  function Permuted<T(==,!new)>(s: seq<T>, order: seq<nat>): (r: seq<T>)
    requires IsOrderOf(order, |s|)
    ensures |r| == |s| && |order| == |s|
    ensures forall i :: 0 <= i < |r| ==> order[i] < |s| && r[i] == s[order[i]]
    ensures forall x :: x in r <==> x in s
    ensures NoDup(s) ==> NoDup(r)
  {
    OrderFacts(order, |s|);
    var r := seq(|s|, k requires 0 <= k < |s| => s[order[k]]);
    forall x | x in s ensures x in r {
      var p := IndexOf(s, x);
      var m := IndexOf(order, p);
      assert r[m] == x;
    }
    assert NoDup(s) ==> NoDup(r) by {
      if NoDup(s) {
        forall i, j | 0 <= i < j < |r| ensures r[i] != r[j] {
          assert order[i] != order[j];
        }
      }
    }
    r
  }

  /** The entries of `s` at the positions `o`, in that order. */
  function Pick<T>(s: seq<T>, o: seq<nat>): (r: seq<T>)
    requires forall k :: 0 <= k < |o| ==> o[k] < |s|
    ensures |r| == |o| && forall k :: 0 <= k < |o| ==> r[k] == s[o[k]]
  {
    seq(|o|, k requires 0 <= k < |o| => s[o[k]])
  }

  /** Picking the same positions in another order picks the same multiset. */
  lemma {:induction false} PickMultiset<T>(s: seq<T>, o1: seq<nat>, o2: seq<nat>)
    requires forall k :: 0 <= k < |o1| ==> o1[k] < |s|
    requires multiset(o1) == multiset(o2)
    ensures forall k :: 0 <= k < |o2| ==> o2[k] < |s|
    ensures multiset(Pick(s, o1)) == multiset(Pick(s, o2))
    decreases |o1|
  {
    forall k | 0 <= k < |o2| ensures o2[k] < |s| {
      assert o2[k] in multiset(o1);
    }
    if |o1| > 0 {
      assert o1[0] in multiset(o2);
      var m :| 0 <= m < |o2| && o2[m] == o1[0];
      var rest := RemoveAt(o1, o2, m);
      PickMultiset(s, o1[1..], rest);
      PickRemoveAt(s, o2, m);
      assert Pick(s, o1) == [s[o1[0]]] + Pick(s, o1[1..]);
    }
  }

  /** `o2` without its entry `m`, which is the first entry of the equal multiset `o1`. */
  function RemoveAt(o1: seq<nat>, o2: seq<nat>, m: nat): (rest: seq<nat>)
    requires |o1| > 0 && m < |o2| && o2[m] == o1[0] && multiset(o1) == multiset(o2)
    ensures rest == o2[..m] + o2[m + 1..]
    ensures multiset(o1[1..]) == multiset(rest)
  {
    var left, right := o2[..m], o2[m + 1..];
    assert o2 == left + [o1[0]] + right;
    assert o1 == [o1[0]] + o1[1..];
    assert multiset(o2) == multiset(left) + multiset{o1[0]} + multiset(right);
    assert multiset(o1[1..]) == multiset(o1) - multiset{o1[0]};
    left + right
  }

  lemma PickRemoveAt<T>(s: seq<T>, o: seq<nat>, m: nat)
    requires m < |o| && forall k :: 0 <= k < |o| ==> o[k] < |s|
    ensures multiset(Pick(s, o)) == multiset(Pick(s, o[..m] + o[m + 1..])) + multiset{s[o[m]]}
  {
    var left, right := o[..m], o[m + 1..];
    assert o == left + [o[m]] + right;
    PickAppend(s, left, right);
    PickAppend(s, left, [o[m]]);
    PickAppend(s, left + [o[m]], right);
    var pl, pr := Pick(s, left), Pick(s, right);
    assert Pick(s, [o[m]]) == [s[o[m]]];
    assert Pick(s, o) == pl + [s[o[m]]] + pr;
    assert multiset(Pick(s, o)) == multiset(pl) + multiset{s[o[m]]} + multiset(pr);
  }

  lemma PickAppend<T>(s: seq<T>, a: seq<nat>, b: seq<nat>)
    requires forall k :: 0 <= k < |a| ==> a[k] < |s|
    requires forall k :: 0 <= k < |b| ==> b[k] < |s|
    ensures forall k :: 0 <= k < |a + b| ==> (a + b)[k] < |s|
    ensures Pick(s, a + b) == Pick(s, a) + Pick(s, b)
  {
    assert forall k :: 0 <= k < |a + b| ==> (a + b)[k] < |s| by {
      forall k | 0 <= k < |a + b| ensures (a + b)[k] < |s| {
        if k >= |a| { assert (a + b)[k] == b[k - |a|]; }
      }
    }
  }

  /** A rearrangement keeps every entry with its multiplicity. */
  lemma PermutedMultiset<T(!new)>(s: seq<T>, order: seq<nat>)
    requires IsOrderOf(order, |s|)
    ensures multiset(Permuted(s, order)) == multiset(s)
  {
    OrderFacts(order, |s|);
    PickMultiset(s, order, Range(|s|));
    assert Pick(s, order) == Permuted(s, order);
    assert Pick(s, Range(|s|)) == s;
  }

  /** An entry of a sequence of non-negative numbers is at most its sum. */
  lemma {:induction false} EntryAtMostSum(s: seq<real>, i: nat)
    requires i < |s| && forall k :: 0 <= k < |s| ==> 0.0 <= s[k]
    ensures s[i] <= SumReal(s)
  {
    if i < |s| - 1 {
      EntryAtMostSum(s[..|s| - 1], i);
    } else {
      SumRealNonNegative(s[..|s| - 1]);
    }
  }

  lemma {:induction false} SumRealConst(n: nat, c: real)
    ensures SumReal(seq(n, _ => c)) == n as real * c
  {
    if n > 0 {
      SumRealConst(n - 1, c);
      assert seq(n, _ => c)[..n - 1] == seq(n - 1, _ => c);
    }
  }

  /** Pointwise at most gives a sum at most; one strict entry makes it strict. */
  lemma {:induction false} SumRealMonotone(a: seq<real>, b: seq<real>)
    requires |a| == |b| && forall k :: 0 <= k < |a| ==> a[k] <= b[k]
    ensures SumReal(a) <= SumReal(b)
    ensures (exists k :: 0 <= k < |a| && a[k] < b[k]) ==> SumReal(a) < SumReal(b)
  {
    if |a| > 0 {
      var n := |a| - 1;
      SumRealMonotone(a[..n], b[..n]);
      if exists k :: 0 <= k < |a| && a[k] < b[k] {
        var k :| 0 <= k < |a| && a[k] < b[k];
        if k < n {
          assert a[..n][k] < b[..n][k];
        }
      }
    }
  }

  /** The sum of a pointwise sum. */
  lemma {:induction false} SumIntAdd(a: seq<int>, b: seq<int>, c: seq<int>)
    requires |a| == |b| == |c| && forall k :: 0 <= k < |a| ==> c[k] == a[k] + b[k]
    ensures SumInt(c) == SumInt(a) + SumInt(b)
  {
    if |a| > 0 {
      var n := |a| - 1;
      SumIntAdd(a[..n], b[..n], c[..n]);
    }
  }

  lemma {:induction false} SumRealAdd(a: seq<real>, b: seq<real>, c: seq<real>)
    requires |a| == |b| == |c| && forall k :: 0 <= k < |a| ==> c[k] == a[k] + b[k]
    ensures SumReal(c) == SumReal(a) + SumReal(b)
  {
    if |a| > 0 {
      var n := |a| - 1;
      SumRealAdd(a[..n], b[..n], c[..n]);
    }
  }

  function IntsToReals(s: seq<int>): (r: seq<real>)
    ensures |r| == |s| && forall k :: 0 <= k < |s| ==> r[k] == s[k] as real
  {
    seq(|s|, k requires 0 <= k < |s| => s[k] as real)
  }

  lemma {:induction false} SumIntsToReals(s: seq<int>)
    ensures SumReal(IntsToReals(s)) == SumInt(s) as real
  {
    if |s| > 0 {
      var n := |s| - 1;
      SumIntsToReals(s[..n]);
      assert IntsToReals(s)[..n] == IntsToReals(s[..n]);
    }
  }

  /** A sum of 0/1 flags counts the raised ones: between 0 and the length. */
  lemma {:induction false} SumFlagsBounds(s: seq<int>)
    requires forall k :: 0 <= k < |s| ==> s[k] == 0 || s[k] == 1
    ensures 0 <= SumInt(s) <= |s|
  {
    if |s| > 0 {
      SumFlagsBounds(s[..|s| - 1]);
    }
  }

  /** One raised flag makes the sum at least 1. */
  lemma {:induction false} SumFlagsPositive(s: seq<int>, j: nat)
    requires forall k :: 0 <= k < |s| ==> s[k] == 0 || s[k] == 1
    requires j < |s| && s[j] == 1
    ensures SumInt(s) >= 1
  {
    var p := s[..|s| - 1];
    SumFlagsBounds(p);
    if j < |s| - 1 {
      SumFlagsPositive(p, j);
    }
  }

  /** The elements satisfying `p`, in order, each as often as in `s`. */
  function Filter<T(!new)>(s: seq<T>, p: T -> bool): (r: seq<T>)
    ensures forall x :: multiset(r)[x] == if p(x) then multiset(s)[x] else 0
    ensures forall x :: x in r <==> x in s && p(x)
    ensures |r| <= |s|
  {
    if |s| == 0 then []
    else
      var r := Filter(s[..|s| - 1], p);
      var x := s[|s| - 1];
      assert s == s[..|s| - 1] + [x];
      if p(x) then r + [x] else r
  }

  /** `Filter` takes or drops the last element. */
  lemma FilterSnoc<T(!new)>(s: seq<T>, p: T -> bool)
    requires |s| > 0
    ensures Filter(s, p) == Filter(s[..|s| - 1], p) + if p(s[|s| - 1]) then [s[|s| - 1]] else []
  {
  }

  /** A filter every element passes keeps the sequence whole. */
  lemma {:induction false} FilterKeepsAll<T(!new)>(s: seq<T>, p: T -> bool)
    requires forall i :: 0 <= i < |s| ==> p(s[i])
    ensures Filter(s, p) == s
  {
    if |s| > 0 {
      var n := |s| - 1;
      var init := s[..n];
      assert forall i :: 0 <= i < |init| ==> p(init[i]) by {
        forall i | 0 <= i < |init| ensures p(init[i]) {
          assert init[i] == s[i];
        }
      }
      FilterKeepsAll(init, p);
      assert p(s[n]);
      FilterSnoc(s, p);
      assert init + [s[n]] == s;
    }
  }

  /** The positions below `n` that satisfy `p`, ascending. */
  function Positions(n: nat, p: nat -> bool): (r: seq<nat>)
    ensures NoDup(r)
    ensures forall k :: 0 <= k < |r| ==> r[k] < n
    ensures forall j: nat :: j in r <==> j < n && p(j)
  {
    RangeNoDup(n);
    FilterNoDup<nat>(Range(n), p);
    RangeMembers(n);
    var r := Filter<nat>(Range(n), p);
    assert forall k :: 0 <= k < |r| ==> r[k] in Range(n);
    r
  }

  lemma RangeMembers(n: nat)
    ensures forall j: nat :: j in Range(n) <==> j < n
  {
    forall j: nat ensures j in Range(n) <==> j < n {
      if j in Range(n) {
        var i :| 0 <= i < |Range(n)| && Range(n)[i] == j;
      }
      if j < n {
        assert Range(n)[j] == j;
      }
    }
  }

  /** A relation that holds between every earlier and later element
      still holds after filtering. */
  lemma {:induction false} FilterPairwise<T(!new)>(s: seq<T>, p: T -> bool, rel: (T, T) -> bool)
    requires forall i, j :: 0 <= i < j < |s| ==> rel(s[i], s[j])
    ensures forall i, j :: 0 <= i < j < |Filter(s, p)| ==> rel(Filter(s, p)[i], Filter(s, p)[j])
  {
    if |s| > 0 {
      var init := s[..|s| - 1];
      var x := s[|s| - 1];
      FilterPairwise(init, p, rel);
      FilterSnoc(s, p);
      var f := Filter(init, p);
      if p(x) {
        var r := f + [x];
        forall i, j | 0 <= i < j < |r| ensures rel(r[i], r[j]) {
          if j == |f| {
            assert r[i] == f[i] && f[i] in init;
            var k :| 0 <= k < |init| && init[k] == r[i];
            assert s[k] == r[i] && s[|s| - 1] == r[j];
          } else {
            assert r[i] == f[i] && r[j] == f[j];
          }
        }
      }
    }
  }

  lemma {:induction false} FilterNoDup<T(!new)>(s: seq<T>, p: T -> bool)
    requires NoDup(s)
    ensures NoDup(Filter(s, p))
  {
    if |s| > 0 {
      var init := s[..|s| - 1];
      assert NoDup(init);
      FilterNoDup(init, p);
      assert s[|s| - 1] !in init;
    }
  }

  /** An element of a rearrangement sits at some position of the original. */
  function PositionIn<T(==)>(a: seq<T>, b: seq<T>, i: nat): (k: nat)
    requires multiset(a) == multiset(b) && i < |a|
    ensures k < |b| && b[k] == a[i]
  {
    assert a[i] in multiset(b);
    IndexOf(b, a[i])
  }

  predicate NonIncreasingBy<T>(s: seq<T>, key: T -> int)
  {
    forall i, j :: 0 <= i < j < |s| ==> key(s[i]) >= key(s[j])
  }

  /** Inserts `x` after every element whose key is at least `key(x)`. */
  function InsertDesc<T>(x: T, s: seq<T>, key: T -> int): (r: seq<T>)
    ensures multiset(r) == multiset(s) + multiset{x} && |r| == |s| + 1
  {
    if |s| == 0 then [x]
    else if key(s[0]) < key(x) then [x] + s
    else
      assert s == [s[0]] + s[1..];
      [s[0]] + InsertDesc(x, s[1..], key)
  }

  lemma {:induction false} InsertDescSorted<T>(x: T, s: seq<T>, key: T -> int)
    requires NonIncreasingBy(s, key)
    ensures NonIncreasingBy(InsertDesc(x, s, key), key)
  {
    if |s| > 0 && key(s[0]) >= key(x) {
      InsertDescSorted(x, s[1..], key);
      var t := InsertDesc(x, s[1..], key);
      forall k | 0 <= k < |t| ensures key(s[0]) >= key(t[k]) {
        assert t[k] in multiset(s[1..]) + multiset{x};
        if t[k] != x {
          assert t[k] in s[1..];
        }
      }
    }
  }

  /** A stable sort by descending key. */
  function SortDesc<T>(s: seq<T>, key: T -> int): (r: seq<T>)
    ensures multiset(r) == multiset(s) && |r| == |s|
    ensures NonIncreasingBy(r, key)
  {
    if |s| == 0 then []
    else
      assert s == s[..|s| - 1] + [s[|s| - 1]];
      var t := SortDesc(s[..|s| - 1], key);
      InsertDescSorted(s[|s| - 1], t, key);
      InsertDesc(s[|s| - 1], t, key)
  }

  /** Python's `s[:n]`, a negative `n` counting from the end. */
  function PyTake<T>(s: seq<T>, n: int): (r: seq<T>)
    ensures |r| <= |s| && r == s[..|r|]
    ensures n >= 0 ==> |r| == if n < |s| then n else |s|
    ensures n < 0 ==> |r| == if |s| + n > 0 then |s| + n else 0
  {
    if n >= 0 then (if n < |s| then s[..n] else s)
    else if |s| + n > 0 then s[..|s| + n] else []
  }

  /** Python's `s[n:]`, a negative `n` counting from the end. */
  function PyDrop<T>(s: seq<T>, n: int): (r: seq<T>)
    ensures PyTake(s, n) + r == s
  {
    s[|PyTake(s, n)|..]
  }

  /** The elements of `s` that are not in `seen`, each at its first occurrence. */
  function Unseen<T(==,!new)>(s: seq<T>, seen: set<T>): (r: seq<T>)
    ensures NoDup(r)
    ensures forall x :: x in r <==> x in s && x !in seen
  {
    if |s| == 0 then []
    else
      var p := s[..|s| - 1];
      var x := s[|s| - 1];
      assert forall y :: y in s <==> y in p || y == x;
      Unseen(p, seen) + (if x in seen || x in p then [] else [x])
  }

  /** Deduplicating a concatenation: the second part only adds what the
      first did not hold. */
  lemma {:induction false} DedupeAppend<T(!new)>(a: seq<T>, b: seq<T>)
    ensures Dedupe(a + b) == Dedupe(a) + Unseen(b, set x | x in a)
    decreases |b|
  {
    var seen := set x | x in a;
    if |b| == 0 {
      assert a + b == a;
    } else {
      var p := b[..|b| - 1];
      var x := b[|b| - 1];
      var s := a + b;
      assert s[..|s| - 1] == a + p;
      assert s[|s| - 1] == x;
      DedupeAppend(a, p);
      var d := Dedupe(a + p);
      assert d == Dedupe(a) + Unseen(p, seen);
      DedupeSnoc(s);
      UnseenSnoc(b, seen);
      InDedupe(a + p, x);
      assert x in a + p <==> x in seen || x in p;
    }
  }

  lemma DedupeSnoc<T>(s: seq<T>)
    requires |s| > 0
    ensures Dedupe(s) ==
      if s[|s| - 1] in Dedupe(s[..|s| - 1]) then Dedupe(s[..|s| - 1]) else Dedupe(s[..|s| - 1]) + [s[|s| - 1]]
  {
  }

  lemma UnseenSnoc<T(!new)>(s: seq<T>, seen: set<T>)
    requires |s| > 0
    ensures Unseen(s, seen) ==
      Unseen(s[..|s| - 1], seen) + (if s[|s| - 1] in seen || s[|s| - 1] in s[..|s| - 1] then [] else [s[|s| - 1]])
  {
  }

  lemma DedupeSameElements<T>(s: seq<T>)
    ensures forall x :: x in Dedupe(s) <==> x in s
  {
    forall x ensures x in Dedupe(s) <==> x in s {
      InDedupe(s, x);
    }
  }

  lemma InDedupe<T>(s: seq<T>, x: T)
    ensures x in Dedupe(s) <==> x in s
  {
    if x in s {
      var k :| 0 <= k < |s| && s[k] == x;
    }
  }

  /** Deduplicating a non-increasing sequence gives a strictly decreasing one. */
  lemma DedupeDescending(s: seq<int>)
    requires forall i, j :: 0 <= i < j < |s| ==> s[i] >= s[j]
    ensures forall i, j :: 0 <= i < j < |Dedupe(s)| ==> Dedupe(s)[i] > Dedupe(s)[j]
  {
    DedupeOrder(s);
    DescendingOfOrder(s, Dedupe(s));
  }

  /** Distinct values listed in first-occurrence order of a non-increasing
      sequence are strictly decreasing. */
  lemma DescendingOfOrder(s: seq<int>, r: seq<int>)
    requires forall i, j :: 0 <= i < j < |s| ==> s[i] >= s[j]
    requires NoDup(r) && FirstOccurrenceOrder(s, r)
    ensures forall i, j :: 0 <= i < j < |r| ==> r[i] > r[j]
  {
    forall i, j | 0 <= i < j < |r| ensures r[i] > r[j] {
      assert s[IndexOf(s, r[i])] >= s[IndexOf(s, r[j])];
    }
  }

  /** A duplicate-free sequence has as many elements as its set. */
  lemma {:induction false} NoDupCard<T>(s: seq<T>)
    requires NoDup(s)
    ensures |set x | x in s| == |s|
  {
    if |s| > 0 {
      var p := s[..|s| - 1];
      NoDupCard(p);
      assert (set x | x in s) == (set x | x in p) + {s[|s| - 1]};
      assert s[|s| - 1] !in p;
    }
  }

  /** A duplicate-free sequence drawn from another is no longer than it. */
  lemma SubsetLength<T>(a: seq<T>, b: seq<T>)
    requires NoDup(a) && NoDup(b)
    requires forall x :: x in a ==> x in b
    ensures |a| <= |b|
  {
    NoDupCard(a);
    NoDupCard(b);
    SubsetCard(set x | x in a, set x | x in b);
  }

  lemma {:induction false} SubsetCard<T>(a: set<T>, b: set<T>)
    requires a <= b
    ensures |a| <= |b|
    decreases |a|
  {
    if a != {} {
      var x :| x in a;
      SubsetCard(a - {x}, b - {x});
    }
  }
}

