/** pandas `groupby(cols)` with its defaults: rows whose key has a NaN cell
    are dropped, and the groups come out in ascending key order. */
module Groups {
  import opened Wrappers
  import opened Seqs
  import opened Text
  import opened Frame

  /** The order pandas sorts a key column by, NaN last (where
      `groupby(..., dropna=False)` puts the NaN group). */
  predicate ValueLess(a: Value, b: Value)
  {
    match (a, b)
    case (Missing, _) => false
    case (_, Missing) => true
    case (Int(x), Int(y)) => x < y
    case (Int(_), Str(_)) => true
    case (Str(x), Str(y)) => Less(x, y)
    case (_, _) => false
  }

  lemma ValueLessIsOrder(a: Value, b: Value, c: Value)
    ensures !ValueLess(a, a)
    ensures ValueLess(a, b) ==> !ValueLess(b, a)
    ensures ValueLess(a, b) && ValueLess(b, c) ==> ValueLess(a, c)
    ensures a != b ==> ValueLess(a, b) || ValueLess(b, a)
  {
    if a.Str? {
      LessIrreflexive(a.s);
      if b.Str? {
        if Less(a.s, b.s) {
          LessAsymmetric(a.s, b.s);
        }
        if a.s != b.s {
          LessTotal(a.s, b.s);
        }
        if c.Str? && Less(a.s, b.s) && Less(b.s, c.s) {
          LessTransitive(a.s, b.s, c.s);
        }
      }
    }
  }

  /** Lexicographic order on keys of equal length. */
  predicate KeyLess(a: seq<Value>, b: seq<Value>)
  {
    if |a| == 0 || |b| == 0 then |a| == 0 && |b| > 0
    else ValueLess(a[0], b[0]) || (a[0] == b[0] && KeyLess(a[1..], b[1..]))
  }

  lemma {:induction false} KeyLessIsOrder(a: seq<Value>, b: seq<Value>, c: seq<Value>)
    ensures !KeyLess(a, a)
    ensures KeyLess(a, b) ==> !KeyLess(b, a)
    ensures KeyLess(a, b) && KeyLess(b, c) ==> KeyLess(a, c)
    ensures a != b ==> KeyLess(a, b) || KeyLess(b, a)
  {
    if |a| > 0 && |b| > 0 && |c| > 0 {
      ValueLessIsOrder(a[0], b[0], c[0]);
      ValueLessIsOrder(b[0], c[0], a[0]);
      KeyLessIsOrder(a[1..], b[1..], c[1..]);
      if a != b && a[0] == b[0] {
        assert a == [a[0]] + a[1..] && b == [b[0]] + b[1..];
      }
    } else if |a| > 0 && |b| > 0 {
      ValueLessIsOrder(a[0], b[0], a[0]);
      KeyLessIsOrder(a[1..], b[1..], a[1..]);
      if a != b && a[0] == b[0] {
        assert a == [a[0]] + a[1..] && b == [b[0]] + b[1..];
      }
    } else if |a| > 0 {
      ValueLessIsOrder(a[0], a[0], a[0]);
      KeyLessIsOrder(a[1..], a[1..], a[1..]);
    }
  }

  function KeyAt(keys: seq<seq<Value>>, i: nat): seq<Value>
  {
    if i < |keys| then keys[i] else []
  }

  /** Positions of `keys` by key, equal keys in position order. */
  function KeyOrder(keys: seq<seq<Value>>): (nat, nat) -> bool
  {
    (i: nat, j: nat) => KeyLess(KeyAt(keys, i), KeyAt(keys, j)) || (KeyAt(keys, i) == KeyAt(keys, j) && i < j)
  }

  lemma KeyOrderIsOrder(keys: seq<seq<Value>>, n: nat)
    ensures StrictOrderBelow(KeyOrder(keys), n)
  {
    forall a: nat, b: nat, c: nat {
      KeyLessIsOrder(KeyAt(keys, a), KeyAt(keys, b), KeyAt(keys, c));
    }
  }

  /** The complete keys of the rows, in table order. */
  function CompleteKeys(rows: seq<Shipment>, cols: seq<Column>): (ks: seq<seq<Value>>)
    ensures forall i :: 0 <= i < |ks| ==> KeyComplete(ks[i]) && |ks[i]| == |cols| && exists r :: r in rows && Key(r, cols) == ks[i]
    ensures forall r :: r in rows && KeyComplete(Key(r, cols)) ==> Key(r, cols) in ks
  {
    if |rows| == 0 then []
    else
      var last := rows[|rows| - 1];
      var ks := CompleteKeys(rows[..|rows| - 1], cols);
      assert forall r :: r in rows ==> r in rows[..|rows| - 1] || r == last;
      if KeyComplete(Key(last, cols)) then ks + [Key(last, cols)] else ks
  }

  /** Distinct keys, sorted ascending. */
  function SortKeys(ks: seq<seq<Value>>): (gs: seq<seq<Value>>)
    requires NoDup(ks)
    ensures |gs| == |ks| && NoDup(gs)
    ensures forall k :: k in gs <==> k in ks
    ensures forall i, j :: 0 <= i < j < |gs| ==> KeyLess(gs[i], gs[j])
  {
    KeyOrderIsOrder(ks, |ks|);
    var order := SortedPositions(|ks|, KeyOrder(ks));
    SortedKeysAscending(ks, order);
    Permuted(ks, order)
  }

  lemma SortedKeysAscending(ks: seq<seq<Value>>, order: seq<nat>)
    requires NoDup(ks)
    requires IsOrderOf(order, |ks|) && SortedBy(order, KeyOrder(ks))
    ensures forall i, j :: 0 <= i < j < |order| ==> KeyLess(Permuted(ks, order)[i], Permuted(ks, order)[j])
  {
    OrderFacts(order, |ks|);
    var gs := Permuted(ks, order);
    forall i, j | 0 <= i < j < |gs| ensures KeyLess(gs[i], gs[j]) {
      assert KeyOrder(ks)(order[i], order[j]);
      assert order[i] != order[j];
    }
  }

  /**
   * The keys of `groupby(cols)`: each complete key of a row exactly once,
   * in ascending key order.
   */
  function GroupKeys(rows: seq<Shipment>, cols: seq<Column>): (gs: seq<seq<Value>>)
    ensures NoDup(gs)
    ensures forall i :: 0 <= i < |gs| ==> KeyComplete(gs[i]) && |gs[i]| == |cols|
    ensures forall r :: r in rows && KeyComplete(Key(r, cols)) ==> Key(r, cols) in gs
    ensures forall i, j :: 0 <= i < j < |gs| ==> KeyLess(gs[i], gs[j])
  {
    SortKeys(Dedupe(CompleteKeys(rows, cols)))
  }

  /** Every group key is the key of some row. */
  lemma GroupKeysFromRows(rows: seq<Shipment>, cols: seq<Column>)
    ensures forall g :: g in GroupKeys(rows, cols) ==> exists r :: r in rows && Key(r, cols) == g
  {
    var ck := CompleteKeys(rows, cols);
    assert GroupKeys(rows, cols) == SortKeys(Dedupe(ck));
    forall g | g in GroupKeys(rows, cols) ensures exists r :: r in rows && Key(r, cols) == g {
      InDedupe(ck, g);
      var i :| 0 <= i < |ck| && ck[i] == g;
    }
  }

  /** The keys of the rows, in table order. */
  function Keys(rows: seq<Shipment>, cols: seq<Column>): (ks: seq<seq<Value>>)
    ensures |ks| == |rows| && forall i :: 0 <= i < |rows| ==> ks[i] == Key(rows[i], cols)
  {
    seq(|rows|, i requires 0 <= i < |rows| => Key(rows[i], cols))
  }

  /**
   * The keys of `groupby(cols, dropna=False)`: each key of a row exactly
   * once, NaN cells included, in ascending key order (NaN last).
   */
  function AllGroupKeys(rows: seq<Shipment>, cols: seq<Column>): (gs: seq<seq<Value>>)
    ensures NoDup(gs)
    ensures forall i :: 0 <= i < |gs| ==> |gs[i]| == |cols|
    ensures forall k :: k in gs <==> k in Keys(rows, cols)
    ensures forall r :: r in rows ==> Key(r, cols) in gs
    ensures forall i, j :: 0 <= i < j < |gs| ==> KeyLess(gs[i], gs[j])
  {
    var ks := Keys(rows, cols);
    KeysCover(rows, cols);
    DedupeSameElements(ks);
    SortKeys(Dedupe(ks))
  }

  /** Every row's key is among the keys of the rows. */
  lemma KeysCover(rows: seq<Shipment>, cols: seq<Column>)
    ensures forall r :: r in rows ==> Key(r, cols) in Keys(rows, cols)
  {
    var ks := Keys(rows, cols);
    forall r | r in rows ensures Key(r, cols) in ks {
      var i :| 0 <= i < |rows| && rows[i] == r;
      assert ks[i] == Key(r, cols);
    }
  }

  /** Keys drawn from the keys of the rows are each the key of some row. */
  lemma KeysOfRows(rows: seq<Shipment>, cols: seq<Column>, keys: seq<seq<Value>>)
    requires forall k :: k in keys ==> k in Keys(rows, cols)
    ensures forall k :: k in keys ==> exists x :: x in rows && Key(x, cols) == k
  {
    var ks := Keys(rows, cols);
    forall k | k in keys ensures exists x :: x in rows && Key(x, cols) == k {
      var i :| 0 <= i < |ks| && ks[i] == k;
      assert rows[i] in rows;
    }
  }

  function RealAt(xs: seq<real>, i: nat): real
  {
    if i < |xs| then xs[i] else 0.0
  }

  /** Positions by key ascending, then by `xs` descending, then by position:
      a stable sort on (key ascending, value descending). */
  function KeyThenDesc(keys: seq<seq<Value>>, xs: seq<real>): (nat, nat) -> bool
  {
    (i: nat, j: nat) =>
      KeyLess(KeyAt(keys, i), KeyAt(keys, j)) ||
      (KeyAt(keys, i) == KeyAt(keys, j) &&
       (RealAt(xs, i) > RealAt(xs, j) || (RealAt(xs, i) == RealAt(xs, j) && i < j)))
  }

  lemma KeyThenDescIsOrder(keys: seq<seq<Value>>, xs: seq<real>, n: nat)
    ensures StrictOrderBelow(KeyThenDesc(keys, xs), n)
  {
    forall a: nat, b: nat, c: nat {
      KeyLessIsOrder(KeyAt(keys, a), KeyAt(keys, b), KeyAt(keys, c));
    }
  }

  /** Positions sorted by `KeyThenDesc`: keys ascending, values descending
      within a key. */
  lemma KeyThenDescSorted(keys: seq<seq<Value>>, xs: seq<real>, order: seq<nat>)
    requires |keys| == |xs|
    requires IsOrderOf(order, |keys|) && SortedBy(order, KeyThenDesc(keys, xs))
    ensures forall k :: 0 <= k < |order| ==> order[k] < |keys|
    ensures forall i, j :: 0 <= i < j < |order| ==>
      KeyLess(keys[order[i]], keys[order[j]]) ||
      (keys[order[i]] == keys[order[j]] && xs[order[i]] >= xs[order[j]])
  {
    OrderFacts(order, |keys|);
    forall i, j | 0 <= i < j < |order| ensures
      KeyLess(keys[order[i]], keys[order[j]]) ||
      (keys[order[i]] == keys[order[j]] && xs[order[i]] >= xs[order[j]])
    {
      assert KeyThenDesc(keys, xs)(order[i], order[j]);
    }
  }

  /** The summed counts of the groups with keys `ks`, one group after another. */
  function SumGroups(rows: seq<Shipment>, cols: seq<Column>, ks: seq<seq<Value>>): int
  {
    if |ks| == 0 then 0
    else SumGroups(rows, cols, ks[..|ks| - 1]) + SumCounts(RowsWithKey(rows, cols, ks[|ks| - 1]))
  }

  lemma RowsWithKeySnoc(rows: seq<Shipment>, x: Shipment, cols: seq<Column>, key: seq<Value>)
    ensures RowsWithKey(rows + [x], cols, key) ==
      RowsWithKey(rows, cols, key) + (if Key(x, cols) == key then [x] else [])
  {
    assert (rows + [x])[..|rows|] == rows;
  }

  lemma {:induction false} SumGroupsSnoc(rows: seq<Shipment>, x: Shipment, cols: seq<Column>, ks: seq<seq<Value>>)
    requires NoDup(ks)
    ensures SumGroups(rows + [x], cols, ks) ==
      SumGroups(rows, cols, ks) + (if Key(x, cols) in ks then x.count else 0)
  {
    if |ks| > 0 {
      var init := ks[..|ks| - 1];
      var k := ks[|ks| - 1];
      assert ks == init + [k];
      assert NoDup(init);
      SumGroupsSnoc(rows, x, cols, init);
      RowsWithKeySnoc(rows, x, cols, k);
      var g := RowsWithKey(rows, cols, k);
      if Key(x, cols) == k {
        assert Key(x, cols) !in init;
        SumCountsAppend(g, [x]);
      } else {
        assert g + [] == g;
      }
    }
  }

  /** Summing the groups of every key that occurs sums every row once. */
  lemma {:induction false} SumGroupsCovers(rows: seq<Shipment>, cols: seq<Column>, ks: seq<seq<Value>>)
    requires NoDup(ks)
    requires forall r :: r in rows ==> Key(r, cols) in ks
    ensures SumGroups(rows, cols, ks) == SumCounts(rows)
  {
    if |rows| == 0 {
      SumGroupsEmpty(cols, ks);
    } else {
      var init := rows[..|rows| - 1];
      var x := rows[|rows| - 1];
      assert rows == init + [x];
      SumGroupsCovers(init, cols, ks);
      SumGroupsSnoc(init, x, cols, ks);
    }
  }

  lemma {:induction false} SumGroupsEmpty(cols: seq<Column>, ks: seq<seq<Value>>)
    ensures SumGroups([], cols, ks) == 0
  {
    if |ks| > 0 {
      SumGroupsEmpty(cols, ks[..|ks| - 1]);
    }
  }

  lemma KeyConcat(r: Shipment, a: seq<Column>, b: seq<Column>)
    ensures Key(r, a + b) == Key(r, a) + Key(r, b)
  {
  }

  /** Filtering on a key of `a + b` is filtering on its `a` part and then on
      the whole key, or on its `b` part and then on the whole key. */
  lemma {:induction false} RowsWithKeyNested(rows: seq<Shipment>, a: seq<Column>, b: seq<Column>,
                                             ka: seq<Value>, kb: seq<Value>)
    requires |ka| == |a|
    ensures RowsWithKey(RowsWithKey(rows, a, ka), a + b, ka + kb) == RowsWithKey(rows, a + b, ka + kb)
    ensures RowsWithKey(RowsWithKey(rows, b, kb), a + b, ka + kb) == RowsWithKey(rows, a + b, ka + kb)
  {
    if |rows| > 0 {
      var init := rows[..|rows| - 1];
      var x := rows[|rows| - 1];
      assert rows == init + [x];
      RowsWithKeyNested(init, a, b, ka, kb);
      KeyConcat(x, a, b);
      RowsWithKeySnoc(init, x, a, ka);
      RowsWithKeySnoc(init, x, b, kb);
      RowsWithKeySnoc(init, x, a + b, ka + kb);
      RowsWithKeySnoc(RowsWithKey(init, a, ka), x, a + b, ka + kb);
      RowsWithKeySnoc(RowsWithKey(init, b, kb), x, a + b, ka + kb);
      assert Key(x, a + b) == ka + kb <==> Key(x, a) == ka && Key(x, b) == kb by {
        if Key(x, a + b) == ka + kb {
          assert Key(x, a) == (ka + kb)[..|a|];
          assert Key(x, b) == (ka + kb)[|a|..];
        }
      }
    }
  }

  /** The keys whose cells after the first `n` are `kb`. */
  function WithSuffix(n: nat, kb: seq<Value>): seq<Value> -> bool
  {
    k => |k| >= n && k[n..] == kb
  }

  /** Groups of `a + b` whose `b` part is `kb` only hold rows of the `b`
      group `kb`. */
  lemma {:induction false} SumGroupsWithin(rows: seq<Shipment>, a: seq<Column>, b: seq<Column>,
                                           kb: seq<Value>, ks: seq<seq<Value>>)
    requires |kb| == |b|
    requires forall i :: 0 <= i < |ks| ==> |ks[i]| == |a| + |b| && ks[i][|a|..] == kb
    ensures SumGroups(rows, a + b, ks) == SumGroups(RowsWithKey(rows, b, kb), a + b, ks)
  {
    if |ks| > 0 {
      var k := ks[|ks| - 1];
      SumGroupsWithin(rows, a, b, kb, ks[..|ks| - 1]);
      assert k == k[..|a|] + kb;
      RowsWithKeyNested(rows, a, b, k[..|a|], kb);
    }
  }

  /** The groups of `a + b` inside the `b` group `kb` add up to that group,
      when each of its rows has its `a + b` key among `ks`. */
  lemma SumGroupsOfPart(rows: seq<Shipment>, a: seq<Column>, b: seq<Column>, kb: seq<Value>, ks: seq<seq<Value>>)
    requires NoDup(ks) && |kb| == |b|
    requires forall i :: 0 <= i < |ks| ==> |ks[i]| == |a| + |b|
    requires forall r :: r in rows && Key(r, b) == kb ==> Key(r, a + b) in ks
    ensures SumGroups(rows, a + b, Filter(ks, WithSuffix(|a|, kb))) == SumCounts(RowsWithKey(rows, b, kb))
  {
    var f := Filter(ks, WithSuffix(|a|, kb));
    var part := RowsWithKey(rows, b, kb);
    FilterNoDup(ks, WithSuffix(|a|, kb));
    forall i | 0 <= i < |f| ensures |f[i]| == |a| + |b| && f[i][|a|..] == kb {
      assert f[i] in ks;
    }
    SumGroupsWithin(rows, a, b, kb, f);
    PartKeysKept(rows, a, b, kb, ks);
    SumGroupsCovers(part, a + b, f);
  }

  /** Each row of the `b` group `kb` has its `a + b` key among the keys that end in `kb`. */
  lemma PartKeysKept(rows: seq<Shipment>, a: seq<Column>, b: seq<Column>, kb: seq<Value>, ks: seq<seq<Value>>)
    requires forall r :: r in rows && Key(r, b) == kb ==> Key(r, a + b) in ks
    ensures forall r :: r in RowsWithKey(rows, b, kb) ==> Key(r, a + b) in Filter(ks, WithSuffix(|a|, kb))
  {
    var part := RowsWithKey(rows, b, kb);
    forall r | r in part ensures Key(r, a + b) in Filter(ks, WithSuffix(|a|, kb)) {
      var i :| 0 <= i < |part| && part[i] == r;
      KeyConcat(r, a, b);
      assert Key(r, a + b)[|a|..] == kb;
    }
  }

  /** The per-group count sums, one per key. */
  function GroupSums(rows: seq<Shipment>, cols: seq<Column>, ks: seq<seq<Value>>): (sums: seq<int>)
    ensures |sums| == |ks|
    ensures forall j :: 0 <= j < |ks| ==> sums[j] == SumCounts(RowsWithKey(rows, cols, ks[j]))
  {
    seq(|ks|, j requires 0 <= j < |ks| => SumCounts(RowsWithKey(rows, cols, ks[j])))
  }

  lemma {:induction false} GroupSumsTotal(rows: seq<Shipment>, cols: seq<Column>, ks: seq<seq<Value>>)
    ensures SumInt(GroupSums(rows, cols, ks)) == SumGroups(rows, cols, ks)
  {
    if |ks| > 0 {
      assert GroupSums(rows, cols, ks)[..|ks| - 1] == GroupSums(rows, cols, ks[..|ks| - 1]);
      GroupSumsTotal(rows, cols, ks[..|ks| - 1]);
    }
  }
}

