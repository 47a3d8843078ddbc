/** What the single-winner scenarios of optimization/performance_logic.py
    and optimization/cheapest_logic.py share: the choice of grouping
    columns (which optimization/linear_programming.py makes the same way),
    the stable multi-column sort that ranks the rows, the first row of each
    group, and handing the whole volume and container IDs of a group to one
    row. */
module Selection {
  import opened Wrappers
  import opened Seqs
  import opened Text
  import opened Frame
  import opened Groups
  import opened Utils

  /** A scenario table and its `Allocation Strategy` label (`None` when the
      table has no such column). */
  datatype Scenario = Scenario(table: Table, strategy: Option<string>)

  // ---------------------------------------------------------------------
  // Grouping columns
  // ---------------------------------------------------------------------

  /** `DEFAULT_GROUP_COLUMNS` of both selector modules. */
  const SELECTOR_COLUMNS: seq<Column> := [PORT, CATEGORY, LANE, FACILITY, WEEK]

  function Headers(cols: seq<Column>): (hs: seq<string>)
    ensures |hs| == |cols|
  {
    seq(|cols|, i requires 0 <= i < |cols| => Header(cols[i]))
  }

  lemma {:induction false} KeepPresentNoDup(cols: seq<Column>, present: set<Column>)
    ensures NoDup(cols) ==> NoDup(KeepPresent(cols, present))
  {
    if |cols| > 0 && NoDup(cols) {
      KeepPresentNoDup(cols[1..], present);
      assert cols[0] !in cols[1..];
    }
  }

  /** `columns.extend(col for col in extras if col in data.columns and col
      not in columns)`: each extra is checked against the list as it grows. */
  function AddExtras(cols: seq<Column>, extras: seq<Column>, present: set<Column>): (r: seq<Column>)
    decreases |extras|
    ensures forall c :: c in r <==> c in cols || (c in extras && c in present)
    ensures NoDup(cols) ==> NoDup(r)
    ensures |cols| <= |r| && r[..|cols|] == cols
  {
    if |extras| == 0 then cols
    else
      var x := extras[0];
      var cols' := if x in present && x !in cols then cols + [x] else cols;
      var r := AddExtras(cols', extras[1..], present);
      assert r[..|cols'|][..|cols|] == r[..|cols|];
      r
  }

  /** `_prepare_group_columns(data, extras)`: the default columns present in
      the data, in their listed order, then the extras present and not yet
      listed; a ValueError when the list is empty. */
  function PrepareGroupColumns(defaults: seq<Column>, present: set<Column>, extras: seq<Column>): (r: Result<seq<Column>>)
    ensures r.Success? <==> exists c :: (c in defaults || c in extras) && c in present
    ensures r.Success? ==> forall c :: c in r.value <==> c in present && (c in defaults || c in extras)
    ensures r.Success? && NoDup(defaults) ==> NoDup(r.value)
    ensures r.Success? ==> KeepPresent(defaults, present) <= r.value
    ensures r.Success? && extras == [] ==> r.value == KeepPresent(defaults, present)
  {
    var base := KeepPresent(defaults, present);
    KeepPresentNoDup(defaults, present);
    var cols := AddExtras(base, extras, present);
    if |cols| == 0 then
      Failure("Data must include at least one of the grouping columns: " + Join(", ", Headers(defaults)))
    else
      assert cols[0] in cols;
      Success(cols)
  }

  // ---------------------------------------------------------------------
  // Sort keys
  // ---------------------------------------------------------------------

  /** One cell of a sort key: a number, a text, or the NaN placeholder that
      sorts after every value (`fillna(inf)` in an ascending column,
      `fillna(-inf)` in a descending one). */
  datatype Rank = Num(x: real) | Word(s: string) | Last

  predicate RankLess(a: Rank, b: Rank)
  {
    match (a, b)
    case (Last, _) => false
    case (_, Last) => true
    case (Num(x), Num(y)) => x < y
    case (Num(_), Word(_)) => true
    case (Word(x), Word(y)) => Less(x, y)
    case (Word(_), Num(_)) => false
  }

  /** An ascending numeric column with NaN filled by +inf. */
  function Ascending(v: Option<real>): Rank
  {
    if v.Some? then Num(v.value) else Last
  }

  /** A descending numeric column with NaN filled by -inf: sorting the
      negated value ascending. */
  function Descending(v: Option<real>): Rank
  {
    if v.Some? then Num(-v.value) else Last
  }

  /** `astype(str)` of a carrier cell: NaN becomes the text "nan". */
  function CarrierText(c: Option<string>): string
  {
    c.GetOr("nan")
  }

  lemma RankLessIsOrder(a: Rank, b: Rank, c: Rank)
    ensures !RankLess(a, a)
    ensures RankLess(a, b) ==> !RankLess(b, a)
    ensures RankLess(a, b) && RankLess(b, c) ==> RankLess(a, c)
    ensures a != b ==> RankLess(a, b) || RankLess(b, a)
  {
    if a.Word? {
      LessIrreflexive(a.s);
      if b.Word? {
        if Less(a.s, b.s) {
          LessAsymmetric(a.s, b.s);
        }
        if a.s != b.s {
          LessTotal(a.s, b.s);
        }
        if c.Word? && Less(a.s, b.s) && Less(b.s, c.s) {
          LessTransitive(a.s, b.s, c.s);
        }
      }
    }
  }

  /** Lexicographic order on sort keys: pandas' `sort_values` on several
      columns compares them column by column. */
  predicate RanksLess(a: seq<Rank>, b: seq<Rank>)
  {
    if |a| == 0 || |b| == 0 then |a| == 0 && |b| > 0
    else RankLess(a[0], b[0]) || (a[0] == b[0] && RanksLess(a[1..], b[1..]))
  }

  lemma {:induction false} RanksLessIsOrder(a: seq<Rank>, b: seq<Rank>, c: seq<Rank>)
    ensures !RanksLess(a, a)
    ensures RanksLess(a, b) ==> !RanksLess(b, a)
    ensures RanksLess(a, b) && RanksLess(b, c) ==> RanksLess(a, c)
    ensures a != b ==> RanksLess(a, b) || RanksLess(b, a)
  {
    if |a| > 0 && |b| > 0 && |c| > 0 {
      RankLessIsOrder(a[0], b[0], c[0]);
      RankLessIsOrder(b[0], c[0], a[0]);
      RanksLessIsOrder(a[1..], b[1..], c[1..]);
      if a != b && a[0] == b[0] {
        assert a == [a[0]] + a[1..] && b == [b[0]] + b[1..];
      }
    } else if |a| > 0 && |b| > 0 {
      RankLessIsOrder(a[0], b[0], a[0]);
      RanksLessIsOrder(a[1..], b[1..], a[1..]);
      if a != b && a[0] == b[0] {
        assert a == [a[0]] + a[1..] && b == [b[0]] + b[1..];
      }
    } else if |a| > 0 {
      RankLessIsOrder(a[0], a[0], a[0]);
      RanksLessIsOrder(a[1..], a[1..], a[1..]);
    }
  }

  /** Comparing keys made of two parts of fixed width: the first parts
      decide unless they are equal. */
  lemma {:induction false} RanksLessConcat(x: seq<Rank>, y: seq<Rank>, x': seq<Rank>, y': seq<Rank>)
    requires |x| == |x'|
    ensures RanksLess(x + y, x' + y') <==> RanksLess(x, x') || (x == x' && RanksLess(y, y'))
    ensures x + y == x' + y' <==> x == x' && y == y'
  {
    if |x| > 0 {
      assert (x + y)[1..] == x[1..] + y && (x' + y')[1..] == x'[1..] + y';
      assert (x + y)[0] == x[0] && (x' + y')[0] == x'[0];
      RanksLessConcat(x[1..], y, x'[1..], y');
      assert x == [x[0]] + x[1..] && x' == [x'[0]] + x'[1..];
      if x + y == x' + y' {
        assert x == (x + y)[..|x|] && x' == (x' + y')[..|x|];
      }
    } else {
      assert x + y == y && x' + y' == y';
    }
  }

  /** A key that sorts no later than another sorts its first part no
      later, and, when those parts tie, the rest. */
  lemma NoLater(x: seq<Rank>, xs: seq<Rank>, y: seq<Rank>, ys: seq<Rank>)
    requires |x| == |y|
    requires RanksLess(x + xs, y + ys) || x + xs == y + ys
    ensures RanksLess(x, y) || x == y
    ensures x == y ==> RanksLess(xs, ys) || xs == ys
  {
    RanksLessConcat(x, xs, y, ys);
    RanksLessIsOrder(x, x, x);
  }

  /** A descending column: the higher number first, NaN last. */
  lemma DescendingNoLater(a: Option<real>, b: Option<real>)
    requires RanksLess([Descending(a)], [Descending(b)]) || [Descending(a)] == [Descending(b)]
    ensures b.Some? ==> a.Some? && a.value >= b.value
  {
    assert [Descending(a)][1..] == [] && [Descending(b)][1..] == [];
  }

  /** An ascending column: the lower number first, NaN last. */
  lemma AscendingNoLater(a: Option<real>, b: Option<real>)
    requires RanksLess([Ascending(a)], [Ascending(b)]) || [Ascending(a)] == [Ascending(b)]
    ensures b.Some? ==> a.Some? && a.value <= b.value
  {
    assert [Ascending(a)][1..] == [] && [Ascending(b)][1..] == [];
  }

  function RankAt(ranks: seq<seq<Rank>>, i: nat): seq<Rank>
  {
    if i < |ranks| then ranks[i] else []
  }

  /** Positions by sort key, equal keys in position order: the order a
      stable `sort_values` leaves the rows in. */
  function ByRank(ranks: seq<seq<Rank>>): (nat, nat) -> bool
  {
    (i: nat, j: nat) =>
      RanksLess(RankAt(ranks, i), RankAt(ranks, j)) || (RankAt(ranks, i) == RankAt(ranks, j) && i < j)
  }

  lemma ByRankIsOrder(ranks: seq<seq<Rank>>, n: nat)
    ensures StrictOrderBelow(ByRank(ranks), n)
  {
    forall a: nat, b: nat, c: nat {
      RanksLessIsOrder(RankAt(ranks, a), RankAt(ranks, b), RankAt(ranks, c));
    }
  }

  /** The positions of the rows in sorted order. */
  function SortOrder(ranks: seq<seq<Rank>>): (order: seq<nat>)
    ensures IsOrderOf(order, |ranks|) && SortedBy(order, ByRank(ranks))
    ensures |order| == |ranks| && forall k :: 0 <= k < |order| ==> order[k] < |ranks|
  {
    ByRankIsOrder(ranks, |ranks|);
    var order := SortedPositions(|ranks|, ByRank(ranks));
    OrderFacts(order, |ranks|);
    order
  }

  // ---------------------------------------------------------------------
  // The first row of each group
  // ---------------------------------------------------------------------

  /** Position `p` holds the first row of its group: its key is complete
      (pandas drops NaN keys) and no earlier row has it. */
  predicate IsHead(keys: seq<seq<Value>>, p: nat)
  {
    p < |keys| && KeyComplete(keys[p]) && keys[p] !in keys[..p]
  }

  /** `groupby(cols).head(1)`: the positions of the first row of each
      group, in row order. */
  function Heads(keys: seq<seq<Value>>): (hs: seq<nat>)
    ensures forall k :: 0 <= k < |hs| ==> IsHead(keys, hs[k])
    ensures forall p: nat :: IsHead(keys, p) ==> p in hs
    ensures forall i, j :: 0 <= i < j < |hs| ==> hs[i] < hs[j]
  {
    if |keys| == 0 then []
    else
      var n := |keys| - 1;
      var init := keys[..n];
      var hs := Heads(init);
      assert forall p: nat :: p < n ==> init[..p] == keys[..p];
      assert forall p: nat :: p < n ==> (IsHead(init, p) <==> IsHead(keys, p));
      if IsHead(keys, n) then hs + [n] else hs
  }

  /** Every group has its first row among the heads. */
  lemma HeadOfGroup(keys: seq<seq<Value>>, q: nat) returns (p: nat)
    requires q < |keys| && KeyComplete(keys[q])
    ensures p <= q && p in Heads(keys) && keys[p] == keys[q]
  {
    p := IndexOf(keys, keys[q]);
    assert IsHead(keys, p);
  }

  /** No two heads share a group. */
  lemma HeadsDistinct(keys: seq<seq<Value>>)
    ensures var hs := Heads(keys); forall i, j :: 0 <= i < j < |hs| ==> keys[hs[i]] != keys[hs[j]]
  {
    var hs := Heads(keys);
    forall i, j | 0 <= i < j < |hs| ensures keys[hs[i]] != keys[hs[j]] {
      assert IsHead(keys, hs[j]);
      assert keys[..hs[j]][hs[i]] == keys[hs[i]];
    }
  }

  /** The winners under a row order: for each group, the position in the
      input of its first row in that order, in that order. */
  function WinnersOf(keys: seq<seq<Value>>, order: seq<nat>): (ws: seq<nat>)
    requires forall k :: 0 <= k < |order| ==> order[k] < |keys|
    ensures forall k :: 0 <= k < |ws| ==> ws[k] < |keys|
  {
    var hs := Heads(Pick(keys, order));
    seq(|hs|, k requires 0 <= k < |hs| => order[hs[k]])
  }

  /** Exactly one winner per group: the winners' keys are complete and
      distinct, and every complete key of a row is among them. */
  lemma WinnersOnePerGroup(keys: seq<seq<Value>>, order: seq<nat>)
    requires IsOrderOf(order, |keys|)
    requires forall k :: 0 <= k < |order| ==> order[k] < |keys|
    ensures var ws := WinnersOf(keys, order);
      (forall k :: 0 <= k < |ws| ==> KeyComplete(keys[ws[k]])) &&
      (forall i, j :: 0 <= i < j < |ws| ==> keys[ws[i]] != keys[ws[j]]) &&
      (forall q :: 0 <= q < |keys| && KeyComplete(keys[q]) ==> exists k :: 0 <= k < |ws| && keys[ws[k]] == keys[q])
  {
    var sk := Pick(keys, order);
    var hs := Heads(sk);
    var ws := WinnersOf(keys, order);
    HeadsDistinct(sk);
    assert forall k :: 0 <= k < |ws| ==> keys[ws[k]] == sk[hs[k]];
    OrderFacts(order, |keys|);
    forall q | 0 <= q < |keys| && KeyComplete(keys[q])
      ensures exists k :: 0 <= k < |ws| && keys[ws[k]] == keys[q]
    {
      WinnerOfRow(keys, order, q);
    }
  }

  lemma WinnerOfRow(keys: seq<seq<Value>>, order: seq<nat>, q: nat)
    requires forall k :: 0 <= k < |order| ==> order[k] < |keys|
    requires q in order && KeyComplete(keys[q])
    ensures exists k :: 0 <= k < |WinnersOf(keys, order)| && keys[WinnersOf(keys, order)[k]] == keys[q]
  {
    var sk := Pick(keys, order);
    var hs := Heads(sk);
    var m := IndexOf(order, q);
    var p := HeadOfGroup(sk, m);
    var k := IndexOf(hs, p);
    assert keys[WinnersOf(keys, order)[k]] == sk[p];
  }

  /** The winner of a group comes first in the order: every other row of
      the group sorts after it. */
  lemma WinnerIsBest(keys: seq<seq<Value>>, order: seq<nat>, lt: (nat, nat) -> bool, k: nat, j: nat)
    requires IsOrderOf(order, |keys|) && SortedBy(order, lt)
    requires forall k :: 0 <= k < |order| ==> order[k] < |keys|
    requires k < |WinnersOf(keys, order)| && j < |keys|
    requires keys[j] == keys[WinnersOf(keys, order)[k]] && j != WinnersOf(keys, order)[k]
    ensures lt(WinnersOf(keys, order)[k], j)
  {
    var sk := Pick(keys, order);
    var hs := Heads(sk);
    var p := hs[k];
    OrderFacts(order, |keys|);
    var q := IndexOf(order, j);
    assert sk[q] == sk[p];
    assert IsHead(sk, p);
    assert p < q;
  }

  // ---------------------------------------------------------------------
  // The rows of a group, in sorted order
  // ---------------------------------------------------------------------

  /** The rows of the group with key `key`, in the order given. */
  function Group(rows: seq<Shipment>, cols: seq<Column>, key: seq<Value>): (g: seq<Shipment>)
    ensures forall r :: r in g <==> r in rows && Key(r, cols) == key
  {
    Filter(rows, (r: Shipment) => Key(r, cols) == key)
  }

  /** A group holds each row of its key as often as the table does. */
  lemma {:induction false} RowsWithKeyMultiset(rows: seq<Shipment>, cols: seq<Column>, key: seq<Value>)
    ensures forall x :: multiset(RowsWithKey(rows, cols, key))[x] == if Key(x, cols) == key then multiset(rows)[x] else 0
  {
    if |rows| > 0 {
      var init := rows[..|rows| - 1];
      RowsWithKeyMultiset(init, cols, key);
      assert rows == init + [rows[|rows| - 1]];
    }
  }

  /** The summed count does not depend on the order of the rows. */
  lemma {:induction false} SumCountsPermutation(a: seq<Shipment>, b: seq<Shipment>)
    requires multiset(a) == multiset(b)
    ensures SumCounts(a) == SumCounts(b)
    decreases |a|
  {
    if |a| > 0 {
      var x := a[|a| - 1];
      assert x in multiset(a);
      var i :| 0 <= i < |b| && b[i] == x;
      var rest := b[..i] + b[i + 1..];
      MultisetRemove(a, b, i);
      SumCountsPermutation(a[..|a| - 1], rest);
      SumCountsRemove(b, i);
      SumCountsAppend(a[..|a| - 1], [x]);
      assert a[..|a| - 1] + [x] == a;
    } else {
      assert b == [];
    }
  }

  /** Taking out one row takes out its count. */
  lemma SumCountsRemove(b: seq<Shipment>, i: nat)
    requires i < |b|
    ensures SumCounts(b) == SumCounts(b[..i] + b[i + 1..]) + SumCounts([b[i]])
  {
    assert b == b[..i] + [b[i]] + b[i + 1..];
    SumCountsAppend(b[..i] + [b[i]], b[i + 1..]);
    SumCountsAppend(b[..i], [b[i]]);
    SumCountsAppend(b[..i], b[i + 1..]);
  }

  /** The rows in sorted order. */
  function Sorted(rows: seq<Shipment>, ranks: seq<seq<Rank>>): (s: seq<Shipment>)
    requires |ranks| == |rows|
    ensures |s| == |rows|
    ensures forall k :: 0 <= k < |s| ==> s[k] == rows[SortOrder(ranks)[k]]
    ensures multiset(s) == multiset(rows)
  {
    var order := SortOrder(ranks);
    OrderFacts(order, |rows|);
    PermutedMultiset(rows, order);
    Permuted(rows, order)
  }

  /** The rows of the group with key `key` after the sort. */
  function SortedGroup(rows: seq<Shipment>, ranks: seq<seq<Rank>>, cols: seq<Column>, key: seq<Value>): seq<Shipment>
    requires |ranks| == |rows|
  {
    RowsWithKey(Sorted(rows, ranks), cols, key)
  }

  /** The sorted group holds the same rows as the group, as often. */
  lemma SortedGroupMultiset(rows: seq<Shipment>, ranks: seq<seq<Rank>>, cols: seq<Column>, key: seq<Value>)
    requires |ranks| == |rows|
    ensures multiset(SortedGroup(rows, ranks, cols, key)) == multiset(RowsWithKey(rows, cols, key))
    ensures forall r :: r in SortedGroup(rows, ranks, cols, key) <==> r in rows && Key(r, cols) == key
    ensures SumCounts(SortedGroup(rows, ranks, cols, key)) == SumCounts(RowsWithKey(rows, cols, key))
  {
    var sorted := Sorted(rows, ranks);
    RowsWithKeyMultiset(sorted, cols, key);
    RowsWithKeyMultiset(rows, cols, key);
    assert multiset(RowsWithKey(sorted, cols, key)) == multiset(RowsWithKey(rows, cols, key));
    SumCountsPermutation(RowsWithKey(sorted, cols, key), RowsWithKey(rows, cols, key));
    forall r ensures r in RowsWithKey(sorted, cols, key) <==> r in rows && Key(r, cols) == key {
      assert r in RowsWithKey(sorted, cols, key) <==> r in multiset(RowsWithKey(sorted, cols, key));
    }
  }

  /** A group is the rows filtered by their key. */
  lemma {:induction false} RowsWithKeyIsFilter(rows: seq<Shipment>, cols: seq<Column>, key: seq<Value>)
    ensures RowsWithKey(rows, cols, key) == Filter(rows, (r: Shipment) => Key(r, cols) == key)
  {
    if |rows| > 0 {
      RowsWithKeyIsFilter(rows[..|rows| - 1], cols, key);
      FilterSnoc(rows, (r: Shipment) => Key(r, cols) == key);
    }
  }

  /** "Sorts no later than": a key less than or equal to the other's. */
  predicate NoLaterThan(a: seq<Rank>, b: seq<Rank>)
  {
    RanksLess(a, b) || a == b
  }

  /** In the sorted group, every row sorts no later than the rows after it. */
  lemma SortedGroupInOrder(rows: seq<Shipment>, rank: Shipment -> seq<Rank>, ranks: seq<seq<Rank>>, cols: seq<Column>, key: seq<Value>)
    requires |ranks| == |rows| && forall i :: 0 <= i < |rows| ==> ranks[i] == rank(rows[i])
    ensures var g := SortedGroup(rows, ranks, cols, key);
      forall i, j :: 0 <= i < j < |g| ==> NoLaterThan(rank(g[i]), rank(g[j]))
  {
    var order := SortOrder(ranks);
    var sorted := Sorted(rows, ranks);
    var rel := (a: Shipment, b: Shipment) => NoLaterThan(rank(a), rank(b));
    forall i, j | 0 <= i < j < |sorted| ensures rel(sorted[i], sorted[j]) {
      assert ByRank(ranks)(order[i], order[j]);
      assert RankAt(ranks, order[i]) == rank(sorted[i]) && RankAt(ranks, order[j]) == rank(sorted[j]);
    }
    FilterPairwise(sorted, (r: Shipment) => Key(r, cols) == key, rel);
    RowsWithKeyIsFilter(sorted, cols, key);
  }

  // ---------------------------------------------------------------------
  // The whole group's volume and IDs for one row
  // ---------------------------------------------------------------------

  /** The non-blank cells' texts: `str(v) for v in values if str(v).strip()`
      once NaN cells are filled with "". */
  function NonBlankTexts(values: seq<Option<string>>): (r: seq<string>)
    ensures forall k :: 0 <= k < |r| ==> Strip(r[k]) != ""
  {
    if |values| == 0 then []
    else
      var v := values[|values| - 1];
      NonBlankTexts(values[..|values| - 1]) + if BlankCell(v) then [] else [v.value]
  }

  /** `", ".join(...)` of the group's non-blank ID cells. */
  function JoinCells(values: seq<Option<string>>): string
  {
    Join(", ", NonBlankTexts(values))
  }

  predicate CommaFree(ps: seq<string>)
  {
    forall k :: 0 <= k < |ps| ==> ',' !in ps[k]
  }

  lemma {:induction false} PiecesAppend(x: seq<string>, y: seq<string>)
    requires CommaFree(x) && CommaFree(y)
    ensures CommaFree(x + y)
    ensures Pieces(x + y) == Pieces(x) + Pieces(y)
  {
    if |x| > 0 {
      var xy := x + y;
      assert xy[1..] == x[1..] + y;
      assert CommaFree(x[1..]);
      PiecesAppend(x[1..], y);
      assert xy[0] == x[0];
      assert Pieces(xy) == (if Strip(x[0]) != "" then [Strip(x[0])] else []) + Pieces(xy[1..]);
    } else {
      assert x + y == y;
    }
  }

  /** Parsing an ID cell is splitting it at commas and keeping the trimmed,
      non-empty pieces; a blank cell has no comma and gives no piece. */
  lemma ParseIsPieces(s: string)
    ensures ParseContainerIds(Some(s)) == Pieces(Split(s, ','))
  {
    if Strip(s) == "" {
      StripBlank(s);
      assert ',' !in s;
      SplitNoSep(s, ',');
    }
  }

  /** A leading blank does not change the pieces. */
  lemma PiecesAfterSpace(b: string)
    ensures CommaFree(Split(" " + b, ','))
    ensures Pieces(Split(" " + b, ',')) == Pieces(Split(b, ','))
  {
    var sb := Split(b, ',');
    assert (" " + b)[1..] == b;
    assert Split(" " + b, ',') == [" " + sb[0]] + sb[1..];
    assert TrimStart(" " + sb[0]) == TrimStart(sb[0]) by {
      assert (" " + sb[0])[1..] == sb[0];
    }
    assert sb == [sb[0]] + sb[1..];
  }

  /** Parsing `a + ", " + b` gives the IDs of `a` followed by those of `b`. */
  lemma ParseConcat(a: string, b: string)
    ensures ParseContainerIds(Some(a + ", " + b)) == ParseContainerIds(Some(a)) + ParseContainerIds(Some(b))
  {
    assert a + ", " + b == a + [','] + (" " + b);
    SplitConcat(a, ',', " " + b);
    ParseIsPieces(a + ", " + b);
    ParseIsPieces(a);
    ParseIsPieces(b);
    PiecesAfterSpace(b);
    PiecesAppend(Split(a, ','), Split(" " + b, ','));
  }

  /** Joining one more cell: a blank one changes nothing, the first
      non-blank one is the whole text, a later one is appended after ", ". */
  lemma JoinCellsSnoc(values: seq<Option<string>>)
    requires |values| > 0
    ensures var init := values[..|values| - 1];
      var v := values[|values| - 1];
      JoinCells(values) ==
        if BlankCell(v) then JoinCells(init)
        else if NonBlankTexts(init) == [] then v.value
        else JoinCells(init) + ", " + v.value
  {
    var init := values[..|values| - 1];
    var v := values[|values| - 1];
    var ts := NonBlankTexts(init);
    if BlankCell(v) {
      assert NonBlankTexts(values) == ts + [];
      assert ts + [] == ts;
    } else {
      assert NonBlankTexts(values) == ts + [v.value];
      if ts == [] {
        assert ts + [v.value] == [v.value];
      } else {
        JoinAppend(", ", ts, [v.value]);
      }
    }
  }

  /** A blank cell holds no IDs. */
  lemma BlankCellIds(v: Option<string>)
    requires BlankCell(v)
    ensures ParseContainerIds(v) == []
  {
    if v.Some? {
      StripBlank(v.value);
      ParseBlank(v.value);
    }
  }

  /** The joined cells hold exactly the IDs of the cells, in order: so the
      recount of the joined string is the number of IDs of the group. */
  lemma {:induction false} ParseJoinCells(values: seq<Option<string>>)
    ensures ParseContainerIds(Some(JoinCells(values))) == AllContainerIds(values)
  {
    if |values| > 0 {
      var init := values[..|values| - 1];
      var v := values[|values| - 1];
      ParseJoinCells(init);
      AllContainerIdsSnoc(values);
      JoinCellsSnoc(values);
      if BlankCell(v) {
        BlankCellIds(v);
      } else if NonBlankTexts(init) == [] {
        assert JoinCells(init) == "";
        assert ParseContainerIds(Some("")) == [];
      } else {
        ParseConcat(JoinCells(init), v.value);
      }
    }
  }

  /** `Total Rate` / `Total CPC`: the rate times the count, NaN rate as 0. */
  function RateTimes(rate: Option<real>, count: int): real
  {
    rate.GetOr(0.0) * count as real
  }

  /** The winner row once the group totals are merged in (in
      performance_logic.py and cheapest_logic.py): the group's
      summed count, or, when the table has an IDs column, the group's
      joined IDs with their recount; then `Total Rate` and `Total CPC`
      recomputed where the rate columns exist. */
  function WholeGroup(w: Shipment, group: seq<Shipment>, columns: set<Column>): (r: Shipment)
    ensures IDS in columns ==>
      r.ids == Some(JoinCells(ShipmentIdCells(group))) &&
      ParseContainerIds(r.ids) == AllContainerIds(ShipmentIdCells(group)) &&
      r.count == |AllContainerIds(ShipmentIdCells(group))|
    ensures IDS !in columns ==> r.count == SumCounts(group) && r.ids == w.ids
    ensures r.totalRate == if BASE_RATE in columns then Some(RateTimes(w.baseRate, r.count)) else w.totalRate
    ensures r.totalCpc == if CPC in columns then Some(RateTimes(w.cpc, r.count)) else w.totalCpc
    ensures r.(count := w.count, ids := w.ids, totalRate := w.totalRate, totalCpc := w.totalCpc) == w
  {
    var joined := JoinCells(ShipmentIdCells(group));
    var n := if IDS in columns then CountContainers(Some(joined)) else SumCounts(group);
    ParseJoinCells(ShipmentIdCells(group));
    w.(count := n,
       ids := if IDS in columns then Some(joined) else w.ids,
       totalRate := if BASE_RATE in columns then Some(RateTimes(w.baseRate, n)) else w.totalRate,
       totalCpc := if CPC in columns then Some(RateTimes(w.cpc, n)) else w.totalCpc)
  }

  /** Only the count, the IDs and the totals change: the row stays in its
      group. */
  lemma WholeGroupKey(w: Shipment, group: seq<Shipment>, columns: set<Column>, cols: seq<Column>)
    ensures Key(WholeGroup(w, group, columns), cols) == Key(w, cols)
  {
    SameKey(WholeGroup(w, group, columns), w, cols);
  }
}
