/** Historical carrier shares: the rows of completed weeks, the last `n`
    distinct weeks among them, and per (carrier, [category], lane) the
    container total, its share of the lane, the weeks active, week-by-week
    totals and participation. The current week is a parameter (the source
    derives it from the clock). */
module HistoricVolume {
  import opened Wrappers
  import opened Seqs
  import opened PyMath
  import opened Frame
  import opened Groups

  /** `pd.DataFrame()`: no columns and no rows. */
  const EMPTY := Table({}, [])

  /** The week of a row, 0 for a missing week (never used on such a row). */
  function WeekOf(x: Shipment): int
  {
    if x.week.Some? then x.week.value else 0
  }

  function WeeksOf(rows: seq<Shipment>): (ws: seq<int>)
    ensures |ws| == |rows| && forall i :: 0 <= i < |rows| ==> ws[i] == WeekOf(rows[i])
  {
    seq(|rows|, i requires 0 <= i < |rows| => WeekOf(rows[i]))
  }

  predicate Completed(x: Shipment, currentWeek: int)
  {
    x.week.Some? && x.week.value < currentWeek
  }

  /** Keeps the rows of weeks before the current one (a missing week compares
      false); an empty table comes back empty and a table without a week
      column is an error. */
  function FilterHistoricalWeeks(t: Table, currentWeek: int): (r: Result<Table>)
    ensures |t.rows| == 0 ==> r == Success(EMPTY)
    ensures |t.rows| > 0 ==> (r.Failure? <==> WEEK !in t.columns)
    ensures r.Success? && |t.rows| > 0 ==> r.value.columns == t.columns
    ensures r.Success? ==>
      (forall x :: multiset(r.value.rows)[x] == if Completed(x, currentWeek) then multiset(t.rows)[x] else 0)
  {
    if |t.rows| == 0 then Success(EMPTY)
    else if WEEK !in t.columns then Failure("Column 'Week Number' not found in data")
    else Success(Table(t.columns, Filter(t.rows, x => Completed(x, currentWeek))))
  }

  /** `unique()` of the week column sorted descending, cut to the first `n`
      (Python slicing: a negative `n` drops weeks from the end). */
  function TopWeeks(history: seq<Shipment>, n: int): seq<int>
  {
    PyTake(Dedupe(WeeksOf(SortDesc(history, WeekOf))), n)
  }

  /** The kept weeks are distinct weeks of the history; for `n >= 0` there
      are at most `n` of them, and exactly `n` when the history has that many. */
  lemma TopWeeksCount(history: seq<Shipment>, n: int)
    ensures NoDup(TopWeeks(history, n))
    ensures forall w :: w in TopWeeks(history, n) ==> w in WeeksOf(history)
    ensures n >= 0 ==> |TopWeeks(history, n)| <= n
    ensures n >= 0 ==> |TopWeeks(history, n)| == if n < |Dedupe(WeeksOf(history))| then n else |Dedupe(WeeksOf(history))|
  {
    var sorted := SortDesc(history, WeekOf);
    var d := Dedupe(WeeksOf(sorted));
    var top := PyTake(d, n);
    assert top == d[..|top|];
    forall i, j | 0 <= i < j < |top| ensures top[i] != top[j] {
      assert top[i] == d[i] && top[j] == d[j];
    }
    forall w | w in top ensures w in WeeksOf(history) {
      WeeksOfPermutation(history, sorted, w);
    }
    WeeksOfPermutationDedupe(history, sorted);
  }

  /** Every week of the history that is left out is older than every week kept. */
  lemma TopWeeksLatest(history: seq<Shipment>, n: int)
    ensures forall w, u :: w in WeeksOf(history) && w !in TopWeeks(history, n) && u in TopWeeks(history, n) ==> w < u
  {
    var sorted := SortDesc(history, WeekOf);
    var ws := WeeksOf(sorted);
    var d := Dedupe(ws);
    var top := PyTake(d, n);
    assert top == d[..|top|];
    DedupeDescending(ws);
    forall w, u | w in WeeksOf(history) && w !in top && u in top ensures w < u {
      WeeksOfPermutation(history, sorted, w);
      var iw := IndexOf(d, w);
      var iu := IndexOf(top, u);
      assert d[iu] == u;
      assert iw >= |top|;
    }
  }

  /** The weeks of a reordering of the rows are the weeks of the rows. */
  lemma WeeksOfPermutation(a: seq<Shipment>, b: seq<Shipment>, w: int)
    requires multiset(a) == multiset(b)
    ensures w in WeeksOf(a) <==> w in WeeksOf(b)
  {
    if w in WeeksOf(a) {
      var i :| 0 <= i < |a| && WeeksOf(a)[i] == w;
      assert a[i] in multiset(b);
      var j :| 0 <= j < |b| && b[j] == a[i];
      assert WeeksOf(b)[j] == w;
    }
    if w in WeeksOf(b) {
      var j :| 0 <= j < |b| && WeeksOf(b)[j] == w;
      assert b[j] in multiset(a);
      var i :| 0 <= i < |a| && a[i] == b[j];
      assert WeeksOf(a)[i] == w;
    }
  }

  /** Reordering the rows does not change the number of distinct weeks. */
  lemma WeeksOfPermutationDedupe(a: seq<Shipment>, b: seq<Shipment>)
    requires multiset(a) == multiset(b)
    ensures |Dedupe(WeeksOf(a))| == |Dedupe(WeeksOf(b))|
  {
    var da := Dedupe(WeeksOf(a));
    var db := Dedupe(WeeksOf(b));
    forall w | w in da ensures w in db {
      WeeksOfPermutation(a, b, w);
    }
    forall w | w in db ensures w in da {
      WeeksOfPermutation(a, b, w);
    }
    SubsetLength(da, db);
    SubsetLength(db, da);
  }

  /** The rows of the last `n` completed weeks, most recent week first. */
  function LastNWeeks(t: Table, n: int, currentWeek: int): (r: Result<Table>)
    ensures r.Failure? <==> |t.rows| > 0 && WEEK !in t.columns
    ensures r.Success? && |r.value.rows| > 0 ==> r.value.columns == t.columns
    ensures r.Success? ==>
      var top := TopWeeks(FilterHistoricalWeeks(t, currentWeek).value.rows, n);
      forall x :: multiset(r.value.rows)[x] ==
        if Completed(x, currentWeek) && WeekOf(x) in top then multiset(t.rows)[x] else 0
  {
    match FilterHistoricalWeeks(t, currentWeek)
    case Failure(e) => Failure(e)
    case Success(h) =>
      if |h.rows| == 0 then Success(EMPTY)
      else
        var top := TopWeeks(h.rows, n);
        Success(Table(h.columns, Filter(SortDesc(h.rows, WeekOf), x => WeekOf(x) in top)))
  }

  /** Every kept row is completed and its week is one of at most `n`
      distinct weeks, the most recent ones. */
  lemma LastNWeeksWeeks(t: Table, n: int, currentWeek: int)
    requires LastNWeeks(t, n, currentWeek).Success?
    ensures var rows := LastNWeeks(t, n, currentWeek).value.rows;
      var h := FilterHistoricalWeeks(t, currentWeek).value.rows;
      var top := TopWeeks(h, n);
      (forall x :: x in rows ==> Completed(x, currentWeek) && WeekOf(x) in top) &&
      NoDup(top) && (n >= 0 ==> |top| <= n)
  {
    var h := FilterHistoricalWeeks(t, currentWeek).value.rows;
    TopWeeksCount(h, n);
    var rows := LastNWeeks(t, n, currentWeek).value.rows;
    forall x | x in rows ensures Completed(x, currentWeek) {
      assert multiset(rows)[x] > 0;
    }
  }

  /** One row of `calculate_carrier_volume_share`. */
  datatype ShareRow = ShareRow(
    carrier: string,
    category: Option<string>,
    lane: string,
    total: int,
    weeksActive: nat,
    laneTotal: int,
    sharePct: real,
    avgWeekly: real)

  /** No input rows; no rows in the last `n` completed weeks (the empty frame
      with fixed columns); or the share rows. */
  datatype ShareTable = NoData | NoHistory | Shares(rows: seq<ShareRow>)

  /** The lane grouping: (category, lane) when the table has a category
      column, else the lane alone. */
  function LaneCols(hasCategory: bool): (cols: seq<Column>)
    ensures |cols| == if hasCategory then 2 else 1
  {
    if hasCategory then [CATEGORY, LANE] else [LANE]
  }

  /** The carrier grouping: the carrier, then the lane grouping. */
  function GroupCols(hasCategory: bool): (cols: seq<Column>)
    ensures |cols| == |LaneCols(hasCategory)| + 1 && WEEK !in cols
  {
    [CARRIER] + LaneCols(hasCategory)
  }

  predicate StrKey(k: seq<Value>)
  {
    forall i :: 0 <= i < |k| ==> k[i].Str?
  }

  function StrOf(v: Value): string
  {
    if v.Str? then v.s else ""
  }

  /** The (category,) lane key of a share row. */
  function LaneKey(row: ShareRow): seq<Value>
  {
    (if row.category.Some? then [Str(row.category.value)] else []) + [Str(row.lane)]
  }

  /** The (carrier, category, lane) key of a share row. */
  function RowKey(row: ShareRow): seq<Value>
  {
    [Str(row.carrier)] + LaneKey(row)
  }

  /** 100 × carrier total / lane total; 0 / 0 is NaN in pandas and filled with 0. */
  function RawShare(total: int, laneTotal: int): real
  {
    if laneTotal == 0 then 0.0 else total as real / laneTotal as real * 100.0
  }

  /** `Volume_Share_Pct`, rounded to two decimals. */
  function RoundedShare(total: int, laneTotal: int): (pct: real)
    ensures RawShare(total, laneTotal) - 0.005 <= pct <= RawShare(total, laneTotal) + 0.005
  {
    assert Scale(2) == 100;
    RoundTo(RawShare(total, laneTotal), 2)
  }

  /** `Avg_Weekly_Containers`: the total over the weeks active, rounded to
      one decimal (NaN for no weeks, filled with 0). */
  function AvgWeekly(total: int, weeks: nat): (avg: real)
    ensures weeks > 0 ==> total as real / weeks as real - 0.05 <= avg <= total as real / weeks as real + 0.05
    ensures weeks == 0 ==> avg == 0.0
  {
    assert Scale(1) == 10;
    if weeks == 0 then 0.0 else RoundTo(total as real / weeks as real, 1)
  }

  /** A share row for the group `key` with the given statistics. */
  function Labelled(hasCategory: bool, key: seq<Value>, total: int, weeks: nat, laneTotal: int): (row: ShareRow)
    requires |key| == |GroupCols(hasCategory)|
    ensures row.total == total && row.weeksActive == weeks && row.laneTotal == laneTotal
    ensures row.sharePct == RoundedShare(total, laneTotal) && row.avgWeekly == AvgWeekly(total, weeks)
  {
    ShareRow(StrOf(key[0]), if hasCategory then Some(StrOf(key[1])) else None, StrOf(key[|key| - 1]),
             total, weeks, laneTotal, RoundedShare(total, laneTotal), AvgWeekly(total, weeks))
  }

  /** A share row carries the key of its group. */
  lemma LabelledKey(hasCategory: bool, key: seq<Value>, total: int, weeks: nat, laneTotal: int)
    requires |key| == |GroupCols(hasCategory)| && StrKey(key)
    ensures RowKey(Labelled(hasCategory, key, total, weeks, laneTotal)) == key
    ensures LaneKey(Labelled(hasCategory, key, total, weeks, laneTotal)) == key[1..]
  {
    var row := Labelled(hasCategory, key, total, weeks, laneTotal);
    assert Str(row.carrier) == key[0];
    assert Str(row.lane) == key[|key| - 1];
    if hasCategory {
      assert Str(row.category.value) == key[1];
      assert LaneKey(row) == [key[1], key[2]] == key[1..];
    } else {
      assert LaneKey(row) == [key[1]] == key[1..];
    }
    assert RowKey(row) == [key[0]] + key[1..] == key;
  }

  /** The share row of one (carrier, [category], lane) group of the history:
      the group's container total, its distinct weeks and the total of its
      lane, with the share and weekly average derived from them. */
  function ShareFor(h: seq<Shipment>, hasCategory: bool, key: seq<Value>): (row: ShareRow)
    requires |key| == |GroupCols(hasCategory)|
    ensures row == Labelled(hasCategory, key, row.total, row.weeksActive, row.laneTotal)
    ensures row.total == SumCounts(RowsWithKey(h, GroupCols(hasCategory), key))
    ensures row.laneTotal == SumCounts(RowsWithKey(h, LaneCols(hasCategory), key[1..]))
    ensures row.weeksActive == |Dedupe(WeeksOf(RowsWithKey(h, GroupCols(hasCategory), key)))|
  {
    var g := RowsWithKey(h, GroupCols(hasCategory), key);
    Labelled(hasCategory, key, SumCounts(g), |Dedupe(WeeksOf(g))|,
             SumCounts(RowsWithKey(h, LaneCols(hasCategory), key[1..])))
  }

  lemma ShareForKey(h: seq<Shipment>, hasCategory: bool, key: seq<Value>)
    requires |key| == |GroupCols(hasCategory)| && StrKey(key)
    ensures RowKey(ShareFor(h, hasCategory, key)) == key
    ensures LaneKey(ShareFor(h, hasCategory, key)) == key[1..]
  {
    var row := ShareFor(h, hasCategory, key);
    LabelledKey(hasCategory, key, row.total, row.weeksActive, row.laneTotal);
  }

  lemma CellOfString(r: Shipment, c: Column)
    requires c != WEEK && Cell(r, c) != Missing
    ensures Cell(r, c).Str?
  {
  }

  /** Group keys over columns other than the week hold strings. */
  lemma GroupKeysAreStrings(rows: seq<Shipment>, cols: seq<Column>)
    requires WEEK !in cols
    ensures forall k :: k in GroupKeys(rows, cols) ==> StrKey(k) && |k| == |cols|
  {
    var gs := GroupKeys(rows, cols);
    forall k: seq<Value> | k in gs ensures StrKey(k) && |k| == |cols| {
      var i :| 0 <= i < |gs| && gs[i] == k;
      var r :| r in rows && Key(r, cols) == k;
      forall j | 0 <= j < |k| ensures k[j].Str? {
        assert k[j] == Cell(r, cols[j]) && cols[j] != WEEK;
        assert k[j] != Missing;
        CellOfString(r, cols[j]);
      }
    }
  }

  /** The group keys in the order of the final `sort_values`: (category,)
      lane ascending, then rounded share descending. */
  function SortShareKeys(h: seq<Shipment>, hasCategory: bool, keys: seq<seq<Value>>): (ks: seq<seq<Value>>)
    requires NoDup(keys) && forall i :: 0 <= i < |keys| ==> |keys[i]| == |GroupCols(hasCategory)|
    ensures |ks| == |keys| && NoDup(ks)
    ensures forall k :: k in ks <==> k in keys
    ensures forall i :: 0 <= i < |ks| ==> |ks[i]| == |GroupCols(hasCategory)| >= 2
    ensures forall i, j :: 0 <= i < j < |ks| ==>
      KeyLess(ks[i][1..], ks[j][1..]) ||
      (ks[i][1..] == ks[j][1..] && ShareFor(h, hasCategory, ks[i]).sharePct >= ShareFor(h, hasCategory, ks[j]).sharePct)
  {
    var order := ShareOrder(h, hasCategory, keys);
    ShareOrderSorted(h, hasCategory, keys, order);
    Permuted(keys, order)
  }

  /** The (category,) lane parts of carrier group keys. */
  function LanesOf(keys: seq<seq<Value>>): (lanes: seq<seq<Value>>)
    ensures |lanes| == |keys| && forall i :: 0 <= i < |keys| && |keys[i]| >= 1 ==> lanes[i] == keys[i][1..]
  {
    seq(|keys|, i requires 0 <= i < |keys| => if |keys[i]| >= 1 then keys[i][1..] else [])
  }

  function SharesOf(h: seq<Shipment>, hasCategory: bool, keys: seq<seq<Value>>): (shares: seq<real>)
    requires forall i :: 0 <= i < |keys| ==> |keys[i]| == |GroupCols(hasCategory)|
    ensures |shares| == |keys| && forall i :: 0 <= i < |keys| ==> shares[i] == ShareFor(h, hasCategory, keys[i]).sharePct
  {
    seq(|keys|, i requires 0 <= i < |keys| => ShareFor(h, hasCategory, keys[i]).sharePct)
  }

  /** The positions of `keys` sorted by lane, then by share descending. */
  function ShareOrder(h: seq<Shipment>, hasCategory: bool, keys: seq<seq<Value>>): (order: seq<nat>)
    requires forall i :: 0 <= i < |keys| ==> |keys[i]| == |GroupCols(hasCategory)|
    ensures IsOrderOf(order, |keys|)
    ensures SortedBy(order, KeyThenDesc(LanesOf(keys), SharesOf(h, hasCategory, keys)))
  {
    KeyThenDescIsOrder(LanesOf(keys), SharesOf(h, hasCategory, keys), |keys|);
    SortedPositions(|keys|, KeyThenDesc(LanesOf(keys), SharesOf(h, hasCategory, keys)))
  }

  lemma ShareOrderSorted(h: seq<Shipment>, hasCategory: bool, keys: seq<seq<Value>>, order: seq<nat>)
    requires NoDup(keys) && forall i :: 0 <= i < |keys| ==> |keys[i]| == |GroupCols(hasCategory)|
    requires IsOrderOf(order, |keys|)
    requires SortedBy(order, KeyThenDesc(LanesOf(keys), SharesOf(h, hasCategory, keys)))
    ensures var ks := Permuted(keys, order);
      forall i, j :: 0 <= i < j < |ks| ==>
        KeyLess(ks[i][1..], ks[j][1..]) ||
        (ks[i][1..] == ks[j][1..] && ShareFor(h, hasCategory, ks[i]).sharePct >= ShareFor(h, hasCategory, ks[j]).sharePct)
  {
    assert |GroupCols(hasCategory)| >= 2;
    KeyThenDescSorted(LanesOf(keys), SharesOf(h, hasCategory, keys), order);
    ShareKeysOrdered(h, hasCategory, keys, order, LanesOf(keys), SharesOf(h, hasCategory, keys));
  }

  lemma ShareKeysOrdered(h: seq<Shipment>, hasCategory: bool, keys: seq<seq<Value>>, order: seq<nat>,
                         lanes: seq<seq<Value>>, shares: seq<real>)
    requires NoDup(keys) && IsOrderOf(order, |keys|)
    requires forall i :: 0 <= i < |keys| ==> |keys[i]| == |GroupCols(hasCategory)| >= 2
    requires |lanes| == |shares| == |keys|
    requires forall i :: 0 <= i < |keys| ==> lanes[i] == keys[i][1..] && shares[i] == ShareFor(h, hasCategory, keys[i]).sharePct
    requires forall k :: 0 <= k < |order| ==> order[k] < |keys|
    requires forall i, j :: 0 <= i < j < |order| ==>
      KeyLess(lanes[order[i]], lanes[order[j]]) ||
      (lanes[order[i]] == lanes[order[j]] && shares[order[i]] >= shares[order[j]])
    ensures var ks := Permuted(keys, order);
      forall i, j :: 0 <= i < j < |ks| ==>
        KeyLess(ks[i][1..], ks[j][1..]) ||
        (ks[i][1..] == ks[j][1..] && ShareFor(h, hasCategory, ks[i]).sharePct >= ShareFor(h, hasCategory, ks[j]).sharePct)
  {
    var ks := Permuted(keys, order);
    forall i, j | 0 <= i < j < |ks| ensures
        KeyLess(ks[i][1..], ks[j][1..]) ||
        (ks[i][1..] == ks[j][1..] && ShareFor(h, hasCategory, ks[i]).sharePct >= ShareFor(h, hasCategory, ks[j]).sharePct)
    {
      assert ks[i][1..] == lanes[order[i]] && ks[j][1..] == lanes[order[j]];
      assert ShareFor(h, hasCategory, ks[i]).sharePct == shares[order[i]];
      assert ShareFor(h, hasCategory, ks[j]).sharePct == shares[order[j]];
    }
  }

  /** The group keys of the history in output order. */
  function ShareKeys(h: seq<Shipment>, hasCategory: bool): (ks: seq<seq<Value>>)
    ensures NoDup(ks)
    ensures forall k :: k in ks <==> k in GroupKeys(h, GroupCols(hasCategory))
    ensures forall i :: 0 <= i < |ks| ==> |ks[i]| == |GroupCols(hasCategory)| >= 2 && StrKey(ks[i])
    ensures forall i, j :: 0 <= i < j < |ks| ==>
      KeyLess(ks[i][1..], ks[j][1..]) ||
      (ks[i][1..] == ks[j][1..] && ShareFor(h, hasCategory, ks[i]).sharePct >= ShareFor(h, hasCategory, ks[j]).sharePct)
  {
    var keys := GroupKeys(h, GroupCols(hasCategory));
    GroupKeysAreStrings(h, GroupCols(hasCategory));
    SortShareKeys(h, hasCategory, keys)
  }

  function RowsFor(h: seq<Shipment>, hasCategory: bool, ks: seq<seq<Value>>): (rows: seq<ShareRow>)
    requires forall i :: 0 <= i < |ks| ==> |ks[i]| == |GroupCols(hasCategory)|
    ensures |rows| == |ks|
    ensures forall i :: 0 <= i < |ks| ==> rows[i] == ShareFor(h, hasCategory, ks[i])
  {
    seq(|ks|, i requires 0 <= i < |ks| => ShareFor(h, hasCategory, ks[i]))
  }

  /** The rows of `calculate_carrier_volume_share` for a non-empty history. */
  function ShareRows(h: seq<Shipment>, hasCategory: bool): seq<ShareRow>
  {
    RowsFor(h, hasCategory, ShareKeys(h, hasCategory))
  }

  /** Each share row carries its group key and the statistics of its group. */
  lemma ShareRowsKeys(h: seq<Shipment>, hasCategory: bool)
    ensures var rows := ShareRows(h, hasCategory);
      var ks := ShareKeys(h, hasCategory);
      |rows| == |ks| &&
      forall i :: 0 <= i < |rows| ==>
        RowKey(rows[i]) == ks[i] && LaneKey(rows[i]) == ks[i][1..] &&
        rows[i].total == SumCounts(RowsWithKey(h, GroupCols(hasCategory), ks[i])) &&
        rows[i].laneTotal == SumCounts(RowsWithKey(h, LaneCols(hasCategory), ks[i][1..]))
  {
    var ks := ShareKeys(h, hasCategory);
    forall i | 0 <= i < |ks| ensures RowKey(ShareFor(h, hasCategory, ks[i])) == ks[i] &&
                                    LaneKey(ShareFor(h, hasCategory, ks[i])) == ks[i][1..] {
      ShareForKey(h, hasCategory, ks[i]);
    }
  }

  /** `groupby`: exactly one share row per complete (carrier, [category],
      lane) key of the history. */
  lemma ShareRowsOnePerGroup(h: seq<Shipment>, hasCategory: bool)
    ensures var rows := ShareRows(h, hasCategory);
      var G := GroupCols(hasCategory);
      (forall i :: 0 <= i < |rows| ==> RowKey(rows[i]) in GroupKeys(h, G)) &&
      (forall i, j :: 0 <= i < j < |rows| ==> RowKey(rows[i]) != RowKey(rows[j])) &&
      (forall r :: r in h && KeyComplete(Key(r, G)) ==> exists i :: 0 <= i < |rows| && RowKey(rows[i]) == Key(r, G))
  {
    var rows := ShareRows(h, hasCategory);
    var ks := ShareKeys(h, hasCategory);
    forall i | 0 <= i < |ks| ensures RowKey(rows[i]) == ks[i] {
      ShareForKey(h, hasCategory, ks[i]);
    }
    var G := GroupCols(hasCategory);
    OneRowPerKey(rows, ks, GroupKeys(h, G), h, G);
  }

  /** Rows that carry the distinct keys of a grouping one by one hold each
      complete key of the rows exactly once. */
  lemma OneRowPerKey(rows: seq<ShareRow>, ks: seq<seq<Value>>, gs: seq<seq<Value>>, h: seq<Shipment>, G: seq<Column>)
    requires |rows| == |ks| && forall i :: 0 <= i < |rows| ==> RowKey(rows[i]) == ks[i]
    requires NoDup(ks) && forall k :: k in ks <==> k in gs
    requires forall r :: r in h && KeyComplete(Key(r, G)) ==> Key(r, G) in gs
    ensures forall i :: 0 <= i < |rows| ==> RowKey(rows[i]) in gs
    ensures forall i, j :: 0 <= i < j < |rows| ==> RowKey(rows[i]) != RowKey(rows[j])
    ensures forall r :: r in h && KeyComplete(Key(r, G)) ==> exists i :: 0 <= i < |rows| && RowKey(rows[i]) == Key(r, G)
  {
    forall r | r in h && KeyComplete(Key(r, G))
      ensures exists i :: 0 <= i < |rows| && RowKey(rows[i]) == Key(r, G)
    {
      var i := IndexOf(ks, Key(r, G));
      assert RowKey(rows[i]) == Key(r, G);
    }
  }

  /** Each row's total is its group's container count and its lane total the
      container count of its (category,) lane. */
  lemma ShareRowsTotals(h: seq<Shipment>, hasCategory: bool)
    ensures var rows := ShareRows(h, hasCategory);
      forall i :: 0 <= i < |rows| ==>
        rows[i].total == SumCounts(RowsWithKey(h, GroupCols(hasCategory), RowKey(rows[i]))) &&
        rows[i].laneTotal == SumCounts(RowsWithKey(h, LaneCols(hasCategory), LaneKey(rows[i])))
  {
    ShareRowsKeys(h, hasCategory);
  }

  /** The rows come sorted by (category,) lane ascending, then by rounded
      share descending. */
  lemma ShareRowsSorted(h: seq<Shipment>, hasCategory: bool)
    ensures var rows := ShareRows(h, hasCategory);
      forall i, j :: 0 <= i < j < |rows| ==>
        KeyLess(LaneKey(rows[i]), LaneKey(rows[j])) ||
        (LaneKey(rows[i]) == LaneKey(rows[j]) && rows[i].sharePct >= rows[j].sharePct)
  {
    ShareRowsKeys(h, hasCategory);
  }

  /** The summed totals of the share rows of lane `lk`. */
  function LaneSum(rows: seq<ShareRow>, lk: seq<Value>): int
  {
    if |rows| == 0 then 0
    else LaneSum(rows[..|rows| - 1], lk) + (if LaneKey(rows[|rows| - 1]) == lk then rows[|rows| - 1].total else 0)
  }

  /** The summed unrounded shares of the share rows of lane `lk`. */
  function LaneShareSum(rows: seq<ShareRow>, lk: seq<Value>): real
  {
    if |rows| == 0 then 0.0
    else
      var last := rows[|rows| - 1];
      LaneShareSum(rows[..|rows| - 1], lk) + (if LaneKey(last) == lk then RawShare(last.total, last.laneTotal) else 0.0)
  }

  lemma {:induction false} LaneSumGroups(rows: seq<ShareRow>, h: seq<Shipment>, cols: seq<Column>,
                                         ks: seq<seq<Value>>, lk: seq<Value>)
    requires |rows| == |ks|
    requires forall i :: 0 <= i < |ks| ==>
      |ks[i]| > 0 && LaneKey(rows[i]) == ks[i][1..] && rows[i].total == SumCounts(RowsWithKey(h, cols, ks[i]))
    ensures LaneSum(rows, lk) == SumGroups(h, cols, Filter(ks, WithSuffix(1, lk)))
  {
    if |ks| > 0 {
      var init := ks[..|ks| - 1];
      var last := ks[|ks| - 1];
      LaneSumGroups(rows[..|rows| - 1], h, cols, init, lk);
      var f := Filter(init, WithSuffix(1, lk));
      if WithSuffix(1, lk)(last) {
        assert Filter(ks, WithSuffix(1, lk)) == f + [last];
        assert (f + [last])[..|f|] == f;
      }
    }
  }

  /** Summed over the carriers of a lane, the carrier totals give the lane
      total, provided no row of the lane lacks a carrier (such rows count
      toward the lane but belong to no carrier group). */
  lemma LaneTotals(h: seq<Shipment>, hasCategory: bool, lk: seq<Value>)
    requires |lk| == |LaneCols(hasCategory)| && KeyComplete(lk)
    requires forall r :: r in h && Key(r, LaneCols(hasCategory)) == lk ==> r.carrier.Some?
    ensures LaneSum(ShareRows(h, hasCategory), lk) == SumCounts(RowsWithKey(h, LaneCols(hasCategory), lk))
  {
    var ks := ShareKeys(h, hasCategory);
    ShareRowsKeys(h, hasCategory);
    LaneSumGroups(ShareRows(h, hasCategory), h, GroupCols(hasCategory), ks, lk);
    LaneRowsHaveKeys(h, hasCategory, lk);
    SumGroupsOfPart(h, [CARRIER], LaneCols(hasCategory), lk, ks);
  }

  /** A row of a complete lane key that has a carrier has its group among
      the share keys. */
  lemma LaneRowsHaveKeys(h: seq<Shipment>, hasCategory: bool, lk: seq<Value>)
    requires KeyComplete(lk)
    requires forall r :: r in h && Key(r, LaneCols(hasCategory)) == lk ==> r.carrier.Some?
    ensures forall r :: r in h && Key(r, LaneCols(hasCategory)) == lk ==>
      Key(r, [CARRIER] + LaneCols(hasCategory)) in ShareKeys(h, hasCategory)
  {
    var L := LaneCols(hasCategory);
    forall r | r in h && Key(r, L) == lk ensures Key(r, [CARRIER] + L) in ShareKeys(h, hasCategory) {
      KeyConcat(r, [CARRIER], L);
      assert KeyComplete(Key(r, GroupCols(hasCategory)));
    }
  }

  lemma {:induction false} LaneShareScaled(rows: seq<ShareRow>, lk: seq<Value>, total: int)
    requires total != 0
    requires forall i :: 0 <= i < |rows| && LaneKey(rows[i]) == lk ==> rows[i].laneTotal == total
    ensures LaneShareSum(rows, lk) == LaneSum(rows, lk) as real / total as real * 100.0
  {
    if |rows| > 0 {
      var init := rows[..|rows| - 1];
      LaneShareScaled(init, lk, total);
      var last := rows[|rows| - 1];
      if LaneKey(last) == lk {
        var a := LaneSum(init, lk) as real;
        var b := last.total as real;
        var t := total as real;
        assert RawShare(last.total, last.laneTotal) == b / t * 100.0;
        SplitShare(a, b, t);
      }
    }
  }

  /** The unrounded shares of a lane with a non-zero total sum to 100, under
      the same proviso as `LaneTotals`. */
  lemma LaneSharesSumTo100(h: seq<Shipment>, hasCategory: bool, lk: seq<Value>)
    requires |lk| == |LaneCols(hasCategory)| && KeyComplete(lk)
    requires forall r :: r in h && Key(r, LaneCols(hasCategory)) == lk ==> r.carrier.Some?
    requires SumCounts(RowsWithKey(h, LaneCols(hasCategory), lk)) != 0
    ensures LaneShareSum(ShareRows(h, hasCategory), lk) == 100.0
  {
    var L := SumCounts(RowsWithKey(h, LaneCols(hasCategory), lk));
    var rows := ShareRows(h, hasCategory);
    ShareRowsTotals(h, hasCategory);
    assert forall i :: 0 <= i < |rows| && LaneKey(rows[i]) == lk ==> rows[i].laneTotal == L;
    LaneShareScaled(rows, lk, L);
    LaneTotals(h, hasCategory, lk);
    assert LaneSum(rows, lk) == L;
    WholeShare(L as real);
  }

  lemma SplitShare(a: real, b: real, t: real)
    requires t != 0.0
    ensures (a + b) / t * 100.0 == a / t * 100.0 + b / t * 100.0
  {
  }

  lemma WholeShare(x: real)
    requires x != 0.0
    ensures x / x * 100.0 == 100.0
  {
  }

  predicate HasShareColumns(columns: set<Column>)
  {
    CARRIER in columns && COUNT in columns && WEEK in columns && LANE in columns
  }

  /** `calculate_carrier_volume_share`: the share rows of the last `n`
      completed weeks, grouped by carrier, category (when the table has that
      column) and lane. */
  function CarrierVolumeShare(t: Table, n: int, currentWeek: int): (r: Result<ShareTable>)
    ensures |t.rows| == 0 ==> r == Success(NoData)
    ensures |t.rows| > 0 ==> (r.Failure? <==> !HasShareColumns(t.columns))
    ensures r == Success(NoHistory) <==>
      |t.rows| > 0 && HasShareColumns(t.columns) && |LastNWeeks(t, n, currentWeek).value.rows| == 0
    ensures r.Success? && r.value.Shares? ==>
      var h := LastNWeeks(t, n, currentWeek);
      h.Success? && |h.value.rows| > 0 && h.value.columns == t.columns
  {
    if |t.rows| == 0 then Success(NoData)
    else if !HasShareColumns(t.columns) then Failure("Missing required columns")
    else
      var h := LastNWeeks(t, n, currentWeek).value;
      if |h.rows| == 0 then Success(NoHistory)
      else Success(Shares(ShareRows(h.rows, CATEGORY in h.columns)))
  }

  /** Every carrier was active in at least one and, for `n >= 0`, at most `n`
      of the weeks analysed. */
  lemma VolumeShareWeeks(t: Table, n: int, currentWeek: int)
    requires CarrierVolumeShare(t, n, currentWeek).Success?
    requires CarrierVolumeShare(t, n, currentWeek).value.Shares?
    ensures var rows := CarrierVolumeShare(t, n, currentWeek).value.rows;
      forall i :: 0 <= i < |rows| ==> 1 <= rows[i].weeksActive && (n >= 0 ==> rows[i].weeksActive <= n)
  {
    var h := LastNWeeks(t, n, currentWeek).value.rows;
    var hasCategory := CATEGORY in t.columns;
    var top := TopWeeks(FilterHistoricalWeeks(t, currentWeek).value.rows, n);
    LastNWeeksWeeks(t, n, currentWeek);
    ShareRowsWeeks(h, hasCategory, top);
  }

  lemma ShareRowsWeeks(h: seq<Shipment>, hasCategory: bool, top: seq<int>)
    requires NoDup(top) && forall x :: x in h ==> WeekOf(x) in top
    ensures var rows := ShareRows(h, hasCategory);
      forall i :: 0 <= i < |rows| ==> 1 <= rows[i].weeksActive <= |top|
  {
    var ks := ShareKeys(h, hasCategory);
    forall i | 0 <= i < |ks| ensures 1 <= ShareFor(h, hasCategory, ks[i]).weeksActive <= |top| {
      ShareRowWeeks(h, hasCategory, ks[i], top);
    }
  }

  lemma ShareRowWeeks(h: seq<Shipment>, hasCategory: bool, key: seq<Value>, top: seq<int>)
    requires key in GroupKeys(h, GroupCols(hasCategory)) && |key| == |GroupCols(hasCategory)|
    requires NoDup(top) && forall x :: x in h ==> WeekOf(x) in top
    ensures 1 <= ShareFor(h, hasCategory, key).weeksActive <= |top|
  {
    var i := IndexOf(GroupKeys(h, GroupCols(hasCategory)), key);
    GroupWeeks(h, GroupCols(hasCategory), key, top);
  }

  /** A group of a key some row of the history has holds between 1 and
      `|top|` distinct weeks when every week of the history is in `top`. */
  lemma GroupWeeks(h: seq<Shipment>, cols: seq<Column>, key: seq<Value>, top: seq<int>)
    requires exists r :: r in h && Key(r, cols) == key
    requires NoDup(top) && forall x :: x in h ==> WeekOf(x) in top
    ensures 1 <= |Dedupe(WeeksOf(RowsWithKey(h, cols, key)))| <= |top|
  {
    var g := RowsWithKey(h, cols, key);
    var d := Dedupe(WeeksOf(g));
    var r :| r in h && Key(r, cols) == key;
    var j :| 0 <= j < |h| && h[j] == r;
    assert |g| > 0;
    assert WeeksOf(g)[0] in d;
    WeeksWithin(g, h, d, top);
    SubsetLength(d, top);
  }

  lemma WeeksWithin(g: seq<Shipment>, h: seq<Shipment>, d: seq<int>, top: seq<int>)
    requires forall x :: x in g ==> x in h
    requires forall w :: w in d ==> w in WeeksOf(g)
    requires forall x :: x in h ==> WeekOf(x) in top
    ensures forall w :: w in d ==> w in top
  {
    forall w | w in d ensures w in top {
      var k :| 0 <= k < |g| && WeeksOf(g)[k] == w;
      assert g[k] in h;
    }
  }

  /** The index of the trend and participation pivots. */
  const PIVOT_COLS := [CARRIER, LANE]

  /** The week columns of a pivot: the distinct weeks of the rows that have
      a carrier and a lane, ascending. */
  function PivotWeeks(h: seq<Shipment>): (wk: seq<seq<Value>>)
    ensures NoDup(wk)
    ensures forall j :: 0 <= j < |wk| ==> |wk[j]| == 1
    ensures forall r :: r in h && HasPivotKey(r) && r.week.Some? ==> Key(r, [WEEK]) in wk
    ensures forall i, j :: 0 <= i < j < |wk| ==> KeyLess(wk[i], wk[j])
  {
    var f := Filter(h, HasPivotKey);
    PivotRowsKept(h, f);
    GroupKeys(f, [WEEK])
  }

  /** A row with a carrier, a lane and a week survives the pivot filter with a complete week key. */
  lemma PivotRowsKept(h: seq<Shipment>, f: seq<Shipment>)
    requires forall r :: r in f <==> r in h && HasPivotKey(r)
    ensures forall r :: r in h && HasPivotKey(r) && r.week.Some? ==> r in f && KeyComplete(Key(r, [WEEK]))
  {
  }

  predicate HasPivotKey(r: Shipment)
  {
    KeyComplete(Key(r, PIVOT_COLS))
  }

  function WeekLabel(k: seq<Value>): int
  {
    if |k| > 0 && k[0].Int? then k[0].i else 0
  }

  /** One row of `calculate_carrier_weekly_trends`: the containers of each
      week column, their total and their mean. */
  datatype TrendRow = TrendRow(carrier: string, lane: string, perWeek: seq<int>, total: int, avgWeekly: real)

  datatype Trends = NoTrends | TrendTable(weeks: seq<int>, rows: seq<TrendRow>)

  /** The trend row of the (carrier, lane) group `key` over the week columns `wk`. */
  function TrendFor(h: seq<Shipment>, wk: seq<seq<Value>>, key: seq<Value>): (row: TrendRow)
    requires |key| == 2
    ensures |row.perWeek| == |wk| && row.total == SumInt(row.perWeek)
    ensures forall j :: 0 <= j < |wk| ==>
      row.perWeek[j] == SumCounts(RowsWithKey(RowsWithKey(h, PIVOT_COLS, key), [WEEK], wk[j]))
    ensures row.avgWeekly == AvgWeekly(row.total, |wk|)
    ensures StrKey(key) ==> TrendKey(row) == key
  {
    var perWeek := GroupSums(RowsWithKey(h, PIVOT_COLS, key), [WEEK], wk);
    var total := SumInt(perWeek);
    TrendRow(StrOf(key[0]), StrOf(key[1]), perWeek, total, AvgWeekly(total, |wk|))
  }

  function TrendKey(row: TrendRow): seq<Value>
  {
    [Str(row.carrier), Str(row.lane)]
  }

  /** A trend row's total is the container count of its (carrier, lane)
      group: every row of the group falls in exactly one week column. */
  lemma TrendTotal(h: seq<Shipment>, key: seq<Value>)
    requires |key| == 2 && KeyComplete(key)
    requires forall x :: x in h ==> x.week.Some?
    ensures TrendFor(h, PivotWeeks(h), key).total == SumCounts(RowsWithKey(h, PIVOT_COLS, key))
  {
    var g := RowsWithKey(h, PIVOT_COLS, key);
    PivotWeeksCover(h, key);
    GroupSumsTotal(g, [WEEK], PivotWeeks(h));
    SumGroupsCovers(g, [WEEK], PivotWeeks(h));
  }

  /** Each row of a complete (carrier, lane) group has a week column. */
  lemma PivotWeeksCover(h: seq<Shipment>, key: seq<Value>)
    requires KeyComplete(key)
    requires forall x :: x in h ==> x.week.Some?
    ensures forall r :: r in RowsWithKey(h, PIVOT_COLS, key) ==> Key(r, [WEEK]) in PivotWeeks(h)
  {
    var g := RowsWithKey(h, PIVOT_COLS, key);
    forall r | r in g ensures HasPivotKey(r) && r in h {
      var i :| 0 <= i < |g| && g[i] == r;
    }
  }

  function TotalOf(row: TrendRow): int
  {
    row.total
  }

  /** `calculate_carrier_weekly_trends`: per (carrier, lane) the container
      count of each of the last `n` completed weeks, largest total first. */
  function WeeklyTrends(t: Table, n: int, currentWeek: int): (r: Result<Trends>)
    ensures |t.rows| == 0 ==> r == Success(NoTrends)
    ensures |t.rows| > 0 && WEEK !in t.columns ==> r.Failure?
    ensures r.Success? && r.value.TrendTable? ==> NonIncreasingBy(r.value.rows, TotalOf)
  {
    if |t.rows| == 0 then Success(NoTrends)
    else
      match LastNWeeks(t, n, currentWeek)
      case Failure(e) => Failure(e)
      case Success(h) =>
        if |h.rows| == 0 then Success(NoTrends)
        else if !(COUNT in h.columns && CARRIER in h.columns && LANE in h.columns) then Failure("KeyError")
        else Success(TrendTable(Weeks(h.rows), TrendRows(h.rows)))
  }

  function Weeks(h: seq<Shipment>): (weeks: seq<int>)
    ensures |weeks| == |PivotWeeks(h)|
  {
    var wk := PivotWeeks(h);
    seq(|wk|, j requires 0 <= j < |wk| => WeekLabel(wk[j]))
  }

  /** The trend rows, one per (carrier, lane) group, sorted by total descending. */
  function TrendRows(h: seq<Shipment>): (rows: seq<TrendRow>)
    ensures NonIncreasingBy(rows, TotalOf)
    ensures multiset(rows) == multiset(UnsortedTrends(h))
  {
    SortDesc(UnsortedTrends(h), TotalOf)
  }

  /** The (carrier, lane) keys of the pivot index, ascending. */
  function PivotKeys(h: seq<Shipment>): (ks: seq<seq<Value>>)
    ensures NoDup(ks)
    ensures forall k :: k in ks <==> k in GroupKeys(h, PIVOT_COLS)
    ensures forall i :: 0 <= i < |ks| ==> |ks[i]| == 2 && StrKey(ks[i])
  {
    GroupKeysAreStrings(h, PIVOT_COLS);
    GroupKeys(h, PIVOT_COLS)
  }

  function TrendsFor(h: seq<Shipment>, wk: seq<seq<Value>>, ks: seq<seq<Value>>): (rows: seq<TrendRow>)
    requires forall i :: 0 <= i < |ks| ==> |ks[i]| == 2
    ensures |rows| == |ks| && forall i :: 0 <= i < |ks| ==> rows[i] == TrendFor(h, wk, ks[i])
  {
    seq(|ks|, i requires 0 <= i < |ks| => TrendFor(h, wk, ks[i]))
  }

  /** The pivot rows in index order, before the final sort. */
  function UnsortedTrends(h: seq<Shipment>): seq<TrendRow>
  {
    TrendsFor(h, PivotWeeks(h), PivotKeys(h))
  }

  /** Each trend row has one of the pivot keys, and its total is the
      container count of that (carrier, lane) group. */
  predicate TotalsMatch(h: seq<Shipment>, rows: seq<TrendRow>, keys: seq<seq<Value>>)
  {
    forall i :: 0 <= i < |rows| ==>
      TrendKey(rows[i]) in keys && rows[i].total == SumCounts(RowsWithKey(h, PIVOT_COLS, TrendKey(rows[i])))
  }

  /** Every trend row's total is the container count of its (carrier, lane)
      group in the last `n` completed weeks. */
  lemma WeeklyTrendTotals(t: Table, n: int, currentWeek: int)
    requires WeeklyTrends(t, n, currentWeek).Success? && WeeklyTrends(t, n, currentWeek).value.TrendTable?
    ensures var h := LastNWeeks(t, n, currentWeek).value.rows;
      TotalsMatch(h, WeeklyTrends(t, n, currentWeek).value.rows, PivotKeys(h))
  {
    TrendsOfWindow(t, n, currentWeek);
    WindowHasWeeks(t, n, currentWeek);
    TrendRowsTotals(LastNWeeks(t, n, currentWeek).value.rows);
  }

  /** A trend table holds the trend rows of the week window. */
  lemma TrendsOfWindow(t: Table, n: int, currentWeek: int)
    requires WeeklyTrends(t, n, currentWeek).Success? && WeeklyTrends(t, n, currentWeek).value.TrendTable?
    ensures LastNWeeks(t, n, currentWeek).Success?
    ensures var h := LastNWeeks(t, n, currentWeek).value.rows;
      WeeklyTrends(t, n, currentWeek) == Success(TrendTable(Weeks(h), TrendRows(h)))
  {
  }

  /** Every row of the week window has a week. */
  lemma WindowHasWeeks(t: Table, n: int, currentWeek: int)
    requires LastNWeeks(t, n, currentWeek).Success?
    ensures forall x :: x in LastNWeeks(t, n, currentWeek).value.rows ==> x.week.Some?
  {
    LastNWeeksWeeks(t, n, currentWeek);
  }

  lemma TrendRowsTotals(h: seq<Shipment>)
    requires forall x :: x in h ==> x.week.Some?
    ensures TotalsMatch(h, TrendRows(h), PivotKeys(h))
  {
    UnsortedTotals(h);
    ReorderedTotals(h, TrendRows(h), UnsortedTrends(h), PivotKeys(h));
  }

  lemma UnsortedTotals(h: seq<Shipment>)
    requires forall x :: x in h ==> x.week.Some?
    ensures var u := UnsortedTrends(h);
      var keys := PivotKeys(h);
      |u| == |keys| &&
      forall k :: 0 <= k < |u| ==>
        TrendKey(u[k]) == keys[k] && u[k].total == SumCounts(RowsWithKey(h, PIVOT_COLS, keys[k]))
  {
    var keys := PivotKeys(h);
    forall k | 0 <= k < |keys| ensures TrendFor(h, PivotWeeks(h), keys[k]).total == SumCounts(RowsWithKey(h, PIVOT_COLS, keys[k]))
    {
      assert KeyComplete(keys[k]);
      TrendTotal(h, keys[k]);
    }
  }

  lemma ReorderedTotals(h: seq<Shipment>, rows: seq<TrendRow>, u: seq<TrendRow>, keys: seq<seq<Value>>)
    requires multiset(rows) == multiset(u) && |u| == |keys|
    requires forall k :: 0 <= k < |u| ==>
      TrendKey(u[k]) == keys[k] && u[k].total == SumCounts(RowsWithKey(h, PIVOT_COLS, keys[k]))
    ensures TotalsMatch(h, rows, keys)
  {
    forall i | 0 <= i < |rows| ensures TrendKey(rows[i]) in keys &&
        rows[i].total == SumCounts(RowsWithKey(h, PIVOT_COLS, TrendKey(rows[i])))
    {
      var k := PositionIn(rows, u, i);
      assert TrendKey(u[k]) == keys[k];
    }
  }

  /** One row of `get_carrier_lane_participation`: a 0/1 flag per week
      column, the number of weeks flagged and that number as a percentage of
      the week columns. */
  datatype ParticipationRow = ParticipationRow(
    carrier: string, lane: string, active: seq<int>, weeksParticipated: int, ratePct: real)

  datatype Participation = NoParticipation | ParticipationTable(weeks: seq<int>, rows: seq<ParticipationRow>)

  /** 1 when the (carrier, lane) group `key` has a row in week column `w`. */
  function ActiveIn(h: seq<Shipment>, key: seq<Value>, w: seq<Value>): int
  {
    if |RowsWithKey(RowsWithKey(h, PIVOT_COLS, key), [WEEK], w)| > 0 then 1 else 0
  }

  /** `Participation_Rate_Pct`: the weeks participated over the week
      columns, as a percentage rounded to one decimal. */
  function ParticipationRate(weeksParticipated: int, weeks: nat): (pct: real)
    ensures weeks > 0 ==>
      var exact := weeksParticipated as real / weeks as real * 100.0;
      exact - 0.05 <= pct <= exact + 0.05
  {
    assert Scale(1) == 10;
    if weeks == 0 then 0.0 else RoundTo(weeksParticipated as real / weeks as real * 100.0, 1)
  }

  /** The participation row of the (carrier, lane) group `key` over the week
      columns `wk`. */
  function ParticipationFor(h: seq<Shipment>, wk: seq<seq<Value>>, key: seq<Value>): (row: ParticipationRow)
    requires |key| == 2
    ensures |row.active| == |wk| && forall j :: 0 <= j < |wk| ==> row.active[j] == ActiveIn(h, key, wk[j])
    ensures row.weeksParticipated == SumInt(row.active)
    ensures row.ratePct == ParticipationRate(row.weeksParticipated, |wk|)
    ensures StrKey(key) ==> [Str(row.carrier), Str(row.lane)] == key
  {
    var active := seq(|wk|, j requires 0 <= j < |wk| => ActiveIn(h, key, wk[j]));
    var wp := SumInt(active);
    ParticipationRow(StrOf(key[0]), StrOf(key[1]), active, wp, ParticipationRate(wp, |wk|))
  }

  /** `get_carrier_lane_participation`: per (carrier, lane) which of the
      last `n` completed weeks it served. */
  function CarrierLaneParticipation(t: Table, n: int, currentWeek: int): (r: Result<Participation>)
    ensures |t.rows| == 0 ==> r == Success(NoParticipation)
    ensures |t.rows| > 0 && WEEK !in t.columns ==> r.Failure?
    ensures r.Success? && r.value.ParticipationTable? ==>
      var h := LastNWeeks(t, n, currentWeek);
      h.Success? && |h.value.rows| > 0 && CARRIER in t.columns && LANE in t.columns &&
      |r.value.rows| == |PivotKeys(h.value.rows)| && |r.value.weeks| == |PivotWeeks(h.value.rows)|
  {
    if |t.rows| == 0 then Success(NoParticipation)
    else
      match LastNWeeks(t, n, currentWeek)
      case Failure(e) => Failure(e)
      case Success(h) =>
        if |h.rows| == 0 then Success(NoParticipation)
        else if !(CARRIER in h.columns && LANE in h.columns) then Failure("KeyError")
        else Success(ParticipationTable(Weeks(h.rows), ParticipationRows(h.rows)))
  }

  function ParticipationRows(h: seq<Shipment>): (rows: seq<ParticipationRow>)
    ensures |rows| == |PivotKeys(h)|
    ensures forall i :: 0 <= i < |rows| ==> rows[i] == ParticipationFor(h, PivotWeeks(h), PivotKeys(h)[i])
  {
    var ks := PivotKeys(h);
    seq(|ks|, i requires 0 <= i < |ks| => ParticipationFor(h, PivotWeeks(h), ks[i]))
  }

  /** A week flag is raised exactly when some row of the group falls in
      that week. */
  lemma ActiveInIff(h: seq<Shipment>, key: seq<Value>, w: seq<Value>)
    ensures ActiveIn(h, key, w) == 0 || ActiveIn(h, key, w) == 1
    ensures ActiveIn(h, key, w) == 1 <==> exists r :: r in h && Key(r, PIVOT_COLS) == key && Key(r, [WEEK]) == w
  {
    var g := RowsWithKey(h, PIVOT_COLS, key);
    var gw := RowsWithKey(g, [WEEK], w);
    if |gw| > 0 {
      assert gw[0] in g;
      var i :| 0 <= i < |g| && g[i] == gw[0];
      assert gw[0] in h && Key(gw[0], PIVOT_COLS) == key && Key(gw[0], [WEEK]) == w;
    }
    if r :| r in h && Key(r, PIVOT_COLS) == key && Key(r, [WEEK]) == w {
      var i :| 0 <= i < |h| && h[i] == r;
      assert r in g;
      var k :| 0 <= k < |g| && g[k] == r;
      assert r in gw;
    }
  }

  /** Every pivot row participated in at least one and at most all of the
      week columns, when every row of the history has a week. */
  lemma ParticipationWeeks(h: seq<Shipment>, key: seq<Value>)
    requires key in PivotKeys(h)
    requires forall x :: x in h ==> x.week.Some?
    ensures var row := ParticipationFor(h, PivotWeeks(h), key);
      1 <= row.weeksParticipated <= |PivotWeeks(h)|
  {
    var wk := PivotWeeks(h);
    var row := ParticipationFor(h, wk, key);
    forall j | 0 <= j < |wk| ensures row.active[j] == 0 || row.active[j] == 1 {
      ActiveInIff(h, key, wk[j]);
    }
    SumFlagsBounds(row.active);
    var j := ActiveWeek(h, key);
    SumFlagsPositive(row.active, j);
  }

  /** A week column in which the group `key` of the pivot is active. */
  lemma ActiveWeek(h: seq<Shipment>, key: seq<Value>) returns (j: nat)
    requires key in PivotKeys(h)
    requires forall x :: x in h ==> x.week.Some?
    ensures j < |PivotWeeks(h)| && ActiveIn(h, key, PivotWeeks(h)[j]) == 1
  {
    var gs := GroupKeys(h, PIVOT_COLS);
    var p := IndexOf(gs, key);
    var r :| r in h && Key(r, PIVOT_COLS) == key;
    assert HasPivotKey(r);
    j := IndexOf(PivotWeeks(h), Key(r, [WEEK]));
    ActiveInIff(h, key, PivotWeeks(h)[j]);
  }

  /** In the participation table every row served between one and all of
      the week columns, with a rate to match. */
  lemma ParticipationBounds(t: Table, n: int, currentWeek: int)
    requires CarrierLaneParticipation(t, n, currentWeek).Success?
    requires CarrierLaneParticipation(t, n, currentWeek).value.ParticipationTable?
    ensures var p := CarrierLaneParticipation(t, n, currentWeek).value;
      forall i :: 0 <= i < |p.rows| ==>
        1 <= p.rows[i].weeksParticipated <= |p.weeks| &&
        |p.rows[i].active| == |p.weeks| &&
        p.rows[i].ratePct == ParticipationRate(p.rows[i].weeksParticipated, |p.weeks|)
  {
    var h := LastNWeeks(t, n, currentWeek).value.rows;
    LastNWeeksWeeks(t, n, currentWeek);
    assert forall x :: x in h ==> x.week.Some?;
    assert CarrierLaneParticipation(t, n, currentWeek).value == ParticipationTable(Weeks(h), ParticipationRows(h));
    ParticipationRowsBounds(h);
  }

  lemma ParticipationRowsBounds(h: seq<Shipment>)
    requires forall x :: x in h ==> x.week.Some?
    ensures var rows := ParticipationRows(h);
      forall i :: 0 <= i < |rows| ==>
        1 <= rows[i].weeksParticipated <= |PivotWeeks(h)| && |rows[i].active| == |PivotWeeks(h)| &&
        rows[i].ratePct == ParticipationRate(rows[i].weeksParticipated, |PivotWeeks(h)|)
  {
    var ks := PivotKeys(h);
    forall i | 0 <= i < |ks| ensures 1 <= ParticipationFor(h, PivotWeeks(h), ks[i]).weeksParticipated <= |PivotWeeks(h)| {
      ParticipationWeeks(h, ks[i]);
    }
  }
}
