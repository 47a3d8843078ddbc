/** optimization/performance_logic.py: the "highest performance" scenario,
    which gives the whole volume and every container ID of each lane/week
    group to the carrier with the best performance score. */
module PerformanceLogic {
  import opened Wrappers
  import opened Seqs
  import opened Frame
  import opened Groups
  import opened Utils
  import opened Selection

  const STRATEGY := "Highest Performance Carrier"

  /** `__cost_sort`: Total Rate, else Total CPC, NaN as +inf; absent when
      the table has neither. */
  function CostRank(columns: set<Column>, r: Shipment): seq<Rank>
  {
    if TOTAL_RATE in columns then [Ascending(r.totalRate)]
    else if TOTAL_CPC in columns then [Ascending(r.totalCpc)]
    else []
  }

  /** `__rate_sort`: Base Rate, else CPC, NaN as +inf. */
  function RateRank(columns: set<Column>, r: Shipment): seq<Rank>
  {
    if BASE_RATE in columns then [Ascending(r.baseRate)]
    else if CPC in columns then [Ascending(r.cpc)]
    else []
  }

  /** The sort key of a row: performance descending (NaN last), cost,
      rate, then the carrier's text. */
  function PerformanceRank(columns: set<Column>, r: Shipment): (k: seq<Rank>)
    ensures |k| >= 2
  {
    [Descending(r.perf)] + (CostRank(columns, r) + (RateRank(columns, r) + [Word(CarrierText(r.carrier))]))
  }

  function Ranks(t: Table): (ranks: seq<seq<Rank>>)
    ensures |ranks| == |t.rows|
  {
    seq(|t.rows|, i requires 0 <= i < |t.rows| => PerformanceRank(t.columns, t.rows[i]))
  }

  /** The grouping columns of the head and the sums (the `head(1)` step onwards). */
  function GroupColumns(t: Table): seq<Column>
  {
    KeepPresent(SELECTOR_COLUMNS, t.columns)
  }

  /** The input positions of the winners, in sorted order. */
  function WinnerPositions(t: Table): (ws: seq<nat>)
    ensures forall k :: 0 <= k < |ws| ==> ws[k] < |t.rows|
  {
    WinnersOf(Keys(t.rows, GroupColumns(t)), SortOrder(Ranks(t)))
  }

  function WinnerRow(t: Table, w: nat): Shipment
    requires w < |t.rows|
  {
    WholeGroup(t.rows[w], SortedGroup(t.rows, Ranks(t), GroupColumns(t), Key(t.rows[w], GroupColumns(t))), t.columns)
  }

  /** The output rows: each winner carrying its whole group. */
  function WinnerRows(t: Table): (rows: seq<Shipment>)
    ensures |rows| == |WinnerPositions(t)|
    ensures forall k :: 0 <= k < |rows| ==> rows[k] == WinnerRow(t, WinnerPositions(t)[k])
  {
    var ws := WinnerPositions(t);
    seq(|ws|, k requires 0 <= k < |ws| => WinnerRow(t, ws[k]))
  }

  /** The message of the ValueError raised for a missing column. */
  function Required(c: Column): string
  {
    "Column '" + Header(c) + "' is required to " +
    match c
    case Performance => "compute the performance allocation."
    case Carrier => "identify carriers for allocation."
    case _ => "sum container totals."
  }

  /** `allocate_to_highest_performance`: an empty table gives an empty
      table with the same columns; a missing performance, carrier or count
      column, or no grouping column, is an error; otherwise one row per
      group, the first after the sort, carrying the whole group. */
  function AllocateToHighestPerformance(t: Table): (r: Result<Scenario>)
    ensures t.rows == [] ==> r == Success(Scenario(Table(t.columns, []), None))
    ensures t.rows != [] && PERFORMANCE !in t.columns ==>
      r == Failure(Required(PERFORMANCE))
    ensures t.rows != [] && PERFORMANCE in t.columns && CARRIER !in t.columns ==>
      r == Failure(Required(CARRIER))
    ensures t.rows != [] && PERFORMANCE in t.columns && CARRIER in t.columns && COUNT !in t.columns ==>
      r == Failure(Required(COUNT))
    ensures t.rows != [] ==>
      (r.Success? <==> PERFORMANCE in t.columns && CARRIER in t.columns && COUNT in t.columns &&
                       exists c :: c in SELECTOR_COLUMNS && c in t.columns)
    ensures t.rows != [] && r.Success? ==>
      r.value == Scenario(Table(t.columns, WinnerRows(t)), Some(STRATEGY))
  {
    if t.rows == [] then Success(Scenario(Table(t.columns, []), None))
    else if PERFORMANCE !in t.columns then
      Failure(Required(PERFORMANCE))
    else if CARRIER !in t.columns then
      Failure(Required(CARRIER))
    else if COUNT !in t.columns then
      Failure(Required(COUNT))
    else
      var cols := PrepareGroupColumns(SELECTOR_COLUMNS, t.columns, []);
      if cols.Failure? then Failure(cols.error)
      else
        Success(Scenario(Table(t.columns, WinnerRows(t)), Some(STRATEGY)))
  }

  /** The grouping call with the carrier as an extra cannot fail
      once the carrier column is known to be present. */
  lemma CarrierExtraAccepted(columns: set<Column>)
    requires CARRIER in columns
    ensures PrepareGroupColumns(SELECTOR_COLUMNS, columns, [CARRIER]).Success?
  {
    assert CARRIER in [CARRIER];
  }

  /** Exactly one row per group: the output rows' keys are complete and
      distinct, and every input row with a complete key has its group in
      the output. */
  lemma OneRowPerGroup(t: Table)
    requires t.rows != [] && AllocateToHighestPerformance(t).Success?
    ensures var out := AllocateToHighestPerformance(t).value.table.rows;
      var cols := GroupColumns(t);
      (forall k :: 0 <= k < |out| ==> KeyComplete(Key(out[k], cols))) &&
      (forall i, j :: 0 <= i < j < |out| ==> Key(out[i], cols) != Key(out[j], cols)) &&
      (forall q :: 0 <= q < |t.rows| && KeyComplete(Key(t.rows[q], cols)) ==>
         exists k :: 0 <= k < |out| && Key(out[k], cols) == Key(t.rows[q], cols))
  {
    var out := AllocateToHighestPerformance(t).value.table.rows;
    var cols := GroupColumns(t);
    var keys := Keys(t.rows, cols);
    var order := SortOrder(Ranks(t));
    var ws := WinnerPositions(t);
    WinnersOnePerGroup(keys, order);
    forall k | 0 <= k < |out| ensures Key(out[k], cols) == keys[ws[k]] {
      WholeGroupKey(t.rows[ws[k]], SortedGroup(t.rows, Ranks(t), cols, keys[ws[k]]), t.columns, cols);
    }
  }

  /** The winner of a group sorts before every other row of its group. */
  lemma WinnerSortsFirst(t: Table, k: nat, j: nat)
    requires k < |WinnerPositions(t)| && j < |t.rows|
    requires Key(t.rows[j], GroupColumns(t)) == Key(t.rows[WinnerPositions(t)[k]], GroupColumns(t))
    ensures var w := WinnerPositions(t)[k];
      var a := PerformanceRank(t.columns, t.rows[w]);
      var b := PerformanceRank(t.columns, t.rows[j]);
      RanksLess(a, b) || (a == b && w <= j)
  {
    var ranks := Ranks(t);
    var order := SortOrder(ranks);
    var keys := Keys(t.rows, GroupColumns(t));
    if j != WinnerPositions(t)[k] {
      WinnerIsBest(keys, order, ByRank(ranks), k, j);
    }
  }

  /** What "sorts first" means: the better performance (a missing score
      counts as the worst), then, on equal scores, the lower total cost,
      then the lower rate, then the carrier name. */
  lemma PerformanceRankMeaning(columns: set<Column>, a: Shipment, b: Shipment)
    requires RanksLess(PerformanceRank(columns, a), PerformanceRank(columns, b)) ||
             PerformanceRank(columns, a) == PerformanceRank(columns, b)
    ensures b.perf.Some? ==> a.perf.Some? && a.perf.value >= b.perf.value
    ensures a.perf == b.perf && TOTAL_RATE in columns && b.totalRate.Some? ==>
      a.totalRate.Some? && a.totalRate.value <= b.totalRate.value
    ensures a.perf == b.perf && TOTAL_RATE !in columns && TOTAL_CPC in columns && b.totalCpc.Some? ==>
      a.totalCpc.Some? && a.totalCpc.value <= b.totalCpc.value
    ensures a.perf == b.perf && CostRank(columns, a) == CostRank(columns, b) && BASE_RATE in columns && b.baseRate.Some? ==>
      a.baseRate.Some? && a.baseRate.value <= b.baseRate.value
  {
    var ca, cb := CostRank(columns, a), CostRank(columns, b);
    var ra, rb := RateRank(columns, a), RateRank(columns, b);
    var wa, wb := [Word(CarrierText(a.carrier))], [Word(CarrierText(b.carrier))];
    NoLater([Descending(a.perf)], ca + (ra + wa), [Descending(b.perf)], cb + (rb + wb));
    DescendingNoLater(a.perf, b.perf);
    if a.perf == b.perf {
      NoLater(ca, ra + wa, cb, rb + wb);
      if TOTAL_RATE in columns {
        AscendingNoLater(a.totalRate, b.totalRate);
      } else if TOTAL_CPC in columns {
        AscendingNoLater(a.totalCpc, b.totalCpc);
      }
      if ca == cb {
        NoLater(ra, wa, rb, wb);
        if BASE_RATE in columns {
          AscendingNoLater(a.baseRate, b.baseRate);
        }
      }
    }
  }

  /** The winner has the best performance score of its group. */
  lemma WinnerHasBestPerformance(t: Table, k: nat, j: nat)
    requires k < |WinnerPositions(t)| && j < |t.rows|
    requires Key(t.rows[j], GroupColumns(t)) == Key(t.rows[WinnerPositions(t)[k]], GroupColumns(t))
    ensures var w := t.rows[WinnerPositions(t)[k]];
      t.rows[j].perf.Some? ==> w.perf.Some? && w.perf.value >= t.rows[j].perf.value
  {
    WinnerSortsFirst(t, k, j);
    PerformanceRankMeaning(t.columns, t.rows[WinnerPositions(t)[k]], t.rows[j]);
  }

  /** The winner's count is its group's summed count when there is no IDs
      column, and otherwise the number of IDs in the group's cells; the
      totals follow the new count. */
  lemma WinnerTakesGroupVolume(t: Table, k: nat)
    requires k < |WinnerRows(t)|
    ensures var out := WinnerRows(t)[k];
      var key := Key(out, GroupColumns(t));
      (IDS !in t.columns ==> out.count == SumCounts(RowsWithKey(t.rows, GroupColumns(t), key))) &&
      (IDS in t.columns ==> out.count == |AllContainerIds(ShipmentIdCells(SortedGroup(t.rows, Ranks(t), GroupColumns(t), key)))|) &&
      (BASE_RATE in t.columns ==> out.totalRate == Some(RateTimes(out.baseRate, out.count))) &&
      (CPC in t.columns ==> out.totalCpc == Some(RateTimes(out.cpc, out.count)))
  {
    var cols := GroupColumns(t);
    var w := WinnerPositions(t)[k];
    var key := Key(t.rows[w], cols);
    WholeGroupKey(t.rows[w], SortedGroup(t.rows, Ranks(t), cols, key), t.columns, cols);
    SortedGroupMultiset(t.rows, Ranks(t), cols, key);
  }
}
