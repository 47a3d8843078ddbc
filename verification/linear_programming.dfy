/** optimization/linear_programming.py: the weighted cost/performance
    allocation. Each group of the table is handed to a linear program that
    splits the group's containers among its carriers; this module models
    everything around the solver: the grouping columns, the min-max
    normalisation of the objective's inputs, the weight handling, and what
    `_optimize_single_group` makes of the solver's answer (rounding,
    dropping small shares, handing out the container IDs, recounting). The
    solver itself is an input: for each group, either no optimal solution
    or an allocation per carrier. */
module LinearProgramming {
  import opened Wrappers
  import opened Seqs
  import opened Text
  import opened Frame
  import opened Groups
  import opened Utils
  import opened PyMath
  import opened Selection
  import CascadeGroup

  // ---------------------------------------------------------------------
  // Grouping columns
  // ---------------------------------------------------------------------

  /** `DEFAULT_GROUP_COLUMNS` of the module. */
  const LP_COLUMNS: seq<Column> := [PORT, CATEGORY, SSL, LANE, FACILITY, TERMINAL, WEEK]

  /** `_prepare_group_columns`: the default grouping columns present in the
      table, in their default order; an error when there is none. */
  function PrepareLpGroupColumns(present: set<Column>): (r: Result<seq<Column>>)
    ensures r.Success? <==> exists c :: c in LP_COLUMNS && c in present
    ensures r.Success? ==> r.value == KeepPresent(LP_COLUMNS, present)
    ensures r.Success? ==> forall c :: c in r.value <==> c in LP_COLUMNS && c in present
    ensures r.Failure? ==> r.error == "Data must include at least one of the grouping columns: " + Join(", ", Headers(LP_COLUMNS))
  {
    PrepareGroupColumns(LP_COLUMNS, present, [])
  }

  // ---------------------------------------------------------------------
  // Min-max normalisation
  // ---------------------------------------------------------------------

  /** `values.min()` of a non-empty series. */
  function Lowest(xs: seq<real>): (m: real)
    requires |xs| > 0
    ensures m in xs && forall i :: 0 <= i < |xs| ==> m <= xs[i]
  {
    if |xs| == 1 then xs[0]
    else
      var p := xs[..|xs| - 1];
      assert forall i :: 0 <= i < |p| ==> p[i] == xs[i];
      MinR(Lowest(p), xs[|xs| - 1])
  }

  /** `values.max()` of a non-empty series. */
  function Highest(xs: seq<real>): (m: real)
    requires |xs| > 0
    ensures m in xs && forall i :: 0 <= i < |xs| ==> xs[i] <= m
  {
    if |xs| == 1 then xs[0]
    else
      var p := xs[..|xs| - 1];
      assert forall i :: 0 <= i < |p| ==> p[i] == xs[i];
      MaxR(Highest(p), xs[|xs| - 1])
  }

  /** Where `x` lies between `lo` and `hi`: `(x - lo) / (hi - lo)`. */
  function Fraction(x: real, lo: real, hi: real): (f: real)
    requires lo < hi
    ensures f * (hi - lo) == x - lo
    ensures lo <= x <= hi ==> 0.0 <= f <= 1.0
    ensures x == lo ==> f == 0.0
    ensures x == hi ==> f == 1.0
  {
    FractionBounds(x, lo, hi);
    (x - lo) / (hi - lo)
  }

  lemma FractionBounds(x: real, lo: real, hi: real)
    requires lo < hi
    ensures (x - lo) / (hi - lo) * (hi - lo) == x - lo
    ensures lo <= x <= hi ==> 0.0 <= (x - lo) / (hi - lo) <= 1.0
    ensures x == lo ==> (x - lo) / (hi - lo) == 0.0
    ensures x == hi ==> (x - lo) / (hi - lo) == 1.0
  {
    if lo <= x <= hi {
      QuotientWithin(x - lo, hi - lo, 0.0, 1.0);
    }
    if x == lo {
      QuotientWithin(x - lo, hi - lo, 0.0, 0.0);
    }
    if x == hi {
      QuotientWithin(x - lo, hi - lo, 1.0, 1.0);
    }
  }

  /** The fraction grows strictly with the value. */
  lemma FractionGrows(x: real, y: real, lo: real, hi: real)
    requires lo < hi && x < y
    ensures Fraction(x, lo, hi) < Fraction(y, lo, hi)
  {
    DivideStrict(x - lo, y - lo, hi - lo);
  }

  /** One value rescaled: its fraction, or one minus that when higher
      values are better. */
  function Rescaled(x: real, lo: real, hi: real, lowerIsBetter: bool): real
    requires lo < hi
  {
    var n := Fraction(x, lo, hi);
    if lowerIsBetter then n else 1.0 - n
  }

  /** `_normalize_values`: every value mapped into [0, 1], the lowest to 0
      and the highest to 1 (the other way round when higher is better),
      and 0.5 everywhere when all values are equal. */
  function Normalize(xs: seq<real>, lowerIsBetter: bool): (ys: seq<real>)
    ensures |ys| == |xs|
    ensures forall i :: 0 <= i < |xs| ==> 0.0 <= ys[i] <= 1.0
    ensures |xs| > 0 && Lowest(xs) == Highest(xs) ==> forall i :: 0 <= i < |xs| ==> ys[i] == 0.5
    ensures |xs| > 0 && Lowest(xs) < Highest(xs) ==> forall i :: 0 <= i < |xs| ==>
      ys[i] == Rescaled(xs[i], Lowest(xs), Highest(xs), lowerIsBetter) &&
      (xs[i] == Lowest(xs) ==> ys[i] == if lowerIsBetter then 0.0 else 1.0) &&
      (xs[i] == Highest(xs) ==> ys[i] == if lowerIsBetter then 1.0 else 0.0)
  {
    if |xs| == 0 then []
    else
      var lo, hi := Lowest(xs), Highest(xs);
      if lo == hi then seq(|xs|, i => 0.5)
      else seq(|xs|, i requires 0 <= i < |xs| => Rescaled(xs[i], lo, hi, lowerIsBetter))
  }

  /** Normalising keeps the order of the values (reverses it when higher is
      better): a value is strictly lower than another exactly when its
      normalised value is strictly lower (higher). */
  lemma NormalizeKeepsOrder(xs: seq<real>, lowerIsBetter: bool, i: nat, j: nat)
    requires i < |xs| && j < |xs| && Lowest(xs) < Highest(xs)
    ensures var ys := Normalize(xs, lowerIsBetter);
      xs[i] < xs[j] <==> if lowerIsBetter then ys[i] < ys[j] else ys[i] > ys[j]
  {
    RescaledOrder(xs[i], xs[j], Lowest(xs), Highest(xs), lowerIsBetter);
  }

  /** Rescaling keeps (or reverses) the strict order of two values. */
  lemma RescaledOrder(x: real, y: real, lo: real, hi: real, lowerIsBetter: bool)
    requires lo < hi
    ensures var a, b := Rescaled(x, lo, hi, lowerIsBetter), Rescaled(y, lo, hi, lowerIsBetter);
      x < y <==> if lowerIsBetter then a < b else a > b
  {
    if x < y {
      FractionGrows(x, y, lo, hi);
    } else if y < x {
      FractionGrows(y, x, lo, hi);
    }
  }

  // ---------------------------------------------------------------------
  // Weights
  // ---------------------------------------------------------------------

  /** The cost and performance weights of the objective. */
  datatype Weights = Weights(cost: real, perf: real)

  /** The weight check of `optimize_carrier_allocation`: weights adding up to
      zero are an error; otherwise both
      are divided by their sum, so that they add up to one and keep their
      ratio. */
  function Weigh(cost: real, perf: real): (r: Result<Weights>)
    ensures r.Failure? <==> cost + perf == 0.0
    ensures r.Failure? ==> r.error == "At least one weight must be non-zero"
    ensures r.Success? ==> r.value.cost + r.value.perf == 1.0
    ensures r.Success? ==> r.value.cost * perf == r.value.perf * cost
  {
    var total := cost + perf;
    if total == 0.0 then Failure("At least one weight must be non-zero")
    else
      assert cost / total + perf / total == total / total;
      Success(Weights(cost / total, perf / total))
  }

  /** Without a performance column a positive performance
      weight is dropped and the cost weight becomes one. */
  function CostOnly(w: Weights, hasPerformance: bool): (w': Weights)
    ensures hasPerformance ==> w' == w
    ensures !hasPerformance && w.perf >= 0.0 && w.cost + w.perf == 1.0 ==> w' == Weights(1.0, 0.0)
    ensures w.cost + w.perf == 1.0 ==> w'.cost + w'.perf == 1.0
  {
    if !hasPerformance && w.perf > 0.0 then Weights(1.0, 0.0) else w
  }

  /** Weights as the objective uses them: they always add up to one, and
      without a performance column (and no negative weight) only cost
      counts. */
  lemma WeightsAddUpToOne(cost: real, perf: real, hasPerformance: bool)
    requires Weigh(cost, perf).Success?
    ensures var w := CostOnly(Weigh(cost, perf).value, hasPerformance);
      w.cost + w.perf == 1.0 &&
      (!hasPerformance && cost >= 0.0 && perf >= 0.0 ==> w == Weights(1.0, 0.0)) &&
      (hasPerformance && cost >= 0.0 && perf >= 0.0 ==> 0.0 <= w.cost <= 1.0 && 0.0 <= w.perf <= 1.0)
  {
    var total := cost + perf;
    var w := Weigh(cost, perf).value;
    if cost >= 0.0 && perf >= 0.0 {
      assert total > 0.0;
      assert w.perf == perf / total;
      DivideBounds(0.0, perf, total, total);
      DivideBounds(0.0, cost, total, total);
      assert total / total == 1.0;
    }
  }

  // ---------------------------------------------------------------------
  // Required columns
  // ---------------------------------------------------------------------

  /** The carrier, count and rate columns the allocation needs. */
  const REQUIRED: seq<Column> := [CARRIER, COUNT, BASE_RATE]

  /** The required columns absent from the table, in order. */
  function MissingColumns(present: set<Column>): (ms: seq<Column>)
    ensures forall c :: c in ms <==> c in REQUIRED && c !in present
    ensures |ms| <= |REQUIRED|
  {
    Filter(REQUIRED, c => c !in present)
  }

  /** Python's `repr` of a list of column names. */
  function ListRepr(cols: seq<Column>): string
  {
    "[" + Join(", ", seq(|cols|, i requires 0 <= i < |cols| => "'" + Header(cols[i]) + "'")) + "]"
  }

  // ---------------------------------------------------------------------
  // The working table
  // ---------------------------------------------------------------------

  /** `clip(0, 1)`. */
  function Clip01(x: real): (y: real)
    ensures 0.0 <= y <= 1.0
    ensures 0.0 <= x <= 1.0 ==> y == x
  {
    if x < 0.0 then 0.0 else if x > 1.0 then 1.0 else x
  }

  /** The numeric clean-up before grouping: a NaN rate becomes 0, a performance
      score NaN becomes 0
      and is clipped to [0, 1], a NaN IDs cell becomes "". */
  function WorkingRow(present: set<Column>, r: Shipment): (w: Shipment)
    ensures SameKeyCells(w, r) && w.count == r.count
    ensures w.baseRate == Some(r.baseRate.GetOr(0.0))
    ensures IDS in present ==> w.ids.Some? && ParseContainerIds(w.ids) == ParseContainerIds(r.ids)
    ensures PERFORMANCE in present ==> w.perf.Some? && 0.0 <= w.perf.value <= 1.0
  {
    r.(baseRate := Some(r.baseRate.GetOr(0.0)),
       perf := if PERFORMANCE in present then Some(Clip01(r.perf.GetOr(0.0))) else r.perf,
       ids := if IDS in present then Some(r.ids.GetOr("")) else r.ids)
  }

  /** The working copy of the table's rows. */
  function Working(t: Table): (rows: seq<Shipment>)
    ensures |rows| == |t.rows|
    ensures forall i :: 0 <= i < |rows| ==> rows[i] == WorkingRow(t.columns, t.rows[i])
  {
    seq(|t.rows|, i requires 0 <= i < |t.rows| => WorkingRow(t.columns, t.rows[i]))
  }
  // ---------------------------------------------------------------------
  // One group: the IDs, the total and the carriers
  // ---------------------------------------------------------------------

  /** The solver's answer for one group: no optimal solution, or the value
      of each carrier's allocation variable. */
  datatype LpSolution = NotOptimal | Optimal(alloc: Option<string> -> real)

  /** The container IDs of the group, cell after cell: none
      when the table has no IDs column. */
  function GroupIds(group: seq<Shipment>, present: set<Column>): (ids: seq<string>)
    ensures forall k :: 0 <= k < |ids| ==> WellFormedId(ids[k])
  {
    if IDS in present then AllContainerIds(ShipmentIdCells(group)) else []
  }

  /** The loop collecting the group's IDs. */
  method CollectIds(group: seq<Shipment>, present: set<Column>) returns (ids: seq<string>)
    ensures ids == GroupIds(group, present)
  {
    ids := [];
    if IDS in present {
      var i := 0;
      while i < |group|
        invariant 0 <= i <= |group|
        invariant ids == AllContainerIds(ShipmentIdCells(group[..i]))
      {
        var cells := ShipmentIdCells(group[..i + 1]);
        assert cells[..i] == ShipmentIdCells(group[..i]);
        AllContainerIdsSnoc(cells);
        ids := ids + ParseContainerIds(group[i].ids);
        i := i + 1;
      }
      assert group[..i] == group;
    }
  }

  /** The group total of `_optimize_single_group`: the summed count, replaced
      by the number of IDs
      when the group has any. */
  function GroupTotal(group: seq<Shipment>, pool: seq<string>): (total: int)
    ensures |pool| > 0 ==> total == |pool|
    ensures |pool| == 0 ==> total == SumCounts(group)
  {
    if |pool| > 0 then |pool| else SumCounts(group)
  }

  /** `group_data[carrier_column].unique()`: the group's carriers in order
      of first appearance (a NaN carrier counted once). */
  function Carriers(group: seq<Shipment>): (cs: seq<Option<string>>)
    ensures NoDup(cs)
    ensures forall c :: c in cs <==> exists k :: 0 <= k < |group| && group[k].carrier == c
    ensures |group| > 0 ==> |cs| > 0
    ensures forall c :: c in cs ==> c in CascadeGroup.CarrierData(group)
  {
    var all := CascadeGroup.CarriersOf(group);
    DedupeSameElements(all);
    CascadeGroup.CarrierDataDomain(group);
    if |group| > 0 then assert all[0] in Dedupe(all); Dedupe(all)
    else Dedupe(all)
  }

  /** A carrier's rate as `carrier_data` records it (a NaN rate read as 0,
      as in the working table). */
  function RateOf(r: Shipment): real
  {
    r.baseRate.GetOr(0.0)
  }

  /** The rates of the carriers, in carrier order. */
  function Rates(cs: seq<Option<string>>, data: map<Option<string>, Shipment>): (rs: seq<real>)
    requires forall c :: c in cs ==> c in data
    ensures |rs| == |cs| && forall k :: 0 <= k < |cs| ==> rs[k] == RateOf(data[cs[k]])
  {
    seq(|cs|, k requires 0 <= k < |cs| => RateOf(data[cs[k]]))
  }

  /** Python's `min` over positions: the first position of least value. */
  function ArgMin(xs: seq<real>): (m: nat)
    requires |xs| > 0
    ensures m < |xs|
    ensures forall i :: 0 <= i < |xs| ==> xs[m] <= xs[i]
    ensures forall i :: 0 <= i < m ==> xs[m] < xs[i]
  {
    if |xs| == 1 then 0
    else
      var b := ArgMin(xs[..|xs| - 1]);
      if xs[|xs| - 1] < xs[b] then |xs| - 1 else b
  }

  /** `min(carriers, key=rate)`: the first carrier of least rate. */
  function Cheapest(cs: seq<Option<string>>, data: map<Option<string>, Shipment>): (c: Option<string>)
    requires |cs| > 0 && forall c :: c in cs ==> c in data
    ensures c in cs
    ensures forall k :: 0 <= k < |cs| ==> RateOf(data[c]) <= RateOf(data[cs[k]])
  {
    cs[ArgMin(Rates(cs, data))]
  }

  // ---------------------------------------------------------------------
  // The rows of one group
  // ---------------------------------------------------------------------

  /** `", ".join(...)` of the group's non-blank IDs cells, when the table
      has an IDs column; otherwise the row's own. */
  function JoinedIds(group: seq<Shipment>, present: set<Column>, own: Option<string>): Option<string>
  {
    if IDS in present then Some(JoinCells(ShipmentIdCells(group))) else own
  }

  /** The single-carrier shortcut: a group with one carrier keeps its first
      row, with the
      whole total, all the IDs cells joined, and the rate times the total. */
  function WholeGroupRow(group: seq<Shipment>, present: set<Column>, total: int): (r: Shipment)
    requires |group| > 0
  {
    group[0].(count := total, ids := JoinedIds(group, present, group[0].ids),
              totalRate := Some(RateOf(group[0]) * total as real))
  }

  /** The fallback of `_optimize_single_group`: without an optimal solution,
      the first row of the
      cheapest carrier takes the whole total, all the IDs cells joined and
      the carrier's rate times the total; there is no such row when the
      cheapest carrier is NaN (NaN equals nothing). */
  function FallbackRows(group: seq<Shipment>, present: set<Column>, cheapest: Option<string>, rate: real, total: int)
    : (rows: seq<Shipment>)
    ensures |rows| <= 1
  {
    var own := Filter(group, (r: Shipment) => cheapest.Some? && r.carrier == cheapest);
    if |own| == 0 then []
    else [own[0].(count := total, ids := JoinedIds(group, present, own[0].ids),
                  totalRate := Some(rate * total as real))]
  }

  /** A carrier and the containers the solver gives it. */
  datatype Share = Share(carrier: Option<string>, amount: real)

  /** `significant_allocations`: the carriers given at least half a container, in
      carrier order. */
  function Significant(cs: seq<Option<string>>, alloc: Option<string> -> real): (ss: seq<Share>)
    ensures |ss| <= |cs|
    ensures forall k :: 0 <= k < |ss| ==>
      ss[k].carrier in cs && ss[k].amount == alloc(ss[k].carrier) && ss[k].amount >= 0.5
    ensures forall c :: c in cs && alloc(c) >= 0.5 ==> Share(c, alloc(c)) in ss
  {
    if |cs| == 0 then []
    else
      var p := cs[..|cs| - 1];
      var c := cs[|cs| - 1];
      assert forall x :: x in cs <==> x in p || x == c;
      Significant(p, alloc) + if alloc(c) >= 0.5 then [Share(c, alloc(c))] else []
  }

  /** The shares rows are built from: the significant shares, or the cheapest
      carrier with
      the whole total when there is none. */
  function Shares(cs: seq<Option<string>>, alloc: Option<string> -> real, cheapest: Option<string>, total: int)
    : (ss: seq<Share>)
    ensures |ss| > 0
    ensures forall k :: 0 <= k < |ss| ==> ss[k].carrier in cs || ss[k].carrier == cheapest
  {
    var sig := Significant(cs, alloc);
    if |sig| == 0 then [Share(cheapest, total as real)] else sig
  }

  /** The rows built so far and what is left of the IDs. */
  datatype Handout = Handout(rows: seq<Shipment>, left: seq<string>)

  /** The row of a share: a copy of the carrier's last row of the group with the
      rounded count and the rate times that count. */
  function ShareRow(base: Shipment, n: int): Shipment
  {
    base.(count := n, totalRate := Some(RateOf(base) * n as real))
  }

  /** One turn of the loop over `significant_allocations`: the share is rounded
      half to
      even; a zero count makes no row; otherwise the carrier's row gets the
      count and, while IDs are left, the next `min(count, left)` of them. */
  function HandStep(h: Handout, s: Share, data: map<Option<string>, Shipment>): Handout
    requires s.carrier in data
  {
    var n := RoundHalfEven(s.amount);
    if n == 0 then h
    else
      var row := ShareRow(data[s.carrier], n);
      if |h.left| > 0 then
        var k := MinI(n, |h.left|);
        Handout(h.rows + [row.(ids := Some(Join(", ", PyTake(h.left, k))))], PyDrop(h.left, k))
      else Handout(h.rows + [row], h.left)
  }

  /** Every share's carrier has an entry in `carrier_data`. */
  predicate SharesInData(ss: seq<Share>, data: map<Option<string>, Shipment>)
  {
    forall k :: 0 <= k < |ss| ==> ss[k].carrier in data
  }

  /** The loop over the first `n` shares, starting from all the IDs. */
  function HandOut(ss: seq<Share>, data: map<Option<string>, Shipment>, pool: seq<string>, n: nat): Handout
    requires n <= |ss| && SharesInData(ss, data)
  {
    if n == 0 then Handout([], pool)
    else HandStep(HandOut(ss, data, pool, n - 1), ss[n - 1], data)
  }

  /** The loop over `significant_allocations`. */
  method HandOutRows(ss: seq<Share>, data: map<Option<string>, Shipment>, pool: seq<string>)
    returns (rows: seq<Shipment>, left: seq<string>)
    requires SharesInData(ss, data)
    ensures Handout(rows, left) == HandOut(ss, data, pool, |ss|)
  {
    rows, left := [], pool;
    var i := 0;
    while i < |ss|
      invariant 0 <= i <= |ss|
      invariant Handout(rows, left) == HandOut(ss, data, pool, i)
    {
      assert HandOut(ss, data, pool, i + 1) == HandStep(HandOut(ss, data, pool, i), ss[i], data);
      var n := RoundHalfEven(ss[i].amount);
      if n != 0 {
        var row := ShareRow(data[ss[i].carrier], n);
        if |left| > 0 {
          var k := MinI(n, |left|);
          row := row.(ids := Some(Join(", ", PyTake(left, k))));
          left := PyDrop(left, k);
        }
        rows := rows + [row];
      }
      i := i + 1;
    }
  }

  /** A separator character of `.strip(", ")`. */
  predicate IsSeparator(c: char)
  {
    c == ',' || c == ' '
  }

  /** `s.strip(", ")`: the longest infix that neither starts nor ends with
      a comma or a blank. */
  function StripSeparators(s: string): (r: string)
    ensures |r| <= |s|
    ensures |s| > 0 && !IsSeparator(s[0]) && !IsSeparator(s[|s| - 1]) ==> r == s
  {
    if |s| > 0 && IsSeparator(s[0]) then StripSeparators(s[1..])
    else if |s| > 0 && IsSeparator(s[|s| - 1]) then StripSeparators(s[..|s| - 1])
    else s
  }

  /** The leftover step: the IDs left after the loop are appended to the first
      row's IDs. */
  function AddLeftover(rows: seq<Shipment>, left: seq<string>): (rows': seq<Shipment>)
    ensures |rows'| == |rows|
    ensures forall k :: 0 < k < |rows| ==> rows'[k] == rows[k]
    ensures forall k :: 0 <= k < |rows| ==> rows'[k] == rows[k].(ids := rows'[k].ids)
  {
    if |left| > 0 && |rows| > 0 then
      rows[0 := rows[0].(ids := Some(StripSeparators(rows[0].ids.GetOr("") + ", " + Join(", ", left))))]
    else rows
  }

  /** The recount step: the count recounted from the row's IDs, and the totals
      recomputed from it. */
  function RecountRow(r: Shipment, present: set<Column>): (r': Shipment)
    ensures r'.count == |ParseContainerIds(r.ids)|
  {
    var n := CountContainers(r.ids);
    r.(count := n,
       totalRate := if BASE_RATE in present then CascadeGroup.Times(r.baseRate, n) else r.totalRate,
       totalCpc := if CPC in present then CascadeGroup.Times(r.cpc, n) else r.totalCpc)
  }

  /** The recount, applied when the table has an IDs column. */
  function Recount(rows: seq<Shipment>, present: set<Column>): (rows': seq<Shipment>)
    ensures |rows'| == |rows|
    ensures forall k :: 0 <= k < |rows| ==> rows'[k] == if IDS in present then RecountRow(rows[k], present) else rows[k]
  {
    if IDS in present then seq(|rows|, k requires 0 <= k < |rows| => RecountRow(rows[k], present)) else rows
  }

  /** The rows the solver's allocation gives, before the
      empty check. */
  function AllocatedRows(present: set<Column>, ss: seq<Share>, data: map<Option<string>, Shipment>, pool: seq<string>)
    : seq<Shipment>
    requires SharesInData(ss, data)
  {
    var h := HandOut(ss, data, pool, |ss|);
    Recount(AddLeftover(h.rows, h.left), present)
  }

  /** `_optimize_single_group`: nothing for an empty group or a zero total;
      one row for a single carrier or when the solver fails; otherwise the
      rows of the significant (or cheapest) carriers, nothing when there is
      none. */
  function SingleGroup(group: seq<Shipment>, present: set<Column>, sol: LpSolution): Option<seq<Shipment>>
  {
    if |group| == 0 || SumCounts(group) == 0 then None
    else
      var cs := Carriers(group);
      var total := GroupTotal(group, GroupIds(group, present));
      if |cs| == 1 then Some([WholeGroupRow(group, present, total)])
      else
        var data := CascadeGroup.CarrierData(group);
        var cheapest := Cheapest(cs, data);
        match sol
        case NotOptimal => Some(FallbackRows(group, present, cheapest, RateOf(data[cheapest]), total))
        case Optimal(alloc) =>
          var ss := Shares(cs, alloc, cheapest, total);
          var rows := AllocatedRows(present, ss, data, GroupIds(group, present));
          if |rows| == 0 then None else Some(rows)
  }

  /** `_optimize_single_group`, step by step. */
  method OptimizeSingleGroup(group: seq<Shipment>, present: set<Column>, sol: LpSolution)
    returns (result: Option<seq<Shipment>>)
    ensures result == SingleGroup(group, present, sol)
  {
    if |group| == 0 {
      return None;
    }
    var total := SumCounts(group);
    if total == 0 {
      return None;
    }
    var carriers := Carriers(group);
    var pool := CollectIds(group, present);
    if |pool| > 0 && |pool| != total {
      total := |pool|;
    }
    assert total == GroupTotal(group, pool);
    if |carriers| == 1 {
      return Some([WholeGroupRow(group, present, total)]);
    }
    var data := CascadeGroup.CarrierData(group);
    var cheapest := Cheapest(carriers, data);
    match sol {
      case NotOptimal =>
        return Some(FallbackRows(group, present, cheapest, RateOf(data[cheapest]), total));
      case Optimal(alloc) =>
        var ss := Shares(carriers, alloc, cheapest, total);
        assert forall k :: 0 <= k < |ss| ==> ss[k].carrier in carriers;
        result := OptimalRows(present, ss, data, pool);
    }
  }

  /** The optimal branch of `_optimize_single_group`: the shares' rows with
      the pool's IDs handed out, the leftover added and the counts
      recounted; nothing when no share makes a row. */
  method OptimalRows(present: set<Column>, ss: seq<Share>, data: map<Option<string>, Shipment>, pool: seq<string>)
    returns (result: Option<seq<Shipment>>)
    requires SharesInData(ss, data)
    ensures result.Some? <==> |AllocatedRows(present, ss, data, pool)| > 0
    ensures result.Some? ==> result.value == AllocatedRows(present, ss, data, pool)
  {
    var rows, left := HandOutRows(ss, data, pool);
    rows := AddLeftover(rows, left);
    if |rows| == 0 {
      return None;
    }
    return Some(Recount(rows, present));
  }
  // ---------------------------------------------------------------------
  // What the row loop makes of the shares
  // ---------------------------------------------------------------------

  /** A share makes a row when its rounded count is not zero. */
  predicate MakesRow(s: Share)
  {
    RoundHalfEven(s.amount) != 0
  }

  /** The shares that make a row, in order. */
  function Kept(ss: seq<Share>): (ks: seq<Share>)
    ensures |ks| <= |ss|
    ensures forall s :: s in ks <==> s in ss && MakesRow(s)
  {
    Filter(ss, MakesRow)
  }

  /** Row `r` is the share's carrier's row with the rounded count and the
      rate times that count; only its IDs may differ. */
  predicate RowOfShare(r: Shipment, s: Share, data: map<Option<string>, Shipment>)
    requires s.carrier in data
  {
    var base := data[s.carrier];
    r.(ids := base.ids) == ShareRow(base, RoundHalfEven(s.amount))
  }

  /** Each row is the row of the share at the same place. */
  predicate Follows(rows: seq<Shipment>, ks: seq<Share>, data: map<Option<string>, Shipment>)
  {
    |rows| == |ks| && forall k :: 0 <= k < |ks| ==> ks[k].carrier in data && RowOfShare(rows[k], ks[k], data)
  }

  lemma FollowsStep(h: Handout, s: Share, data: map<Option<string>, Shipment>, ks: seq<Share>)
    requires s.carrier in data && Follows(h.rows, ks, data)
    ensures Follows(HandStep(h, s, data).rows, ks + if MakesRow(s) then [s] else [], data)
  {
    var ks' := ks + if MakesRow(s) then [s] else [];
    assert forall k :: 0 <= k < |ks| ==> ks'[k] == ks[k];
  }

  /** The loop makes one row per share that makes a row, in order: a copy
      of the carrier's row with the rounded count. */
  lemma {:induction false} HandOutFollowsShares(ss: seq<Share>, data: map<Option<string>, Shipment>, pool: seq<string>, n: nat)
    requires n <= |ss| && SharesInData(ss, data)
    ensures Follows(HandOut(ss, data, pool, n).rows, Kept(ss[..n]), data)
  {
    if n > 0 {
      HandOutFollowsShares(ss, data, pool, n - 1);
      assert ss[..n][..n - 1] == ss[..n - 1];
      FilterSnoc(ss[..n], MakesRow);
      FollowsStep(HandOut(ss, data, pool, n - 1), ss[n - 1], data, Kept(ss[..n - 1]));
    }
  }

  /** The IDs of the rows, row after row. */
  function RowIds(rows: seq<Shipment>): seq<string>
  {
    AllContainerIds(ShipmentIdCells(rows))
  }

  lemma RowIdsSnoc(rows: seq<Shipment>, r: Shipment)
    ensures RowIds(rows + [r]) == RowIds(rows) + ParseContainerIds(r.ids)
  {
    var cells := ShipmentIdCells(rows + [r]);
    assert cells[..|rows|] == ShipmentIdCells(rows);
    AllContainerIdsSnoc(cells);
  }

  lemma AllContainerIdsHead(values: seq<Option<string>>)
    requires |values| > 0
    ensures AllContainerIds(values) == ParseContainerIds(values[0]) + AllContainerIds(values[1..])
  {
    AllContainerIdsFlatten(values);
    AllContainerIdsFlatten(values[1..]);
    CellIdsHead(values);
  }

  lemma CellIdsHead(values: seq<Option<string>>)
    requires |values| > 0
    ensures Flatten(CellIds(values)) == ParseContainerIds(values[0]) + Flatten(CellIds(values[1..]))
  {
    FlattenHead(CellIds(values));
    CellIdsTail(values);
  }

  lemma CellIdsTail(values: seq<Option<string>>)
    requires |values| > 0
    ensures CellIds(values)[1..] == CellIds(values[1..])
    ensures CellIds(values)[0] == ParseContainerIds(values[0])
  {
    MapSlice(values, ParseContainerIds, 1, |values|);
    assert values[1..|values|] == values[1..];
  }

  /** The IDs of the rows are the first row's followed by the others'. */
  lemma RowIdsHead(rows: seq<Shipment>)
    requires |rows| > 0
    ensures RowIds(rows) == ParseContainerIds(rows[0].ids) + RowIds(rows[1..])
  {
    AllContainerIdsHead(ShipmentIdCells(rows));
    assert ShipmentIdCells(rows)[1..] == ShipmentIdCells(rows[1..]);
  }

  /** The rounded counts of the shares, added up. */
  function SumRounded(ss: seq<Share>): int
  {
    if |ss| == 0 then 0 else SumRounded(ss[..|ss| - 1]) + RoundHalfEven(ss[|ss| - 1].amount)
  }

  /** Every share is at least zero (the solver's variables are bounded
      below by zero). */
  predicate NonNegative(ss: seq<Share>)
  {
    forall k :: 0 <= k < |ss| ==> ss[k].amount >= 0.0
  }

  /** The state of the loop while the pool lasts: the rows' IDs followed by
      what is left are the pool, every row holds as many IDs as its count,
      and the first row holds the pool's first IDs. */
  predicate InOrder(h: Handout, pool: seq<string>)
  {
    RowIds(h.rows) + h.left == pool && CountsMatchIds(h.rows) &&
    (|h.rows| > 0 ==> h.rows[0].count <= |pool| && h.rows[0].ids == Some(Join(", ", pool[..h.rows[0].count])))
  }

  /** Every row holds as many IDs as its (positive) count. */
  predicate CountsMatchIds(rows: seq<Shipment>)
  {
    forall k :: 0 <= k < |rows| ==> rows[k].count > 0 && |ParseContainerIds(rows[k].ids)| == rows[k].count
  }

  lemma TakeIds(left: seq<string>, row: Shipment, m: int)
    requires AllWellFormed(left) && 0 < m <= |left|
    requires row.ids == Some(Join(", ", left[..m]))
    ensures ParseContainerIds(row.ids) == left[..m]
  {
    var taken := left[..m];
    assert forall k :: 0 <= k < |taken| ==> taken[k] == left[k];
    ParseJoined(taken);
  }

  lemma TakeOrder(rows: seq<Shipment>, left: seq<string>, row: Shipment, m: int, pool: seq<string>)
    requires RowIds(rows) + left == pool && 0 <= m <= |left| && ParseContainerIds(row.ids) == left[..m]
    ensures RowIds(rows + [row]) + left[m..] == pool
  {
    RowIdsSnoc(rows, row);
    PrefixThenRest(RowIds(rows), left, m);
  }

  lemma TakeCounts(rows: seq<Shipment>, row: Shipment)
    requires CountsMatchIds(rows) && row.count > 0 && |ParseContainerIds(row.ids)| == row.count
    ensures CountsMatchIds(rows + [row])
  {
    var rows' := rows + [row];
    forall k | 0 <= k < |rows'| ensures rows'[k].count > 0 && |ParseContainerIds(rows'[k].ids)| == rows'[k].count {
      if k < |rows| {
        assert rows'[k] == rows[k];
      } else {
        assert rows'[k] == row;
      }
    }
  }

  /** A row that takes the next `m` IDs keeps `InOrder`. */
  lemma TakeInOrder(h: Handout, row: Shipment, m: int, pool: seq<string>)
    requires AllWellFormed(pool) && InOrder(h, pool)
    requires 0 < m <= |h.left| && row.count == m && row.ids == Some(Join(", ", h.left[..m]))
    ensures InOrder(Handout(h.rows + [row], h.left[m..]), pool)
  {
    AllWellFormedAppend(RowIds(h.rows), h.left);
    TakeIds(h.left, row, m);
    TakeOrder(h.rows, h.left, row, m, pool);
    TakeCounts(h.rows, row);
    var rows' := h.rows + [row];
    if |h.rows| == 0 {
      assert RowIds(h.rows) == [] && h.left == pool;
    } else {
      assert rows'[0] == h.rows[0];
    }
  }

  lemma HandStepInOrder(h: Handout, s: Share, data: map<Option<string>, Shipment>, pool: seq<string>)
    requires s.carrier in data && AllWellFormed(pool) && InOrder(h, pool)
    requires 0 <= RoundHalfEven(s.amount) <= |h.left|
    ensures InOrder(HandStep(h, s, data), pool)
    ensures |HandStep(h, s, data).left| == |h.left| - RoundHalfEven(s.amount)
  {
    var m := RoundHalfEven(s.amount);
    if m != 0 {
      HandStepTakes(h, s, data);
      TakeInOrder(h, ShareRow(data[s.carrier], m).(ids := Some(Join(", ", h.left[..m]))), m, pool);
    }
  }

  /** A share whose rounded count the pool covers takes that many IDs. */
  lemma HandStepTakes(h: Handout, s: Share, data: map<Option<string>, Shipment>)
    requires s.carrier in data && 0 < RoundHalfEven(s.amount) <= |h.left|
    ensures var m := RoundHalfEven(s.amount);
      HandStep(h, s, data) ==
        Handout(h.rows + [ShareRow(data[s.carrier], m).(ids := Some(Join(", ", h.left[..m])))], h.left[m..])
  {
    var m := RoundHalfEven(s.amount);
    assert PyTake(h.left, MinI(m, |h.left|)) == h.left[..m];
    assert PyDrop(h.left, MinI(m, |h.left|)) == h.left[m..];
  }

  /** While the rounded counts stay within the pool, the loop keeps
      `InOrder`, and what is left is the pool less the counts. */
  lemma {:induction false} HandOutInOrder(ss: seq<Share>, data: map<Option<string>, Shipment>, pool: seq<string>, n: nat)
    requires n <= |ss| && SharesInData(ss, data) && NonNegative(ss)
    requires AllWellFormed(pool) && SumRounded(ss[..n]) <= |pool|
    ensures InOrder(HandOut(ss, data, pool, n), pool)
    ensures |HandOut(ss, data, pool, n).left| == |pool| - SumRounded(ss[..n])
  {
    if n == 0 {
      assert RowIds([]) == [];
    } else {
      assert ss[..n][..n - 1] == ss[..n - 1];
      var m := RoundHalfEven(ss[n - 1].amount);
      assert SumRounded(ss[..n]) == SumRounded(ss[..n - 1]) + m;
      assert m >= 0;
      HandOutInOrder(ss, data, pool, n - 1);
      HandStepInOrder(HandOut(ss, data, pool, n - 1), ss[n - 1], data, pool);
    }
  }

  /** Joining well-formed IDs starts with the first ID's first character
      and ends with the last ID's last character. */
  lemma {:induction false} JoinEnds(xs: seq<string>)
    requires |xs| > 0 && AllWellFormed(xs)
    ensures var j := Join(", ", xs);
      |j| > 0 && j[0] == xs[0][0] && j[|j| - 1] == xs[|xs| - 1][|xs[|xs| - 1]| - 1]
  {
    if |xs| > 1 {
      JoinEnds(xs[1..]);
    }
  }

  /** With the IDs of the first row taken from the pool, the leftover is
      added to them with one ", " between. */
  lemma LeftoverJoins(rows: seq<Shipment>, left: seq<string>, xs: seq<string>)
    requires |rows| > 0 && |left| > 0 && |xs| > 0 && AllWellFormed(xs + left)
    requires rows[0].ids == Some(Join(", ", xs))
    ensures AddLeftover(rows, left)[0].ids == Some(Join(", ", xs + left))
    ensures ParseContainerIds(AddLeftover(rows, left)[0].ids) == xs + left
  {
    var all := xs + left;
    var j := Join(", ", all);
    JoinAppend(", ", xs, left);
    assert rows[0].ids.GetOr("") + ", " + Join(", ", left) == j;
    JoinEnds(all);
    assert WellFormedId(all[0]) && WellFormedId(all[|all| - 1]);
    assert !IsSeparator(j[0]) && !IsSeparator(j[|j| - 1]);
    assert StripSeparators(j) == j;
    assert AddLeftover(rows, left)[0].ids == Some(j);
    ParseJoined(all);
  }

  /** The loop never adds IDs to what is left. */
  lemma {:induction false} LeftShrinks(ss: seq<Share>, data: map<Option<string>, Shipment>, pool: seq<string>, n: nat)
    requires n <= |ss| && SharesInData(ss, data)
    ensures |HandOut(ss, data, pool, n).left| <= |pool|
  {
    if n > 0 {
      LeftShrinks(ss, data, pool, n - 1);
    }
  }

  /** The front and the back of well-formed IDs are well-formed. */
  lemma WellFormedEnds(pool: seq<string>, a: seq<string>, b: seq<string>)
    requires AllWellFormed(pool) && |a| <= |pool| && |b| <= |pool|
    requires a == pool[..|a|] && b == pool[|pool| - |b|..]
    ensures AllWellFormed(a + b)
  {
    assert forall k :: 0 <= k < |a| ==> a[k] == pool[k];
    assert forall k :: 0 <= k < |b| ==> b[k] == pool[|pool| - |b| + k];
  }

  /** The first row's IDs, which it took from the front of the pool, and
      the same row after the leftover, which follows them. */
  lemma LeftoverFirst(rows: seq<Shipment>, left: seq<string>, xs: seq<string>, pool: seq<string>)
    requires AllWellFormed(pool) && RowIds(rows) + left == pool
    requires |rows| > 0 && |left| > 0 && |xs| > 0 && |xs| <= |pool| && xs == pool[..|xs|]
    requires rows[0].ids == Some(Join(", ", xs))
    ensures ParseContainerIds(rows[0].ids) == xs
    ensures ParseContainerIds(AddLeftover(rows, left)[0].ids) == xs + left
  {
    assert left == pool[|pool| - |left|..];
    WellFormedEnds(pool, xs, left);
    LeftoverJoins(rows, left, xs);
    ParseJoined(xs);
  }

  /** Changing the first row's IDs changes only the front of the rows'
      IDs. */
  lemma FirstRowIds(rows: seq<Shipment>, rows': seq<Shipment>)
    requires |rows| > 0 && |rows'| == |rows| && rows'[1..] == rows[1..]
    ensures RowIds(rows) == ParseContainerIds(rows[0].ids) + RowIds(rows[1..])
    ensures RowIds(rows') == ParseContainerIds(rows'[0].ids) + RowIds(rows[1..])
  {
    RowIdsHead(rows);
    RowIdsHead(rows');
  }

  /** The leftover goes to the first row: the rows' IDs are still the
      pool's, the first row holding the leftover after its own. */
  lemma LeftoverKeepsPool(h: Handout, pool: seq<string>)
    requires AllWellFormed(pool) && InOrder(h, pool) && |h.rows| > 0
    ensures multiset(RowIds(AddLeftover(h.rows, h.left))) == multiset(pool)
    ensures |h.left| == 0 ==> RowIds(AddLeftover(h.rows, h.left)) == pool
  {
    if |h.left| > 0 {
      var rows' := AddLeftover(h.rows, h.left);
      var xs := pool[..h.rows[0].count];
      LeftoverFirst(h.rows, h.left, xs, pool);
      assert rows'[1..] == h.rows[1..];
      FirstRowIds(h.rows, rows');
      var rest := RowIds(h.rows[1..]);
      assert RowIds(rows') == xs + h.left + rest;
      assert pool == xs + rest + h.left;
    }
  }

  /** The IDs of the recounted rows are the rows' IDs, and each count is
      the number of IDs the row holds. */
  lemma RecountKeepsIds(rows: seq<Shipment>, present: set<Column>)
    requires IDS in present
    ensures var rows' := Recount(rows, present);
      RowIds(rows') == RowIds(rows) &&
      forall k :: 0 <= k < |rows'| ==> rows'[k].count == |ParseContainerIds(rows'[k].ids)|
  {
    assert ShipmentIdCells(Recount(rows, present)) == ShipmentIdCells(rows);
  }

  /** With an IDs column and rounded counts within the pool, the rows hold
      the pool's IDs between them, each as often as in the pool, and each
      row's count is the number of IDs it holds. */
  lemma IdsHandedOut(present: set<Column>, ss: seq<Share>, data: map<Option<string>, Shipment>, pool: seq<string>)
    requires IDS in present && SharesInData(ss, data) && NonNegative(ss)
    requires AllWellFormed(pool) && SumRounded(ss) <= |pool|
    ensures var rows := AllocatedRows(present, ss, data, pool);
      (forall k :: 0 <= k < |rows| ==> rows[k].count == |ParseContainerIds(rows[k].ids)|) &&
      (|rows| > 0 ==> multiset(RowIds(rows)) == multiset(pool))
  {
    var n := |ss|;
    assert ss[..n] == ss;
    var h := HandOut(ss, data, pool, n);
    HandOutInOrder(ss, data, pool, n);
    RecountKeepsIds(AddLeftover(h.rows, h.left), present);
    if |h.rows| > 0 {
      LeftoverKeepsPool(h, pool);
    }
  }

  /** When the rounded counts use up the pool exactly, the rows hold the
      pool in order, and each is its share's carrier with its share's
      rounded count. */
  lemma PoolUsedUp(present: set<Column>, ss: seq<Share>, data: map<Option<string>, Shipment>, pool: seq<string>)
    requires IDS in present && SharesInData(ss, data) && NonNegative(ss)
    requires AllWellFormed(pool) && SumRounded(ss) == |pool| && CascadeGroup.KeyedByCarrier(data)
    ensures var rows := AllocatedRows(present, ss, data, pool);
      RowIds(rows) == pool && |rows| == |Kept(ss)| &&
      forall k :: 0 <= k < |rows| ==>
        rows[k].carrier == Kept(ss)[k].carrier && rows[k].count == RoundHalfEven(Kept(ss)[k].amount)
  {
    var n := |ss|;
    assert ss[..n] == ss;
    var h := HandOut(ss, data, pool, n);
    HandOutInOrder(ss, data, pool, n);
    HandOutFollowsShares(ss, data, pool, n);
    assert AddLeftover(h.rows, h.left) == h.rows;
    RecountKeepsIds(h.rows, present);
    RecountFollows(h.rows, Kept(ss), data, present);
  }

  /** When the rounded counts before the last share use up the pool exactly
      and the last share still rounds to a positive count, the last row is
      a copy of its carrier's row that keeps that row's own Container
      Numbers: the rows hold the whole pool and then those IDs once more,
      and the recount counts them again. */
  lemma PoolOverrun(present: set<Column>, ss: seq<Share>, data: map<Option<string>, Shipment>, pool: seq<string>)
    requires IDS in present && SharesInData(ss, data) && NonNegative(ss) && |ss| > 0
    requires AllWellFormed(pool) && SumRounded(ss[..|ss| - 1]) == |pool|
    requires RoundHalfEven(ss[|ss| - 1].amount) > 0
    ensures var rows := AllocatedRows(present, ss, data, pool);
      |rows| > 0 &&
      rows[|rows| - 1].ids == data[ss[|ss| - 1].carrier].ids &&
      RowIds(rows) == pool + ParseContainerIds(data[ss[|ss| - 1].carrier].ids)
  {
    var n := |ss|;
    var s := ss[n - 1];
    var h := HandOut(ss, data, pool, n - 1);
    assert h.left == [] && RowIds(h.rows) == pool by {
      HandOutInOrder(ss, data, pool, n - 1);
    }
    var row := ShareRow(data[s.carrier], RoundHalfEven(s.amount));
    var built := h.rows + [row];
    assert HandOut(ss, data, pool, n) == Handout(built, []) by {
      assert HandOut(ss, data, pool, n) == HandStep(h, s, data);
    }
    assert AddLeftover(built, []) == built;
    var rows := Recount(built, present);
    assert rows == AllocatedRows(present, ss, data, pool);
    assert rows[|rows| - 1] == RecountRow(row, present);
    assert RowIds(rows) == RowIds(built) by {
      RecountKeepsIds(built, present);
    }
    RowIdsSnoc(h.rows, row);
  }

  /** The recount keeps each row's carrier, and keeps its count when the
      row holds as many IDs as its count. */
  lemma RecountFollows(rows: seq<Shipment>, ks: seq<Share>, data: map<Option<string>, Shipment>, present: set<Column>)
    requires IDS in present && Follows(rows, ks, data) && CountsMatchIds(rows) && CascadeGroup.KeyedByCarrier(data)
    ensures var rows' := Recount(rows, present);
      |rows'| == |ks| &&
      forall k :: 0 <= k < |rows'| ==>
        rows'[k].carrier == ks[k].carrier && rows'[k].count == RoundHalfEven(ks[k].amount)
  {
    var rows' := Recount(rows, present);
    forall k | 0 <= k < |rows'|
      ensures rows'[k].carrier == ks[k].carrier && rows'[k].count == RoundHalfEven(ks[k].amount)
    {
      assert RowOfShare(rows[k], ks[k], data);
    }
  }

  /** Without an IDs column there is no pool: the rows are the shares'
      carriers' rows with the rounded counts, in order, and nothing is
      recounted. */
  lemma CountsWithoutIds(present: set<Column>, ss: seq<Share>, data: map<Option<string>, Shipment>)
    requires IDS !in present && SharesInData(ss, data)
    ensures Follows(AllocatedRows(present, ss, data, []), Kept(ss), data)
  {
    var n := |ss|;
    assert ss[..n] == ss;
    LeftShrinks(ss, data, [], n);
    HandOutFollowsShares(ss, data, [], n);
  }

  // ---------------------------------------------------------------------
  // What a group's rows are
  // ---------------------------------------------------------------------

  /** The rows of an optimal allocation are the carriers' rows of the
      shares that make a row, in share order, with only the count, the IDs
      and the totals changed. */
  lemma AllocatedRowsOf(present: set<Column>, ss: seq<Share>, data: map<Option<string>, Shipment>, pool: seq<string>)
    requires SharesInData(ss, data) && CascadeGroup.KeyedByCarrier(data)
    ensures var rows := AllocatedRows(present, ss, data, pool);
      var ks := Kept(ss);
      |rows| == |ks| &&
      forall k :: 0 <= k < |rows| ==>
        ks[k] in ss && MakesRow(ks[k]) && ks[k].carrier in data &&
        rows[k].carrier == ks[k].carrier && SameKeyCells(rows[k], data[ks[k].carrier])
  {
    var n := |ss|;
    assert ss[..n] == ss;
    var h := HandOut(ss, data, pool, n);
    HandOutFollowsShares(ss, data, pool, n);
    var ks := Kept(ss);
    var rows := AllocatedRows(present, ss, data, pool);
    forall k | 0 <= k < |rows|
      ensures ks[k] in ss && MakesRow(ks[k]) && ks[k].carrier in data &&
              rows[k].carrier == ks[k].carrier && SameKeyCells(rows[k], data[ks[k].carrier])
    {
      assert ks[k] in ks;
      assert RowOfShare(h.rows[k], ks[k], data);
    }
  }

  /** `Significant` keeps the order of the carriers, so it names each
      carrier at most once when the carriers are distinct. */
  lemma {:induction false} SignificantOnly(cs: seq<Option<string>>, alloc: Option<string> -> real, w: Option<string>)
    requires NoDup(cs) && w in cs && alloc(w) >= 0.5
    requires forall c :: c in cs && c != w ==> alloc(c) < 0.5
    ensures Significant(cs, alloc) == [Share(w, alloc(w))]
  {
    var p := cs[..|cs| - 1];
    assert forall x :: x in p ==> x in cs;
    if cs[|cs| - 1] != w {
      SignificantOnly(p, alloc, w);
    } else {
      forall i | 0 <= i < |p| ensures alloc(p[i]) < 0.5 {
        assert cs[i] != cs[|cs| - 1];
      }
      SignificantNone(p, alloc);
    }
  }

  /** No carrier given half a container: no significant share. */
  lemma SignificantNone(cs: seq<Option<string>>, alloc: Option<string> -> real)
    requires forall i :: 0 <= i < |cs| ==> alloc(cs[i]) < 0.5
    ensures Significant(cs, alloc) == []
  {
  }

  lemma WholeGroupIs(group: seq<Shipment>, present: set<Column>, sol: LpSolution)
    requires |group| > 0 && SumCounts(group) != 0 && |Carriers(group)| == 1
    ensures SingleGroup(group, present, sol) == Some([WholeGroupRow(group, present, GroupTotal(group, GroupIds(group, present)))])
  {
  }

  /** A group with one carrier gives one row: that carrier's first row with
      the whole total and, with an IDs column, every ID of the group. */
  lemma SingleCarrierTakesAll(group: seq<Shipment>, present: set<Column>, sol: LpSolution)
    requires |group| > 0 && SumCounts(group) != 0 && |Carriers(group)| == 1
    ensures var res := SingleGroup(group, present, sol);
      var pool := GroupIds(group, present);
      res.Some? && |res.value| == 1 &&
      res.value[0].carrier == group[0].carrier &&
      (forall k :: 0 <= k < |group| ==> group[k].carrier == res.value[0].carrier) &&
      res.value[0].count == GroupTotal(group, pool) &&
      (|pool| > 0 ==> res.value[0].count == |pool|) &&
      (IDS in present ==> ParseContainerIds(res.value[0].ids) == pool)
  {
    WholeGroupIs(group, present, sol);
    OneCarrier(group);
    ParseJoinCells(ShipmentIdCells(group));
  }

  /** A group with one carrier has that carrier on every row. */
  lemma OneCarrier(group: seq<Shipment>)
    requires |group| > 0 && |Carriers(group)| == 1
    ensures forall k :: 0 <= k < |group| ==> group[k].carrier == group[0].carrier
  {
    var cs := Carriers(group);
    assert group[0].carrier in cs;
    forall k | 0 <= k < |group| ensures group[k].carrier == group[0].carrier {
      assert group[k].carrier in cs;
    }
  }

  /** The fallback row: one exactly when the carrier is a carrier of the
      group (not NaN), that carrier's row with the whole total and the rate
      times the total. */
  lemma FallbackRowsOf(group: seq<Shipment>, present: set<Column>, cheapest: Option<string>, rate: real, total: int)
    requires cheapest.Some? ==> exists k :: 0 <= k < |group| && group[k].carrier == cheapest
    ensures var rows := FallbackRows(group, present, cheapest, rate, total);
      (|rows| == 1 <==> cheapest.Some?) &&
      forall r :: r in rows ==>
        r.carrier == cheapest && r.count == total && r.totalRate == Some(rate * total as real) &&
        (IDS in present ==> ParseContainerIds(r.ids) == GroupIds(group, present)) &&
        exists k :: 0 <= k < |group| && SameKeyCells(r, group[k])
  {
    ParseJoinCells(ShipmentIdCells(group));
    var own := Filter(group, (r: Shipment) => cheapest.Some? && r.carrier == cheapest);
    if cheapest.Some? {
      var k :| 0 <= k < |group| && group[k].carrier == cheapest;
      assert group[k] in own;
    }
    if |own| > 0 {
      assert own[0] in group;
      var k :| 0 <= k < |group| && group[k] == own[0];
    }
  }

  lemma FallbackIs(group: seq<Shipment>, present: set<Column>)
    requires |group| > 0 && SumCounts(group) != 0 && |Carriers(group)| > 1
    ensures var cs := Carriers(group);
      var data := CascadeGroup.CarrierData(group);
      var cheapest := Cheapest(cs, data);
      SingleGroup(group, present, NotOptimal) ==
        Some(FallbackRows(group, present, cheapest, RateOf(data[cheapest]), GroupTotal(group, GroupIds(group, present))))
  {
  }

  /** Without an optimal solution, the group gives at most one row: the
      first row of the carrier with the least rate (the first such carrier),
      carrying the whole total and every ID of the group; none when that
      carrier is NaN. */
  lemma FallbackToCheapest(group: seq<Shipment>, present: set<Column>)
    requires |group| > 0 && SumCounts(group) != 0 && |Carriers(group)| > 1
    ensures var res := SingleGroup(group, present, NotOptimal);
      var cs := Carriers(group);
      var data := CascadeGroup.CarrierData(group);
      var pool := GroupIds(group, present);
      var cheapest := Cheapest(cs, data);
      res.Some? && |res.value| <= 1 &&
      (|res.value| == 1 <==> cheapest.Some?) &&
      forall r :: r in res.value ==>
        r.carrier == cheapest &&
        (forall c :: c in cs ==> RateOf(data[r.carrier]) <= RateOf(data[c])) &&
        r.count == GroupTotal(group, pool) &&
        r.totalRate == Some(RateOf(data[cheapest]) * GroupTotal(group, pool) as real) &&
        (IDS in present ==> ParseContainerIds(r.ids) == pool)
  {
    var cs := Carriers(group);
    var data := CascadeGroup.CarrierData(group);
    var cheapest := Cheapest(cs, data);
    var total := GroupTotal(group, GroupIds(group, present));
    var rows := FallbackRows(group, present, cheapest, RateOf(data[cheapest]), total);
    FallbackIs(group, present);
    FallbackRowsOf(group, present, cheapest, RateOf(data[cheapest]), total);
    CheapestIsLeast(cs, data);
  }

  lemma CheapestIsLeast(cs: seq<Option<string>>, data: map<Option<string>, Shipment>)
    requires |cs| > 0 && forall c :: c in cs ==> c in data
    ensures forall c :: c in cs ==> RateOf(data[Cheapest(cs, data)]) <= RateOf(data[c])
  {
    forall c | c in cs ensures RateOf(data[Cheapest(cs, data)]) <= RateOf(data[c]) {
      var i :| 0 <= i < |cs| && cs[i] == c;
    }
  }

  lemma OptimalIs(group: seq<Shipment>, present: set<Column>, alloc: Option<string> -> real)
    requires |group| > 0 && SumCounts(group) != 0 && |Carriers(group)| > 1
    ensures var cs := Carriers(group);
      var data := CascadeGroup.CarrierData(group);
      var pool := GroupIds(group, present);
      var rows := AllocatedRows(present, Shares(cs, alloc, Cheapest(cs, data), GroupTotal(group, pool)), data, pool);
      SingleGroup(group, present, Optimal(alloc)) == if |rows| == 0 then None else Some(rows)
  {
  }

  /** No carrier has two shares. */
  predicate DistinctCarriers(ss: seq<Share>)
  {
    forall i, j :: 0 <= i < j < |ss| ==> ss[i].carrier != ss[j].carrier
  }

  /** The significant shares name distinct carriers when the carriers are
      distinct. */
  lemma {:induction false} SignificantDistinct(cs: seq<Option<string>>, alloc: Option<string> -> real)
    requires NoDup(cs)
    ensures DistinctCarriers(Significant(cs, alloc))
  {
    if |cs| > 0 {
      var p := cs[..|cs| - 1];
      var c := cs[|cs| - 1];
      assert NoDup(p);
      SignificantDistinct(p, alloc);
      assert c !in p by {
        forall i | 0 <= i < |p| ensures p[i] != c {
          assert cs[i] != cs[|cs| - 1];
        }
      }
      var sp := Significant(p, alloc);
      var ss := Significant(cs, alloc);
      assert ss == sp + if alloc(c) >= 0.5 then [Share(c, alloc(c))] else [];
      forall i, j | 0 <= i < j < |ss| ensures ss[i].carrier != ss[j].carrier {
        assert ss[i] == sp[i];
        if j < |sp| {
          assert ss[j] == sp[j];
          assert sp[i].carrier != sp[j].carrier;
        } else {
          assert sp[i].carrier in p;
          assert ss[j].carrier == c;
        }
      }
    }
  }

  /** What the shares handed to the row loop are: each a carrier of the
      group given at least half a container, with its amount, every such
      carrier among them once; or, when there is none, only the cheapest
      carrier with the whole total. */
  lemma SharesOf(cs: seq<Option<string>>, alloc: Option<string> -> real, cheapest: Option<string>, total: int)
    requires NoDup(cs) && cheapest in cs
    ensures var ss := Shares(cs, alloc, cheapest, total);
      (forall k :: 0 <= k < |ss| ==>
         ss[k].carrier in cs &&
         ((ss[k].amount == alloc(ss[k].carrier) && ss[k].amount >= 0.5) ||
          (ss == [Share(cheapest, total as real)] && forall c :: c in cs ==> alloc(c) < 0.5))) &&
      (forall c :: c in cs && alloc(c) >= 0.5 ==> Share(c, alloc(c)) in ss) &&
      DistinctCarriers(ss) &&
      (total >= 0 ==> NonNegative(ss))
  {
    SignificantDistinct(cs, alloc);
    var sig := Significant(cs, alloc);
    if |sig| == 0 {
      var ss := [Share(cheapest, total as real)];
      assert Shares(cs, alloc, cheapest, total) == ss;
      assert forall c :: c in cs ==> alloc(c) < 0.5;
      if total >= 0 {
        assert ss[0].amount >= 0.0;
      }
    } else {
      assert Shares(cs, alloc, cheapest, total) == sig;
      assert NonNegative(sig);
    }
  }

  /** The shares that make a row keep the distinct carriers of the shares. */
  lemma KeptDistinct(ss: seq<Share>)
    requires DistinctCarriers(ss)
    ensures DistinctCarriers(Kept(ss))
  {
    assert forall i, j :: 0 <= i < j < |ss| ==> OtherCarrier(ss[i], ss[j]);
    FilterPairwise(ss, MakesRow, OtherCarrier);
    var ks := Filter(ss, MakesRow);
    assert forall i, j :: 0 <= i < j < |ks| ==> OtherCarrier(ks[i], ks[j]);
    assert ks == Kept(ss);
  }

  predicate OtherCarrier(a: Share, b: Share)
  {
    a.carrier != b.carrier
  }

  /** The rows the row loop makes of the shares: each is the row of a
      carrier given at least half a container, or, when there is none, of
      the cheapest carrier. */
  lemma SharedRowCarriers(present: set<Column>, cs: seq<Option<string>>, alloc: Option<string> -> real, cheapest: Option<string>,
                          total: int, data: map<Option<string>, Shipment>, pool: seq<string>)
    requires NoDup(cs) && cheapest in cs && (forall c :: c in cs ==> c in data) && CascadeGroup.KeyedByCarrier(data)
    ensures var ss := Shares(cs, alloc, cheapest, total);
      SharesInData(ss, data) &&
      var rows := AllocatedRows(present, ss, data, pool);
      forall k :: 0 <= k < |rows| ==>
        rows[k].carrier in cs && SameKeyCells(rows[k], data[rows[k].carrier]) &&
        (alloc(rows[k].carrier) >= 0.5 || (rows[k].carrier == cheapest && forall c :: c in cs ==> alloc(c) < 0.5))
  {
    var ss := Shares(cs, alloc, cheapest, total);
    SharesOf(cs, alloc, cheapest, total);
    AllocatedRowsOf(present, ss, data, pool);
    var rows := AllocatedRows(present, ss, data, pool);
    var ks := Kept(ss);
    forall k | 0 <= k < |rows|
      ensures rows[k].carrier in cs &&
        (alloc(rows[k].carrier) >= 0.5 || (rows[k].carrier == cheapest && forall c :: c in cs ==> alloc(c) < 0.5))
    {
      var i :| 0 <= i < |ss| && ss[i] == ks[k];
    }
  }

  /** No carrier has two rows. */
  lemma SharedRowsDistinct(present: set<Column>, cs: seq<Option<string>>, alloc: Option<string> -> real, cheapest: Option<string>,
                           total: int, data: map<Option<string>, Shipment>, pool: seq<string>)
    requires NoDup(cs) && cheapest in cs && (forall c :: c in cs ==> c in data) && CascadeGroup.KeyedByCarrier(data)
    ensures var ss := Shares(cs, alloc, cheapest, total);
      SharesInData(ss, data) &&
      var rows := AllocatedRows(present, ss, data, pool);
      forall i, j :: 0 <= i < j < |rows| ==> rows[i].carrier != rows[j].carrier
  {
    var ss := Shares(cs, alloc, cheapest, total);
    SharesOf(cs, alloc, cheapest, total);
    AllocatedRowsOf(present, ss, data, pool);
    KeptDistinct(ss);
  }

  /** Every carrier given at least half a container whose amount does not
      round to zero has a row. */
  lemma SharedRowsCover(present: set<Column>, cs: seq<Option<string>>, alloc: Option<string> -> real, cheapest: Option<string>,
                        total: int, data: map<Option<string>, Shipment>, pool: seq<string>, c: Option<string>)
    requires NoDup(cs) && cheapest in cs && (forall c :: c in cs ==> c in data) && CascadeGroup.KeyedByCarrier(data)
    requires c in cs && alloc(c) >= 0.5 && RoundHalfEven(alloc(c)) != 0
    ensures var ss := Shares(cs, alloc, cheapest, total);
      SharesInData(ss, data) &&
      var rows := AllocatedRows(present, ss, data, pool);
      exists k :: 0 <= k < |rows| && rows[k].carrier == c
  {
    var ss := Shares(cs, alloc, cheapest, total);
    SharesOf(cs, alloc, cheapest, total);
    AllocatedRowsOf(present, ss, data, pool);
    var ks := Kept(ss);
    assert Share(c, alloc(c)) in ks;
    var k :| 0 <= k < |ks| && ks[k] == Share(c, alloc(c));
  }

  /** With an optimal solution, each row is a carrier of the group given at
      least half a container, or, when no carrier is, the cheapest one; no
      carrier has two rows. */
  lemma OptimalCarriers(group: seq<Shipment>, present: set<Column>, alloc: Option<string> -> real)
    requires |group| > 0 && SumCounts(group) != 0 && |Carriers(group)| > 1
    requires SingleGroup(group, present, Optimal(alloc)).Some?
    ensures var rows := SingleGroup(group, present, Optimal(alloc)).value;
      var cs := Carriers(group);
      var cheapest := Cheapest(cs, CascadeGroup.CarrierData(group));
      (forall k :: 0 <= k < |rows| ==>
         rows[k].carrier in cs &&
         (alloc(rows[k].carrier) >= 0.5 || (rows[k].carrier == cheapest && forall c :: c in cs ==> alloc(c) < 0.5))) &&
      (forall i, j :: 0 <= i < j < |rows| ==> rows[i].carrier != rows[j].carrier)
  {
    var cs := Carriers(group);
    var data := CascadeGroup.CarrierData(group);
    var pool := GroupIds(group, present);
    OptimalIs(group, present, alloc);
    CascadeGroup.CarrierDataKeyed(group);
    SharedRowCarriers(present, cs, alloc, Cheapest(cs, data), GroupTotal(group, pool), data, pool);
    SharedRowsDistinct(present, cs, alloc, Cheapest(cs, data), GroupTotal(group, pool), data, pool);
  }

  /** With an optimal solution, every carrier given at least half a
      container whose amount does not round to zero has a row. */
  lemma OptimalCovers(group: seq<Shipment>, present: set<Column>, alloc: Option<string> -> real, c: Option<string>)
    requires |group| > 0 && SumCounts(group) != 0 && |Carriers(group)| > 1
    requires c in Carriers(group) && alloc(c) >= 0.5 && RoundHalfEven(alloc(c)) != 0
    ensures var res := SingleGroup(group, present, Optimal(alloc));
      res.Some? && exists k :: 0 <= k < |res.value| && res.value[k].carrier == c
  {
    var cs := Carriers(group);
    var data := CascadeGroup.CarrierData(group);
    var pool := GroupIds(group, present);
    OptimalIs(group, present, alloc);
    CascadeGroup.CarrierDataKeyed(group);
    SharedRowsCover(present, cs, alloc, Cheapest(cs, data), GroupTotal(group, pool), data, pool, c);
  }

  /** The rows of a group with several carriers and an optimal solution
      are copies of the group's rows. */
  lemma OptimalRowsInGroup(group: seq<Shipment>, present: set<Column>, alloc: Option<string> -> real)
    requires |group| > 0 && SumCounts(group) != 0 && |Carriers(group)| > 1
    requires SingleGroup(group, present, Optimal(alloc)).Some?
    ensures AgreeWith(SingleGroup(group, present, Optimal(alloc)).value, group)
  {
    var cs := Carriers(group);
    var data := CascadeGroup.CarrierData(group);
    var pool := GroupIds(group, present);
    var rows := SingleGroup(group, present, Optimal(alloc)).value;
    OptimalIs(group, present, alloc);
    CascadeGroup.CarrierDataKeyed(group);
    SharedRowCarriers(present, cs, alloc, Cheapest(cs, data), GroupTotal(group, pool), data, pool);
    forall k | 0 <= k < |rows| ensures exists j :: 0 <= j < |group| && SameKeyCells(rows[k], group[j]) {
      var j := CascadeGroup.CarrierDataLast(group, rows[k].carrier);
    }
  }

  /** Every row a group gives is a copy of one of the group's rows, which
      keeps its grouping cells and its carrier. */
  lemma RowsStayInGroup(group: seq<Shipment>, present: set<Column>, sol: LpSolution)
    requires SingleGroup(group, present, sol).Some?
    ensures AgreeWith(SingleGroup(group, present, sol).value, group)
  {
    if |Carriers(group)| == 1 {
      WholeRowInGroup(group, present, sol);
    } else if sol.NotOptimal? {
      FallbackInGroup(group, present);
    } else {
      OptimalRowsInGroup(group, present, sol.alloc);
    }
  }

  /** The single carrier's row is a copy of the group's first row. */
  lemma WholeRowInGroup(group: seq<Shipment>, present: set<Column>, sol: LpSolution)
    requires |group| > 0 && SumCounts(group) != 0 && |Carriers(group)| == 1
    ensures AgreeWith(SingleGroup(group, present, sol).value, group)
  {
    WholeGroupIs(group, present, sol);
    assert SameKeyCells(SingleGroup(group, present, sol).value[0], group[0]);
  }

  /** The fallback row is a copy of one of the group's rows. */
  lemma FallbackInGroup(group: seq<Shipment>, present: set<Column>)
    requires |group| > 0 && SumCounts(group) != 0 && |Carriers(group)| > 1
    ensures AgreeWith(SingleGroup(group, present, NotOptimal).value, group)
  {
    var rows := SingleGroup(group, present, NotOptimal).value;
    var cs := Carriers(group);
    var data := CascadeGroup.CarrierData(group);
    var cheapest := Cheapest(cs, data);
    FallbackIs(group, present);
    FallbackRowsOf(group, present, cheapest, RateOf(data[cheapest]), GroupTotal(group, GroupIds(group, present)));
    forall k | 0 <= k < |rows| ensures exists j :: 0 <= j < |group| && SameKeyCells(rows[k], group[j]) {
      assert rows[k] in rows;
    }
  }

  /** One share of the whole total gives one row, that carrier's, with
      the whole total and, with an IDs column, the pool in order. */
  lemma OneShareRow(present: set<Column>, w: Option<string>, t: int, data: map<Option<string>, Shipment>, pool: seq<string>)
    requires t > 0 && w in data && CascadeGroup.KeyedByCarrier(data) && AllWellFormed(pool)
    requires IDS in present ==> |pool| == t
    requires IDS !in present ==> pool == []
    ensures var rows := AllocatedRows(present, [Share(w, t as real)], data, pool);
      |rows| == 1 && rows[0].carrier == w && rows[0].count == t &&
      (IDS in present ==> RowIds(rows) == pool)
  {
    var ss := [Share(w, t as real)];
    assert RoundHalfEven(t as real) == t;
    assert Kept(ss) == ss;
    assert SumRounded(ss) == t by {
      assert ss[..0] == [];
    }
    if IDS in present {
      PoolUsedUp(present, ss, data, pool);
    } else {
      CountsWithoutIds(present, ss, data);
      assert RowOfShare(AllocatedRows(present, ss, data, pool)[0], ss[0], data);
    }
  }

  /** A vertex of the solver's polytope: one carrier takes the whole total
      and the others nothing. The group then gives exactly that carrier's
      row, with the whole total and, with an IDs column, every ID of the
      group in order. */
  lemma VertexSolution(group: seq<Shipment>, present: set<Column>, alloc: Option<string> -> real, w: Option<string>)
    requires |group| > 0 && SumCounts(group) != 0 && |Carriers(group)| > 1
    requires IDS in present ==> |GroupIds(group, present)| > 0
    requires var total := GroupTotal(group, GroupIds(group, present));
      total > 0 && w in Carriers(group) && alloc(w) == total as real &&
      forall c :: c in Carriers(group) && c != w ==> alloc(c) == 0.0
    ensures var res := SingleGroup(group, present, Optimal(alloc));
      var pool := GroupIds(group, present);
      res.Some? && |res.value| == 1 && res.value[0].carrier == w &&
      res.value[0].count == GroupTotal(group, pool) &&
      (IDS in present ==> RowIds(res.value) == pool)
  {
    var cs := Carriers(group);
    var data := CascadeGroup.CarrierData(group);
    var pool := GroupIds(group, present);
    var total := GroupTotal(group, pool);
    SignificantOnly(cs, alloc, w);
    OptimalIs(group, present, alloc);
    CascadeGroup.CarrierDataKeyed(group);
    OneShareRow(present, w, total, data, pool);
  }

  // ---------------------------------------------------------------------
  // The objective
  // ---------------------------------------------------------------------

  /** The performance of each carrier's row in carrier order (lines
      270-278), zero when the table has no performance column. */
  function Performances(cs: seq<Option<string>>, data: map<Option<string>, Shipment>, hasPerformance: bool): (ps: seq<real>)
    requires forall c :: c in cs ==> c in data
    ensures |ps| == |cs|
  {
    seq(|cs|, k requires 0 <= k < |cs| => if hasPerformance then data[cs[k]].perf.GetOr(0.0) else 0.0)
  }

  /** One carrier's coefficient: the cost weight times its cost score plus
      the performance weight times its performance cost. */
  function Weighted(w: Weights, cost: real, perf: real): real
  {
    w.cost * cost + w.perf * perf
  }

  /** A weighted sum of two values in [0, 1] with weights adding up to one
      stays in [0, 1]. */
  lemma WeightedWithin(w: Weights, x: real, y: real)
    requires 0.0 <= w.cost && 0.0 <= w.perf && w.cost + w.perf == 1.0
    requires 0.0 <= x <= 1.0 && 0.0 <= y <= 1.0
    ensures 0.0 <= Weighted(w, x, y) <= 1.0
  {
    var a, b := w.cost * x, w.perf * y;
    WeighFraction(w.cost, x);
    WeighFraction(w.perf, y);
    SumBounds(0.0, 0.0, a, b);
    SumBounds(a, b, w.cost, w.perf);
  }

  /** The weighted sum grows with both scores, strictly with the cost
      score when the cost weight is positive. */
  lemma WeightedGrows(w: Weights, c: real, p: real, c': real, p': real)
    requires 0.0 <= w.cost && 0.0 <= w.perf && c <= c' && p <= p'
    ensures Weighted(w, c, p) <= Weighted(w, c', p')
    ensures c < c' && w.cost > 0.0 ==> Weighted(w, c, p) < Weighted(w, c', p')
  {
    WeighMonotone(w.cost, c, c');
    WeighMonotone(w.perf, p, p');
    SumBounds(w.cost * c, w.perf * p, w.cost * c', w.perf * p');
  }

  /** The cost scores of the objective: the carriers' rates normalised, the
      cheapest to 0. */
  function CostScores(group: seq<Shipment>): (ys: seq<real>)
    ensures |ys| == |Carriers(group)|
  {
    Normalize(Rates(Carriers(group), CascadeGroup.CarrierData(group)), true)
  }

  /** The performance costs of the objective: the carriers' performances
      normalised, the best to 0;
      all zero without a performance column. */
  function PerfCosts(group: seq<Shipment>, present: set<Column>): (ys: seq<real>)
    ensures |ys| == |Carriers(group)|
    ensures forall k :: 0 <= k < |ys| ==> 0.0 <= ys[k] <= 1.0
  {
    var cs := Carriers(group);
    if PERFORMANCE in present then Normalize(Performances(cs, CascadeGroup.CarrierData(group), true), false)
    else seq(|cs|, k => 0.0)
  }

  /** The objective: each carrier's coefficient in the objective, the cost
      weight times its cost score plus the performance weight times its
      performance cost. */
  function Objective(group: seq<Shipment>, present: set<Column>, w: Weights): (coefs: seq<real>)
    ensures |coefs| == |Carriers(group)|
  {
    var costs, perfs := CostScores(group), PerfCosts(group, present);
    seq(|costs|, k requires 0 <= k < |costs| => Weighted(w, costs[k], perfs[k]))
  }

  /** With weights that add up to one, every coefficient lies in [0, 1]. */
  lemma ObjectiveWithin(group: seq<Shipment>, present: set<Column>, w: Weights)
    requires 0.0 <= w.cost && 0.0 <= w.perf && w.cost + w.perf == 1.0
    ensures var coefs := Objective(group, present, w);
      forall k :: 0 <= k < |coefs| ==> 0.0 <= coefs[k] <= 1.0
  {
    var costs, perfs := CostScores(group), PerfCosts(group, present);
    forall k | 0 <= k < |costs| ensures 0.0 <= Objective(group, present, w)[k] <= 1.0 {
      WeightedWithin(w, costs[k], perfs[k]);
    }
  }

  /** Normalising never reverses the order of two values (it flips it when
      higher is better), and keeps a strict order strict. */
  lemma NormalizeMonotone(xs: seq<real>, lowerIsBetter: bool, i: nat, j: nat)
    requires i < |xs| && j < |xs| && xs[i] <= xs[j]
    ensures var ys := Normalize(xs, lowerIsBetter);
      (if lowerIsBetter then ys[i] <= ys[j] else ys[i] >= ys[j]) &&
      (xs[i] < xs[j] ==> if lowerIsBetter then ys[i] < ys[j] else ys[i] > ys[j])
  {
    if Lowest(xs) < Highest(xs) {
      NormalizeKeepsOrder(xs, lowerIsBetter, i, j);
    }
  }

  /** A carrier no dearer and performing no worse than another never gets a
      higher coefficient; strictly cheaper with a positive cost weight, it
      gets a strictly lower one. */
  lemma ObjectiveFavoursBetter(group: seq<Shipment>, present: set<Column>, w: Weights, i: nat, j: nat)
    requires 0.0 <= w.cost && 0.0 <= w.perf
    requires var cs := Carriers(group);
      var data := CascadeGroup.CarrierData(group);
      i < |cs| && j < |cs| && RateOf(data[cs[i]]) <= RateOf(data[cs[j]]) &&
      (PERFORMANCE in present ==> data[cs[i]].perf.GetOr(0.0) >= data[cs[j]].perf.GetOr(0.0))
    ensures var coefs := Objective(group, present, w);
      var data := CascadeGroup.CarrierData(group);
      var cs := Carriers(group);
      coefs[i] <= coefs[j] &&
      (w.cost > 0.0 && RateOf(data[cs[i]]) < RateOf(data[cs[j]]) ==> coefs[i] < coefs[j])
  {
    var cs := Carriers(group);
    var data := CascadeGroup.CarrierData(group);
    var rates := Rates(cs, data);
    var costs, perfs := CostScores(group), PerfCosts(group, present);
    NormalizeMonotone(rates, true, i, j);
    if PERFORMANCE in present {
      var ps := Performances(cs, data, true);
      NormalizeMonotone(ps, false, j, i);
    }
    WeightedGrows(w, costs[i], perfs[i], costs[j], perfs[j]);
  }

  // ---------------------------------------------------------------------
  // The whole table
  // ---------------------------------------------------------------------

  /** The solver: given the carriers, their coefficients
      and the total to allocate, it answers with an allocation or fails. */
  type Solver = (seq<Option<string>>, seq<real>, int) -> LpSolution

  /** The solver's answer for one group. */
  function GroupSolution(group: seq<Shipment>, present: set<Column>, w: Weights, solve: Solver): LpSolution
  {
    solve(Carriers(group), Objective(group, present, w), GroupTotal(group, GroupIds(group, present)))
  }

  /** Each of `rows` agrees with one of `group` on every grouping cell
      and the carrier. */
  predicate AgreeWith(rows: seq<Shipment>, group: seq<Shipment>)
  {
    forall k :: 0 <= k < |rows| ==> exists j :: 0 <= j < |group| && SameKeyCells(rows[k], group[j])
  }

  /** The body of the grouping loop: the rows one group adds to the result;
      each agrees with
      a row of the group on every grouping cell and the carrier. */
  function GroupRows(group: seq<Shipment>, present: set<Column>, w: Weights, solve: Solver): (rows: seq<Shipment>)
    ensures AgreeWith(rows, group)
  {
    var sol := GroupSolution(group, present, w, solve);
    var res := SingleGroup(group, present, sol);
    if res.Some? then RowsStayInGroup(group, present, sol); res.value else []
  }

  /** The rows of the groups with the given keys, group after group, each
      group giving the rows `per` makes of it. */
  function GroupedRows(working: seq<Shipment>, cols: seq<Column>, keys: seq<seq<Value>>,
                       per: seq<Shipment> -> seq<Shipment>): seq<Shipment>
  {
    if |keys| == 0 then []
    else GroupedRows(working, cols, keys[..|keys| - 1], per) + per(RowsWithKey(working, cols, keys[|keys| - 1]))
  }

  /** One more key appends that group's rows. */
  lemma GroupedRowsStep(working: seq<Shipment>, cols: seq<Column>, keys: seq<seq<Value>>, i: nat,
                        per: seq<Shipment> -> seq<Shipment>)
    requires i < |keys|
    ensures GroupedRows(working, cols, keys[..i + 1], per) ==
      GroupedRows(working, cols, keys[..i], per) + per(RowsWithKey(working, cols, keys[i]))
  {
    assert keys[..i + 1][..i] == keys[..i];
  }

  /** A row agreeing with a row of a group has that group's key and agrees
      with a working row. */
  lemma InGroupKeyed(r: Shipment, working: seq<Shipment>, cols: seq<Column>, key: seq<Value>)
    requires exists j :: 0 <= j < |RowsWithKey(working, cols, key)| && SameKeyCells(r, RowsWithKey(working, cols, key)[j])
    ensures Key(r, cols) == key && exists j :: 0 <= j < |working| && SameKeyCells(r, working[j])
  {
    var group := RowsWithKey(working, cols, key);
    var j :| 0 <= j < |group| && SameKeyCells(r, group[j]);
    SameKey(r, group[j], cols);
    var q :| 0 <= q < |working| && working[q] == group[j];
    assert SameKeyCells(r, working[q]);
  }

  /** When every group's rows agree with the group, each row of the groups
      with the given keys has one of those keys and agrees with a working
      row on every grouping cell and the carrier. */
  lemma {:induction false} GroupedRowsKeyed(working: seq<Shipment>, cols: seq<Column>, keys: seq<seq<Value>>,
                                            per: seq<Shipment> -> seq<Shipment>, k: nat)
    requires AgreesPerGroup(per)
    requires k < |GroupedRows(working, cols, keys, per)|
    ensures var r := GroupedRows(working, cols, keys, per)[k];
      Key(r, cols) in keys && exists j :: 0 <= j < |working| && SameKeyCells(r, working[j])
  {
    var init := keys[..|keys| - 1];
    var key := keys[|keys| - 1];
    var rest := GroupedRows(working, cols, init, per);
    var more := per(RowsWithKey(working, cols, key));
    if k < |rest| {
      GroupedRowsKeyed(working, cols, init, per, k);
      assert Key(rest[k], cols) in init;
    } else {
      assert AgreeWith(more, RowsWithKey(working, cols, key));
      InGroupKeyed(more[k - |rest|], working, cols, key);
    }
  }

  /** Agreement on the grouping cells and the carrier carries over from
      a row of `mid` to the row of `src` it came from. */
  lemma AgreeThrough(r: Shipment, mid: seq<Shipment>, src: seq<Shipment>)
    requires |mid| == |src| && forall j :: 0 <= j < |mid| ==> SameKeyCells(mid[j], src[j])
    requires exists j :: 0 <= j < |mid| && SameKeyCells(r, mid[j])
    ensures exists q :: 0 <= q < |src| && SameKeyCells(r, src[q])
  {
    var q :| 0 <= q < |mid| && SameKeyCells(r, mid[q]);
    assert SameKeyCells(mid[q], src[q]);
    assert SameKeyCells(r, src[q]);
  }

  /** The rows one group gives with these weights and this solver. */
  function PerGroup(present: set<Column>, w: Weights, solve: Solver): seq<Shipment> -> seq<Shipment>
  {
    group => GroupRows(group, present, w, solve)
  }

  /** Every group's rows agree with the group. */
  ghost predicate AgreesPerGroup(per: seq<Shipment> -> seq<Shipment>)
  {
    forall group :: AgreeWith(per(group), group)
  }

  lemma PerGroupAgrees(present: set<Column>, w: Weights, solve: Solver)
    ensures AgreesPerGroup(PerGroup(present, w, solve))
  {
    forall group ensures AgreeWith(PerGroup(present, w, solve)(group), group) {
      assert PerGroup(present, w, solve)(group) == GroupRows(group, present, w, solve);
    }
  }

  /** The rows of every group of the working table, in key order. */
  function TableRows(t: Table, cols: seq<Column>, w: Weights, solve: Solver): seq<Shipment>
  {
    var working := Working(t);
    GroupedRows(working, cols, AllGroupKeys(working, cols), PerGroup(t.columns, w, solve))
  }

  /** When every group's rows agree with the group, each row of the
      table's groups agrees with an input row on every grouping cell and
      the carrier, and has the key of a group of the input. */
  lemma RowFromInput(t: Table, cols: seq<Column>, per: seq<Shipment> -> seq<Shipment>, k: nat)
    requires AgreesPerGroup(per)
    requires k < |GroupedRows(Working(t), cols, AllGroupKeys(Working(t), cols), per)|
    ensures var r := GroupedRows(Working(t), cols, AllGroupKeys(Working(t), cols), per)[k];
      Key(r, cols) in Keys(Working(t), cols) && exists q :: 0 <= q < |t.rows| && SameKeyCells(r, t.rows[q])
  {
    var working := Working(t);
    var keys := AllGroupKeys(working, cols);
    GroupedRowsKeyed(working, cols, keys, per, k);
    AgreeThrough(GroupedRows(working, cols, keys, per)[k], working, t.rows);
  }

  /** What the allocation returns: the table and, when it has rows, the
      weights its label shows. */
  datatype Allocation = Allocation(table: Table, weights: Option<Weights>)

  /** The end of `optimize_carrier_allocation`: no rows give an empty table
      with the input's columns
      and no label; otherwise the rows, labelled with the weights. */
  function Labelled(t: Table, rows: seq<Shipment>, w: Weights): (a: Allocation)
    ensures a.table == Table(t.columns, rows)
    ensures a.weights.None? <==> rows == []
    ensures a.weights.Some? ==> a.weights.value == w
  {
    if rows == [] then Allocation(Table(t.columns, []), None) else Allocation(Table(t.columns, rows), Some(w))
  }

  /** `optimize_carrier_allocation`: an empty table gives an empty table;
      zero weights, a missing required column or no grouping column are
      errors; otherwise the rows of every group in key order, labelled with
      the weights. */
  function CarrierAllocation(t: Table, costWeight: real, perfWeight: real, solve: Solver): (r: Result<Allocation>)
    ensures t.rows == [] ==> r == Success(Allocation(Table(t.columns, []), None))
    ensures t.rows != [] && costWeight + perfWeight == 0.0 ==>
      r == Failure("At least one weight must be non-zero")
    ensures t.rows != [] && costWeight + perfWeight != 0.0 && |MissingColumns(t.columns)| > 0 ==>
      r == Failure("Missing required columns: " + ListRepr(MissingColumns(t.columns)))
    ensures t.rows != [] ==>
      (r.Success? <==> costWeight + perfWeight != 0.0 && (forall c :: c in REQUIRED ==> c in t.columns) &&
                       exists c :: c in LP_COLUMNS && c in t.columns)
    ensures t.rows != [] && r.Success? ==>
      var w := CostOnly(Weigh(costWeight, perfWeight).value, PERFORMANCE in t.columns);
      r.value == Labelled(t, TableRows(t, KeepPresent(LP_COLUMNS, t.columns), w, solve), w)
  {
    if t.rows == [] then Success(Allocation(Table(t.columns, []), None))
    else
      var weigh := Weigh(costWeight, perfWeight);
      if weigh.Failure? then Failure(weigh.error)
      else
        var missing := MissingColumns(t.columns);
        if |missing| > 0 then Failure("Missing required columns: " + ListRepr(missing))
        else
          var w := CostOnly(weigh.value, PERFORMANCE in t.columns);
          var cols := PrepareLpGroupColumns(t.columns);
          if cols.Failure? then Failure(cols.error)
          else Success(Labelled(t, TableRows(t, cols.value, w, solve), w))
  }

  /** One group's rows are what `_optimize_single_group` returns, nothing
      when it returns nothing. */
  lemma PerGroupIs(present: set<Column>, w: Weights, solve: Solver, group: seq<Shipment>)
    ensures var res := SingleGroup(group, present, GroupSolution(group, present, w, solve));
      PerGroup(present, w, solve)(group) == if res.Some? then res.value else []
  {
  }

  /** The grouping loop of `optimize_carrier_allocation`: the groups in key
      order, each optimised and its rows
      appended. */
  method AllocateGroups(t: Table, cols: seq<Column>, w: Weights, solve: Solver) returns (out: seq<Shipment>)
    ensures out == TableRows(t, cols, w, solve)
  {
    var working := Working(t);
    var keys := AllGroupKeys(working, cols);
    var per := PerGroup(t.columns, w, solve);
    out := [];
    for i := 0 to |keys|
      invariant out == GroupedRows(working, cols, keys[..i], per)
    {
      var group := RowsWithKey(working, cols, keys[i]);
      var res := OptimizeSingleGroup(group, t.columns, GroupSolution(group, t.columns, w, solve));
      PerGroupIs(t.columns, w, solve, group);
      GroupedRowsStep(working, cols, keys, i, per);
      if res.Some? && |res.value| > 0 {
        out := out + res.value;
      }
    }
    assert keys[..|keys|] == keys;
  }

  /** `optimize_carrier_allocation`: the checks in order, then the groups. */
  method OptimizeCarrierAllocation(t: Table, costWeight: real, perfWeight: real, solve: Solver)
    returns (r: Result<Allocation>)
    ensures r == CarrierAllocation(t, costWeight, perfWeight, solve)
  {
    if t.rows == [] {
      return Success(Allocation(Table(t.columns, []), None));
    }
    var weigh := Weigh(costWeight, perfWeight);
    if weigh.Failure? {
      return Failure(weigh.error);
    }
    var missing := MissingColumns(t.columns);
    if |missing| > 0 {
      return Failure("Missing required columns: " + ListRepr(missing));
    }
    var w := CostOnly(weigh.value, PERFORMANCE in t.columns);
    var cols := PrepareLpGroupColumns(t.columns);
    if cols.Failure? {
      return Failure(cols.error);
    }
    var rows := AllocateGroups(t, cols.value, w, solve);
    return Success(Labelled(t, rows, w));
  }

  /** A successful allocation is labelled with weights that add up to one,
      and keeps the input's columns. */
  lemma LabelWeights(t: Table, costWeight: real, perfWeight: real, solve: Solver)
    requires CarrierAllocation(t, costWeight, perfWeight, solve).Success?
    ensures var a := CarrierAllocation(t, costWeight, perfWeight, solve).value;
      a.table.columns == t.columns &&
      (a.weights.Some? ==> a.weights.value.cost + a.weights.value.perf == 1.0)
  {
    if t.rows != [] {
      WeightsAddUpToOne(costWeight, perfWeight, PERFORMANCE in t.columns);
    }
  }

  /** Every row of the result agrees with some input row on every grouping
      cell and the carrier: the allocation invents no lane, week or
      carrier, and only moves volume between a group's own carriers. */
  lemma RowsComeFromInput(t: Table, costWeight: real, perfWeight: real, solve: Solver, k: nat)
    requires CarrierAllocation(t, costWeight, perfWeight, solve).Success?
    requires k < |CarrierAllocation(t, costWeight, perfWeight, solve).value.table.rows|
    ensures var r := CarrierAllocation(t, costWeight, perfWeight, solve).value.table.rows[k];
      exists q :: 0 <= q < |t.rows| && SameKeyCells(r, t.rows[q])
  {
    var w := CostOnly(Weigh(costWeight, perfWeight).value, PERFORMANCE in t.columns);
    PerGroupAgrees(t.columns, w, solve);
    RowFromInput(t, KeepPresent(LP_COLUMNS, t.columns), PerGroup(t.columns, w, solve), k);
  }
}
