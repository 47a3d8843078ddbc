/** The allocation table every component works on: one row per
    (lane, week, facility, ..., carrier) with its container count, the
    comma-separated container IDs and the rate and performance columns.
    A pandas NaN cell is `None`; a column that is absent from the table is
    recorded in `Table.columns`. */
module Frame {
  import opened Wrappers

  /** The columns of the allocation table the core reads or writes. */
  datatype Column =
    | Port | Category | Ssl | Vessel | Lane | Facility | Terminal | Week
    | Carrier | CarrierAlt | Count | Ids | BaseRate | TotalRate | Cpc | TotalCpc | Performance
    | CheapestRate | TotalCost

  /** The column's header in the source's DataFrames. */
  function Header(c: Column): string
  {
    match c
    case Port => "Discharged Port"
    case Category => "Category"
    case Ssl => "SSL"
    case Vessel => "Vessel"
    case Lane => "Lane"
    case Facility => "Facility"
    case Terminal => "Terminal"
    case Week => "Week Number"
    case Carrier => "Dray SCAC(FL)"
    case CarrierAlt => "Carrier"
    case Count => "Container Count"
    case Ids => "Container Numbers"
    case BaseRate => "Base Rate"
    case TotalRate => "Total Rate"
    case Cpc => "CPC"
    case TotalCpc => "Total CPC"
    case Performance => "Performance_Score"
    case CheapestRate => "Cheapest Base Rate"
    case TotalCost => "Total Cost"
  }

  /** The error pandas raises when a table is indexed by a column it lacks. */
  function KeyError(c: Column): string
  {
    "KeyError: " + Header(c)
  }

  const PORT := Port
  const CATEGORY := Category
  const SSL := Ssl
  const VESSEL := Vessel
  const LANE := Lane
  const FACILITY := Facility
  const TERMINAL := Terminal
  const WEEK := Week
  const CARRIER := Carrier
  const CARRIER_ALT := CarrierAlt
  const COUNT := Count
  const IDS := Ids
  const BASE_RATE := BaseRate
  const TOTAL_RATE := TotalRate
  const CPC := Cpc
  const TOTAL_CPC := TotalCpc
  const PERFORMANCE := Performance
  const CHEAPEST_RATE := CheapestRate
  const TOTAL_COST := TotalCost

  /** A grouping-key cell. */
  datatype Value = Missing | Str(s: string) | Int(i: int)

  datatype Shipment = Shipment(
    port: Option<string>,
    category: Option<string>,
    ssl: Option<string>,
    vessel: Option<string>,
    lane: Option<string>,
    facility: Option<string>,
    terminal: Option<string>,
    week: Option<int>,
    carrier: Option<string>,
    carrierAlt: Option<string>,
    count: int,
    ids: Option<string>,
    baseRate: Option<real>,
    totalRate: Option<real>,
    cpc: Option<real>,
    totalCpc: Option<real>,
    perf: Option<real>,
    cheapest: Option<real>,
    totalCost: Option<real>)

  datatype Table = Table(columns: set<Column>, rows: seq<Shipment>)

  function StrCell(v: Option<string>): Value
  {
    match v
    case Some(s) => Str(s)
    case None => Missing
  }

  /** The cell of a grouping column. */
  function Cell(r: Shipment, col: Column): Value
  {
    match col
    case Port => StrCell(r.port)
    case Category => StrCell(r.category)
    case Ssl => StrCell(r.ssl)
    case Vessel => StrCell(r.vessel)
    case Lane => StrCell(r.lane)
    case Facility => StrCell(r.facility)
    case Terminal => StrCell(r.terminal)
    case Week => (match r.week case Some(w) => Int(w) case None => Missing)
    case Carrier => StrCell(r.carrier)
    case CarrierAlt => StrCell(r.carrierAlt)
    case _ => Missing
  }

  /** The grouping key of a row: its cells in the grouping columns. */
  function Key(r: Shipment, cols: seq<Column>): (k: seq<Value>)
    ensures |k| == |cols|
  {
    seq(|cols|, i requires 0 <= i < |cols| => Cell(r, cols[i]))
  }

  /** The cells a key can hold. */
  predicate SameKeyCells(a: Shipment, b: Shipment)
  {
    a.port == b.port && a.category == b.category && a.ssl == b.ssl && a.vessel == b.vessel &&
    a.lane == b.lane && a.facility == b.facility && a.terminal == b.terminal && a.week == b.week &&
    a.carrier == b.carrier && a.carrierAlt == b.carrierAlt
  }

  /** Rows that agree on every grouping cell have the same key. */
  lemma SameKey(a: Shipment, b: Shipment, cols: seq<Column>)
    requires SameKeyCells(a, b)
    ensures Key(a, cols) == Key(b, cols)
  {
    assert forall i :: 0 <= i < |cols| ==> Cell(a, cols[i]) == Cell(b, cols[i]);
  }

  /** pandas `groupby(..., dropna=True)` leaves out rows with a NaN key cell. */
  predicate KeyComplete(k: seq<Value>)
  {
    forall i :: 0 <= i < |k| ==> k[i] != Missing
  }

  function SumCounts(rows: seq<Shipment>): int
  {
    if |rows| == 0 then 0 else SumCounts(rows[..|rows| - 1]) + rows[|rows| - 1].count
  }

  lemma {:induction false} SumCountsAppend(a: seq<Shipment>, b: seq<Shipment>)
    ensures SumCounts(a + b) == SumCounts(a) + SumCounts(b)
    decreases |b|
  {
    if |b| == 0 {
      assert a + b == a;
    } else {
      assert (a + b)[..|a + b| - 1] == a + b[..|b| - 1];
      SumCountsAppend(a, b[..|b| - 1]);
    }
  }

  /** The rows of a group, in table order (a pandas group). */
  function RowsWithKey(rows: seq<Shipment>, cols: seq<Column>, key: seq<Value>): (g: seq<Shipment>)
    ensures |g| <= |rows|
    ensures forall i :: 0 <= i < |g| ==> Key(g[i], cols) == key && g[i] in rows
    ensures forall i :: 0 <= i < |rows| && Key(rows[i], cols) == key ==> rows[i] in g
  {
    if |rows| == 0 then []
    else
      var g := RowsWithKey(rows[..|rows| - 1], cols, key);
      assert forall i :: 0 <= i < |rows| - 1 ==> rows[..|rows| - 1][i] == rows[i];
      if Key(rows[|rows| - 1], cols) == key then g + [rows[|rows| - 1]] else g
  }
}
