/** optimization/cheapest_logic.py: the "cheapest carrier" scenario, which
    gives the whole volume and every container ID of each lane/week group
    to the carrier with the lowest cheapest-rate value. */
module CheapestLogic {
  import opened Wrappers
  import opened Seqs
  import opened Frame
  import opened Groups
  import opened Utils
  import opened Selection

  const STRATEGY := "Cheapest Carrier"

  /** The sort key of a row: the cheapest rate ascending (NaN last), then
      the carrier's text. */
  function CheapRank(r: Shipment): seq<Rank>
  {
    [Ascending(r.cheapest), Word(CarrierText(r.carrier))]
  }

  function Ranks(t: Table): (ranks: seq<seq<Rank>>)
    ensures |ranks| == |t.rows| && forall i :: 0 <= i < |t.rows| ==> ranks[i] == CheapRank(t.rows[i])
  {
    seq(|t.rows|, i requires 0 <= i < |t.rows| => CheapRank(t.rows[i]))
  }

  function GroupColumns(t: Table): seq<Column>
  {
    KeepPresent(SELECTOR_COLUMNS, t.columns)
  }

  /** The first value of a column that is not NaN, or NaN when all are. */
  function FirstSome<T>(g: seq<Shipment>, f: Shipment -> Option<T>): (r: Option<T>)
    ensures r.None? <==> forall i :: 0 <= i < |g| ==> f(g[i]).None?
    ensures |g| > 0 && f(g[0]).Some? ==> r == f(g[0])
  {
    if |g| == 0 then None
    else if f(g[0]).Some? then f(g[0])
    else FirstSome(g[1..], f)
  }

  /** A value found is the value of the first row that has one. */
  lemma {:induction false} FirstSomeIsFirst<T>(g: seq<Shipment>, f: Shipment -> Option<T>)
    ensures var r := FirstSome(g, f);
      r.Some? ==> exists i :: 0 <= i < |g| && f(g[i]) == r && forall j :: 0 <= j < i ==> f(g[j]).None?
  {
    var r := FirstSome(g, f);
    if |g| > 0 && f(g[0]).None? && r.Some? {
      FirstSomeIsFirst(g[1..], f);
      var i :| 0 <= i < |g[1..]| && f(g[1..][i]) == r && forall j :: 0 <= j < i ==> f(g[1..][j]).None?;
      assert f(g[i + 1]) == r;
      assert forall j :: 0 <= j < i + 1 ==> f(g[j]).None? by {
        forall j | 0 <= j < i + 1 ensures f(g[j]).None? {
          if j > 0 {
            assert g[j] == g[1..][j - 1];
          }
        }
      }
    }
  }

  /** `groupby(...).first()`: for each column, the first non-NaN value of
      the group in sorted order. The count column never holds NaN once
      filled with 0, so it is the first row's. */
  function FirstValid(g: seq<Shipment>): (r: Shipment)
    requires |g| > 0
  {
    Shipment(
      FirstSome(g, (s: Shipment) => s.port),
      FirstSome(g, (s: Shipment) => s.category),
      FirstSome(g, (s: Shipment) => s.ssl),
      FirstSome(g, (s: Shipment) => s.vessel),
      FirstSome(g, (s: Shipment) => s.lane),
      FirstSome(g, (s: Shipment) => s.facility),
      FirstSome(g, (s: Shipment) => s.terminal),
      FirstSome(g, (s: Shipment) => s.week),
      FirstSome(g, (s: Shipment) => s.carrier),
      FirstSome(g, (s: Shipment) => s.carrierAlt),
      g[0].count,
      FirstSome(g, (s: Shipment) => s.ids),
      FirstSome(g, (s: Shipment) => s.baseRate),
      FirstSome(g, (s: Shipment) => s.totalRate),
      FirstSome(g, (s: Shipment) => s.cpc),
      FirstSome(g, (s: Shipment) => s.totalCpc),
      FirstSome(g, (s: Shipment) => s.perf),
      FirstSome(g, (s: Shipment) => s.cheapest),
      FirstSome(g, (s: Shipment) => s.totalCost))
  }

  /** The grouping cells of the merged row are the group's key. */
  lemma FirstValidKey(g: seq<Shipment>, cols: seq<Column>, key: seq<Value>)
    requires |g| > 0 && Key(g[0], cols) == key && KeyComplete(key)
    ensures Key(FirstValid(g), cols) == key
  {
    forall i | 0 <= i < |cols| ensures Cell(FirstValid(g), cols[i]) == Cell(g[0], cols[i]) {
      assert Key(g[0], cols)[i] != Missing;
      FirstValidCell(g, cols[i]);
    }
  }

  /** A grouping cell the first row fills is the merged row's. */
  lemma FirstValidCell(g: seq<Shipment>, c: Column)
    requires |g| > 0 && Cell(g[0], c) != Missing
    ensures Cell(FirstValid(g), c) == Cell(g[0], c)
  {
  }

  /** The rows of the group with key `key` after the sort. */
  function Group(t: Table, key: seq<Value>): seq<Shipment>
  {
    SortedGroup(t.rows, Ranks(t), GroupColumns(t), key)
  }

  lemma GroupNonEmpty(t: Table, key: seq<Value>)
    requires key in GroupKeys(t.rows, GroupColumns(t))
    ensures |Group(t, key)| > 0 && Key(Group(t, key)[0], GroupColumns(t)) == key && KeyComplete(key)
  {
    GroupKeysFromRows(t.rows, GroupColumns(t));
    SortedGroupMultiset(t.rows, Ranks(t), GroupColumns(t), key);
    var r :| r in t.rows && Key(r, GroupColumns(t)) == key;
    assert r in Group(t, key);
  }

  /** The output row of a group: its merged first values carrying the
      whole group, then `Total Cost` at the cheapest rate (NaN as 0). */
  function CheapestRow(t: Table, key: seq<Value>): (r: Shipment)
    requires key in GroupKeys(t.rows, GroupColumns(t))
  {
    GroupNonEmpty(t, key);
    var g := Group(t, key);
    var w := WholeGroup(FirstValid(g), g, t.columns);
    w.(totalCost := Some(RateTimes(w.cheapest, w.count)))
  }

  /** One row per group, in ascending key order. */
  function CheapestRows(t: Table): (rows: seq<Shipment>)
    ensures |rows| == |GroupKeys(t.rows, GroupColumns(t))|
    ensures forall k :: 0 <= k < |rows| ==> rows[k] == CheapestRow(t, GroupKeys(t.rows, GroupColumns(t))[k])
  {
    var ks := GroupKeys(t.rows, GroupColumns(t));
    seq(|ks|, k requires 0 <= k < |ks| => CheapestRow(t, ks[k]))
  }

  /** The message of the ValueError raised for a missing column. */
  function Required(c: Column): string
  {
    "Column '" + Header(c) + "' is required to " +
    match c
    case CheapestRate => "compute the cheapest allocation."
    case Carrier => "identify carriers for allocation."
    case _ => "sum container totals."
  }

  /** `allocate_to_cheapest_carrier`: an empty table gives an empty table
      with the same columns; a missing cheapest-rate, carrier or count
      column, or no grouping column, is an error; otherwise one row per
      group, with the Total Cost column added. */
  function AllocateToCheapestCarrier(t: Table): (r: Result<Scenario>)
    ensures t.rows == [] ==> r == Success(Scenario(Table(t.columns, []), None))
    ensures t.rows != [] && CHEAPEST_RATE !in t.columns ==> r == Failure(Required(CHEAPEST_RATE))
    ensures t.rows != [] && CHEAPEST_RATE in t.columns && CARRIER !in t.columns ==> r == Failure(Required(CARRIER))
    ensures t.rows != [] && CHEAPEST_RATE in t.columns && CARRIER in t.columns && COUNT !in t.columns ==>
      r == Failure(Required(COUNT))
    ensures t.rows != [] ==>
      (r.Success? <==> CHEAPEST_RATE in t.columns && CARRIER in t.columns && COUNT in t.columns &&
                       exists c :: c in SELECTOR_COLUMNS && c in t.columns)
    ensures t.rows != [] && r.Success? ==>
      r.value == Scenario(Table(t.columns + {TOTAL_COST}, CheapestRows(t)), Some(STRATEGY))
  {
    if t.rows == [] then Success(Scenario(Table(t.columns, []), None))
    else if CHEAPEST_RATE !in t.columns then Failure(Required(CHEAPEST_RATE))
    else if CARRIER !in t.columns then Failure(Required(CARRIER))
    else if COUNT !in t.columns then Failure(Required(COUNT))
    else
      var cols := PrepareGroupColumns(SELECTOR_COLUMNS, t.columns, []);
      if cols.Failure? then Failure(cols.error)
      else Success(Scenario(Table(t.columns + {TOTAL_COST}, CheapestRows(t)), Some(STRATEGY)))
  }

  lemma CheapestRowKey(t: Table, key: seq<Value>)
    requires key in GroupKeys(t.rows, GroupColumns(t))
    ensures Key(CheapestRow(t, key), GroupColumns(t)) == key
  {
    GroupNonEmpty(t, key);
    var cols := GroupColumns(t);
    var g := Group(t, key);
    var f := FirstValid(g);
    FirstValidKey(g, cols, key);
    WholeGroupKey(f, g, t.columns, cols);
    var w := WholeGroup(f, g, t.columns);
    SameKey(CheapestRow(t, key), w, cols);
  }

  /** A row that sorts no later than another has a cheapest rate no higher,
      counting NaN as the highest. */
  lemma CheapRankMeaning(a: Shipment, b: Shipment)
    requires NoLaterThan(CheapRank(a), CheapRank(b))
    ensures b.cheapest.Some? ==> a.cheapest.Some? && a.cheapest.value <= b.cheapest.value
  {
    assert CheapRank(a) == [Ascending(a.cheapest)] + [Word(CarrierText(a.carrier))];
    assert CheapRank(b) == [Ascending(b.cheapest)] + [Word(CarrierText(b.carrier))];
    NoLater([Ascending(a.cheapest)], [Word(CarrierText(a.carrier))],
            [Ascending(b.cheapest)], [Word(CarrierText(b.carrier))]);
    AscendingNoLater(a.cheapest, b.cheapest);
  }

  /** One row per group: the output rows carry the group keys, each
      complete key of a row once, in ascending order. */
  lemma OneRowPerGroup(t: Table)
    ensures var out := CheapestRows(t);
      var cols := GroupColumns(t);
      (forall k :: 0 <= k < |out| ==> KeyComplete(Key(out[k], cols))) &&
      (forall i, j :: 0 <= i < j < |out| ==> KeyLess(Key(out[i], cols), Key(out[j], cols))) &&
      (forall q :: 0 <= q < |t.rows| && KeyComplete(Key(t.rows[q], cols)) ==>
         exists k :: 0 <= k < |out| && Key(out[k], cols) == Key(t.rows[q], cols))
  {
    var out := CheapestRows(t);
    var cols := GroupColumns(t);
    var ks := GroupKeys(t.rows, cols);
    forall k | 0 <= k < |out| ensures Key(out[k], cols) == ks[k] {
      CheapestRowKey(t, ks[k]);
    }
    forall q | 0 <= q < |t.rows| && KeyComplete(Key(t.rows[q], cols))
      ensures exists k :: 0 <= k < |out| && Key(out[k], cols) == Key(t.rows[q], cols)
    {
      assert t.rows[q] in t.rows;
      var k := IndexOf(ks, Key(t.rows[q], cols));
      assert Key(out[k], cols) == ks[k];
    }
  }

  /** The first row of the sorted group has the group's lowest cheapest
      rate, and a NaN rate only when every row's is NaN. */
  lemma FirstIsCheapest(t: Table, key: seq<Value>, j: nat)
    requires j < |Group(t, key)|
    ensures var g := Group(t, key);
      g[j].cheapest.Some? ==> g[0].cheapest.Some? && g[0].cheapest.value <= g[j].cheapest.value
  {
    var g := Group(t, key);
    if j > 0 {
      GroupInOrder(t, key, j);
      CheapRankMeaning(g[0], g[j]);
    }
  }

  lemma GroupInOrder(t: Table, key: seq<Value>, j: nat)
    requires 0 < j < |Group(t, key)|
    ensures NoLaterThan(CheapRank(Group(t, key)[0]), CheapRank(Group(t, key)[j]))
  {
    SortedGroupInOrder(t.rows, CheapRank, Ranks(t), GroupColumns(t), key);
  }

  /** The merged row takes its cheapest rate, and its carrier when named,
      from the first row of the sorted group. */
  lemma MergedFromFirst(t: Table, key: seq<Value>)
    requires key in GroupKeys(t.rows, GroupColumns(t))
    ensures |Group(t, key)| > 0
    ensures var out, first := CheapestRow(t, key), Group(t, key)[0];
      out.cheapest == first.cheapest &&
      (first.carrier.Some? ==> out.carrier == first.carrier) &&
      out.totalCost == Some(RateTimes(out.cheapest, out.count))
  {
    GroupNonEmpty(t, key);
    var g := Group(t, key);
    if g[0].cheapest.None? {
      forall j | 0 <= j < |g| ensures g[j].cheapest.None? {
        FirstIsCheapest(t, key, j);
      }
    }
  }

  /** The rows of a group, by membership. */
  predicate InGroup(t: Table, key: seq<Value>, r: Shipment)
  {
    r in t.rows && Key(r, GroupColumns(t)) == key
  }

  lemma NoCheaperRow(t: Table, key: seq<Value>, r: Shipment)
    requires key in GroupKeys(t.rows, GroupColumns(t)) && InGroup(t, key, r) && r.cheapest.Some?
    ensures |Group(t, key)| > 0
    ensures var first := Group(t, key)[0]; first.cheapest.Some? && first.cheapest.value <= r.cheapest.value
  {
    GroupNonEmpty(t, key);
    var g := Group(t, key);
    SortedGroupMultiset(t.rows, Ranks(t), GroupColumns(t), key);
    assert r in g;
    var j :| 0 <= j < |g| && g[j] == r;
    FirstIsCheapest(t, key, j);
  }

  /** The output's cheapest rate is the lowest of its group's rows, NaN
      only when all of them are, and the Total Cost is that rate (NaN as
      0) times the group's volume. */
  lemma CheapestRateIsGroupMinimum(t: Table, k: nat)
    requires k < |CheapestRows(t)|
    ensures var out := CheapestRows(t)[k];
      var key := GroupKeys(t.rows, GroupColumns(t))[k];
      (out.cheapest.None? <==> forall r :: InGroup(t, key, r) ==> r.cheapest.None?) &&
      (out.cheapest.Some? ==>
         (exists r :: InGroup(t, key, r) && r.cheapest == out.cheapest) &&
         forall r :: InGroup(t, key, r) && r.cheapest.Some? ==> out.cheapest.value <= r.cheapest.value) &&
      out.totalCost == Some(RateTimes(out.cheapest, out.count))
  {
    var key := GroupKeys(t.rows, GroupColumns(t))[k];
    MergedFromFirst(t, key);
    var g := Group(t, key);
    SortedGroupMultiset(t.rows, Ranks(t), GroupColumns(t), key);
    forall r | InGroup(t, key, r) && r.cheapest.Some?
      ensures g[0].cheapest.Some? && g[0].cheapest.value <= r.cheapest.value
    {
      NoCheaperRow(t, key, r);
    }
    assert InGroup(t, key, g[0]) by {
      assert g[0] in g;
    }
  }

  /** The output's carrier is a carrier of the group that offers the
      group's lowest cheapest rate, when every row names its carrier. */
  lemma CarrierOffersCheapestRate(t: Table, k: nat)
    requires k < |CheapestRows(t)|
    requires forall r :: r in t.rows ==> r.carrier.Some?
    ensures var out := CheapestRows(t)[k];
      var key := GroupKeys(t.rows, GroupColumns(t))[k];
      exists r :: InGroup(t, key, r) && r.carrier == out.carrier && r.cheapest == out.cheapest
  {
    var key := GroupKeys(t.rows, GroupColumns(t))[k];
    MergedFromFirst(t, key);
    var g := Group(t, key);
    SortedGroupMultiset(t.rows, Ranks(t), GroupColumns(t), key);
    assert InGroup(t, key, g[0]) by {
      assert g[0] in g;
    }
  }

  /** The output's count is its group's summed count when there is no IDs
      column, and otherwise the number of IDs in the group's cells, joined
      in sorted order; the totals follow the new count. */
  lemma CheapestTakesGroupVolume(t: Table, k: nat)
    requires k < |CheapestRows(t)|
    ensures var out := CheapestRows(t)[k];
      var key := GroupKeys(t.rows, GroupColumns(t))[k];
      (IDS !in t.columns ==> out.count == SumCounts(RowsWithKey(t.rows, GroupColumns(t), key))) &&
      (IDS in t.columns ==>
         ParseContainerIds(out.ids) == AllContainerIds(ShipmentIdCells(Group(t, key))) &&
         out.count == |AllContainerIds(ShipmentIdCells(Group(t, key)))|) &&
      (BASE_RATE in t.columns ==> out.totalRate == Some(RateTimes(out.baseRate, out.count))) &&
      (CPC in t.columns ==> out.totalCpc == Some(RateTimes(out.cpc, out.count)))
  {
    var key := GroupKeys(t.rows, GroupColumns(t))[k];
    GroupNonEmpty(t, key);
    SortedGroupMultiset(t.rows, Ranks(t), GroupColumns(t), key);
  }
}
