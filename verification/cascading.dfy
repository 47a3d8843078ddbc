/** The row loop of `_cascading_allocate_single_group`
    (optimization/cascading_logic.py): one result row per carrier with a
    non-zero count, the group's container IDs handed out in order, the
    leftover IDs given to the first row, IDs deduplicated across rows and
    the shares and costs recomputed; then the single group as a whole and
    `cascading_allocate_with_constraints` over all groups. */
module Cascading {
  import opened Wrappers
  import opened Seqs
  import opened Text
  import opened Frame
  import opened Groups
  import opened Utils
  import opened HistoricVolume
  import opened CascadeAllocation
  import opened CascadeGroup

  /** The container-IDs cell of each result row. */
  function IdCells(rows: seq<AllocatedRow>): (cells: seq<Option<string>>)
    ensures |cells| == |rows| && forall k :: 0 <= k < |rows| ==> cells[k] == rows[k].row.ids
  {
    seq(|rows|, k requires 0 <= k < |rows| => rows[k].row.ids)
  }

  /** The container count of each result row. */
  function RowCounts(rows: seq<AllocatedRow>): (cs: seq<int>)
    ensures |cs| == |rows| && forall k :: 0 <= k < |rows| ==> cs[k] == rows[k].row.count
  {
    seq(|rows|, k requires 0 <= k < |rows| => rows[k].row.count)
  }

  /** What the row loop gives one carrier: its new count and, while the
      pool lasts, the IDs it takes from the pool (`None` once the pool is
      empty: the row keeps its own IDs cell). */
  datatype Slice = Slice(carrier: Carrier, count: int, taken: Option<seq<string>>)

  /** The slices handed out so far and what is left of the pool. */
  datatype Handout = Handout(slices: seq<Slice>, left: seq<string>)

  /** Every carrier of the allocation has a row in the group. */
  predicate InData(carriers: seq<Carrier>, data: map<Carrier, Shipment>)
  {
    forall i :: 0 <= i < |carriers| ==> carriers[i] in data
  }

  /** One turn of the row loop: a carrier with a non-zero count takes the
      next `min(count, len(remaining))` IDs of the pool while the pool
      lasts. */
  function HandStep(h: Handout, c: Carrier, count: int): Handout
  {
    if count == 0 then h
    else if |h.left| > 0 then
      var k := Min(count, |h.left|);
      Handout(h.slices + [Slice(c, count, Some(PyTake(h.left, k)))], PyDrop(h.left, k))
    else Handout(h.slices + [Slice(c, count, None)], h.left)
  }

  /** The row loop over the first `n` carriers of the allocation. */
  function HandOut(carriers: seq<Carrier>, counts: seq<int>, pool: seq<string>, n: nat): Handout
    requires n <= |carriers| == |counts|
  {
    if n == 0 then Handout([], pool)
    else HandStep(HandOut(carriers, counts, pool, n - 1), carriers[n - 1], counts[n - 1])
  }

  /** The carrier of each slice. */
  function SliceCarriers(slices: seq<Slice>): (cs: seq<Carrier>)
    ensures |cs| == |slices| && forall k :: 0 <= k < |slices| ==> cs[k] == slices[k].carrier
  {
    seq(|slices|, k requires 0 <= k < |slices| => slices[k].carrier)
  }

  /** The count of each slice. */
  function SliceCounts(slices: seq<Slice>): (cs: seq<int>)
    ensures |cs| == |slices| && forall k :: 0 <= k < |slices| ==> cs[k] == slices[k].count
  {
    seq(|slices|, k requires 0 <= k < |slices| => slices[k].count)
  }

  /** The IDs taken from the pool by the slices, in order. */
  function Taken(slices: seq<Slice>): seq<string>
  {
    if |slices| == 0 then []
    else
      var s := slices[|slices| - 1];
      Taken(slices[..|slices| - 1]) + (if s.taken.Some? then s.taken.value else [])
  }

  /** The result row of a slice: a copy of its carrier's last row of the
      group with the new count and IDs, the carrier's rank and shares, and
      the recomputed costs. */
  function RowOfSlice(s: Slice, data: map<Carrier, Shipment>, ranks: map<Carrier, int>, hist: map<Carrier, real>,
                      total: int, g: real): AllocatedRow
    requires s.carrier in data
  {
    var base := data[s.carrier];
    EmittedRow(base, s.count, IdsAfter(s.taken, base.ids), RankOf(ranks, s.carrier), HistOf(hist, s.carrier), total, g)
  }

  /** The result rows of the slices. */
  function Rows(slices: seq<Slice>, data: map<Carrier, Shipment>, ranks: map<Carrier, int>, hist: map<Carrier, real>,
                total: int, g: real): (rows: seq<AllocatedRow>)
    requires forall k :: 0 <= k < |slices| ==> slices[k].carrier in data
    ensures |rows| == |slices|
    ensures forall k :: 0 <= k < |slices| ==> rows[k] == RowOfSlice(slices[k], data, ranks, hist, total, g)
  {
    seq(|slices|, k requires 0 <= k < |slices| => RowOfSlice(slices[k], data, ranks, hist, total, g))
  }

  /** The result row of a carrier: its last row of the group with only the
      count, the IDs and the costs changed; each cost is the rate times the
      new count where the rate is known; the rank and the historical share
      of its carrier, the new share of the group total, and the volume
      change and growth flag those shares give. */
  ghost predicate RowOf(r: AllocatedRow, data: map<Carrier, Shipment>, ranks: map<Carrier, int>, hist: map<Carrier, real>,
                        total: int, g: real)
  {
    var c := r.row.carrier;
    c in data &&
    var base := data[c];
    r.row == base.(count := r.row.count, ids := r.row.ids, totalRate := r.row.totalRate, totalCpc := r.row.totalCpc) &&
    (base.baseRate.Some? ==> r.row.totalRate == Times(base.baseRate, r.row.count)) &&
    (base.baseRate.None? ==> r.row.totalRate == base.totalRate) &&
    (base.cpc.Some? ==> r.row.totalCpc == Times(base.cpc, r.row.count)) &&
    (base.cpc.None? ==> r.row.totalCpc == base.totalCpc) &&
    r.rank == RankOf(ranks, c) && r.historicalPct == HistOf(hist, c) &&
    r.newPct == SharePct(r.row.count, total) &&
    r.change == ChangeOf(r.newPct, r.historicalPct) &&
    r.growthConstrained == (r.newPct >= GrowthLimit(r.historicalPct, g) - 0.1)
  }

  /** Each result row is its slice's carrier's row as `RowOf` describes,
      with the slice's count, and the IDs it took (joined) or else its own. */
  lemma RowsOf(slices: seq<Slice>, data: map<Carrier, Shipment>, ranks: map<Carrier, int>, hist: map<Carrier, real>,
               total: int, g: real, k: nat)
    requires k < |slices| && forall j :: 0 <= j < |slices| ==> slices[j].carrier in data
    requires KeyedByCarrier(data)
    ensures var r := Rows(slices, data, ranks, hist, total, g)[k];
      RowOf(r, data, ranks, hist, total, g) && r.row.carrier == slices[k].carrier &&
      r.row.count == slices[k].count && r.row.ids == IdsAfter(slices[k].taken, data[slices[k].carrier].ids)
  {
    var r := Rows(slices, data, ranks, hist, total, g)[k];
    var base := data[slices[k].carrier];
    assert r.row.carrier == slices[k].carrier && r.row.count == slices[k].count;
    assert base == data[r.row.carrier];
    assert r.row.totalRate == (if base.baseRate.Some? then Times(base.baseRate, r.row.count) else base.totalRate);
    assert r.row.totalCpc == (if base.cpc.Some? then Times(base.cpc, r.row.count) else base.totalCpc);
  }

  /** One more slice is one more row. */
  lemma RowsSnoc(slices: seq<Slice>, s: Slice, data: map<Carrier, Shipment>, ranks: map<Carrier, int>, hist: map<Carrier, real>,
                 total: int, g: real)
    requires s.carrier in data && forall j :: 0 <= j < |slices| ==> slices[j].carrier in data
    ensures Rows(slices + [s], data, ranks, hist, total, g) ==
            Rows(slices, data, ranks, hist, total, g) + [RowOfSlice(s, data, ranks, hist, total, g)]
  {
    assert forall j :: 0 <= j < |slices + [s]| ==> (slices + [s])[j].carrier in data;
  }

  /** Each slice has a non-zero count and belongs to one of `cs`. */
  predicate SlicesOf(slices: seq<Slice>, cs: seq<Carrier>)
  {
    forall k :: 0 <= k < |slices| ==> slices[k].count != 0 && slices[k].carrier in cs
  }

  /** Each slice belongs to one of the carriers handed out so far, with a
      non-zero count. */
  lemma {:induction false} HandOutSlices(carriers: seq<Carrier>, counts: seq<int>, pool: seq<string>, n: nat)
    requires n <= |carriers| == |counts|
    ensures SlicesOf(HandOut(carriers, counts, pool, n).slices, carriers[..n])
  {
    if n > 0 {
      HandOutSlices(carriers, counts, pool, n - 1);
      var slices := HandOut(carriers, counts, pool, n - 1).slices;
      var slices' := HandOut(carriers, counts, pool, n).slices;
      assert carriers[..n] == carriers[..n - 1] + [carriers[n - 1]];
      forall k | 0 <= k < |slices'|
        ensures slices'[k].count != 0 && slices'[k].carrier in carriers[..n]
      {
        if k < |slices| {
          assert slices'[k] == slices[k];
        }
      }
    }
  }

  /** Every slice's carrier has a row in the group. */
  lemma SlicesInData(carriers: seq<Carrier>, counts: seq<int>, data: map<Carrier, Shipment>, pool: seq<string>, n: nat)
    requires n <= |carriers| == |counts| && InData(carriers, data)
    ensures forall k :: 0 <= k < |HandOut(carriers, counts, pool, n).slices| ==>
      HandOut(carriers, counts, pool, n).slices[k].carrier in data
  {
    HandOutSlices(carriers, counts, pool, n);
    var slices := HandOut(carriers, counts, pool, n).slices;
    forall k | 0 <= k < |slices|
      ensures slices[k].carrier in data
    {
      var i :| 0 <= i < n && carriers[..n][i] == slices[k].carrier;
      assert carriers[i] == carriers[..n][i];
    }
  }

  /** The slices' counts add up to the carriers' counts: the row loop
      drops only zero counts. */
  lemma {:induction false} HandOutCounts(carriers: seq<Carrier>, counts: seq<int>, pool: seq<string>, n: nat)
    requires n <= |carriers| == |counts|
    ensures SumInt(SliceCounts(HandOut(carriers, counts, pool, n).slices)) == SumInt(counts[..n])
  {
    if n > 0 {
      var slices := HandOut(carriers, counts, pool, n - 1).slices;
      var slices' := HandOut(carriers, counts, pool, n).slices;
      HandOutCounts(carriers, counts, pool, n - 1);
      assert counts[..n] == counts[..n - 1] + [counts[n - 1]];
      SumIntAppend(counts[..n - 1], [counts[n - 1]]);
      if counts[n - 1] != 0 {
        assert SliceCounts(slices') == SliceCounts(slices) + [counts[n - 1]];
        SumIntAppend(SliceCounts(slices), [counts[n - 1]]);
      }
    }
  }

  /** Every carrier with a non-zero count gets a slice. */
  lemma {:induction false} HandOutCovers(carriers: seq<Carrier>, counts: seq<int>, pool: seq<string>, n: nat)
    requires n <= |carriers| == |counts|
    ensures forall i :: 0 <= i < n && counts[i] != 0 ==> carriers[i] in SliceCarriers(HandOut(carriers, counts, pool, n).slices)
  {
    if n > 0 {
      HandOutCovers(carriers, counts, pool, n - 1);
      if counts[n - 1] != 0 {
        var slices := HandOut(carriers, counts, pool, n - 1).slices;
        assert SliceCarriers(HandOut(carriers, counts, pool, n).slices) == SliceCarriers(slices) + [carriers[n - 1]];
      }
    }
  }

  /** Distinct carriers give slices of distinct carriers. */
  lemma {:induction false} HandOutDistinct(carriers: seq<Carrier>, counts: seq<int>, pool: seq<string>, n: nat)
    requires n <= |carriers| == |counts| && NoDup(carriers)
    ensures NoDup(SliceCarriers(HandOut(carriers, counts, pool, n).slices))
  {
    if n > 0 {
      HandOutDistinct(carriers, counts, pool, n - 1);
      if counts[n - 1] != 0 {
        var slices := HandOut(carriers, counts, pool, n - 1).slices;
        var c := carriers[n - 1];
        assert SliceCarriers(HandOut(carriers, counts, pool, n).slices) == SliceCarriers(slices) + [c];
        HandOutSlices(carriers, counts, pool, n - 1);
        assert c !in carriers[..n - 1];
        assert c !in SliceCarriers(slices);
      }
    }
  }

  /** The row loop hands out the pool in order: the IDs taken by the
      slices, followed by what is left, are the pool. */
  lemma {:induction false} HandOutTaken(carriers: seq<Carrier>, counts: seq<int>, pool: seq<string>, n: nat)
    requires n <= |carriers| == |counts|
    ensures var h := HandOut(carriers, counts, pool, n); Taken(h.slices) + h.left == pool
  {
    if n > 0 {
      var h := HandOut(carriers, counts, pool, n - 1);
      HandOutTaken(carriers, counts, pool, n - 1);
      var h' := HandOut(carriers, counts, pool, n);
      if counts[n - 1] != 0 {
        assert h'.slices[..|h'.slices| - 1] == h.slices;
        if |h.left| > 0 {
          var k := Min(counts[n - 1], |h.left|);
          assert Taken(h'.slices) == Taken(h.slices) + PyTake(h.left, k);
        }
      }
    }
  }

  /** While nothing has been handed out, the whole pool is left. */
  lemma {:induction false} NothingHandedOut(carriers: seq<Carrier>, counts: seq<int>, pool: seq<string>, n: nat)
    requires n <= |carriers| == |counts|
    requires |HandOut(carriers, counts, pool, n).slices| == 0
    ensures HandOut(carriers, counts, pool, n).left == pool
  {
    if n > 0 {
      NothingHandedOut(carriers, counts, pool, n - 1);
    }
  }

  /** When the pool is not empty, the first slice takes IDs from it. */
  lemma {:induction false} FirstSliceTakes(carriers: seq<Carrier>, counts: seq<int>, pool: seq<string>, n: nat)
    requires n <= |carriers| == |counts|
    requires |pool| > 0 && |HandOut(carriers, counts, pool, n).slices| > 0
    ensures HandOut(carriers, counts, pool, n).slices[0].taken.Some?
  {
    var h := HandOut(carriers, counts, pool, n - 1);
    if |h.slices| > 0 {
      FirstSliceTakes(carriers, counts, pool, n - 1);
    } else {
      NothingHandedOut(carriers, counts, pool, n - 1);
    }
  }

  /** The row loop of `_cascading_allocate_single_group`: one row per
      carrier with a non-zero count, in the order of the allocation, and
      what is left of the pool. */
  method BuildRows(carriers: seq<Carrier>, counts: seq<int>, data: map<Carrier, Shipment>, pool: seq<string>,
                   ranks: map<Carrier, int>, hist: map<Carrier, real>, total: int, g: real)
    returns (rows: seq<AllocatedRow>, left: seq<string>)
    requires |counts| == |carriers| && InData(carriers, data)
    ensures var h := HandOut(carriers, counts, pool, |carriers|);
      (forall k :: 0 <= k < |h.slices| ==> h.slices[k].carrier in data) &&
      rows == Rows(h.slices, data, ranks, hist, total, g) && left == h.left
  {
    rows, left := [], pool;
    var i := 0;
    while i < |carriers|
      invariant 0 <= i <= |carriers|
      invariant var h := HandOut(carriers, counts, pool, i);
        (forall k :: 0 <= k < |h.slices| ==> h.slices[k].carrier in data) &&
        rows == Rows(h.slices, data, ranks, hist, total, g) && left == h.left
    {
      var c := carriers[i];
      var n := counts[i];
      SlicesInData(carriers, counts, data, pool, i + 1);
      if n != 0 {
        var taken := None;
        if |left| > 0 {
          var k := Min(n, |left|);
          taken := Some(PyTake(left, k));
          left := PyDrop(left, k);
        }
        var r := EmittedRow(data[c], n, IdsAfter(taken, data[c].ids), RankOf(ranks, c), HistOf(hist, c), total, g);
        RowsSnoc(HandOut(carriers, counts, pool, i).slices, Slice(c, n, taken), data, ranks, hist, total, g);
        rows := rows + [r];
      }
      i := i + 1;
    }
  }

  // ---------------------------------------------------------------------
  // The container IDs of the rows
  // ---------------------------------------------------------------------

  /** The set of the elements of a sequence. */
  ghost function Elems(s: seq<string>): set<string>
  {
    set x | x in s
  }

  lemma ElemsAppend(a: seq<string>, b: seq<string>)
    ensures Elems(a + b) == Elems(a) + Elems(b)
  {
  }

  /** The IDs of a slice's row: those it took from the pool, or else its
      carrier's own. */
  function SliceIdList(s: Slice, data: map<Carrier, Shipment>): seq<string>
    requires s.carrier in data
  {
    if s.taken.Some? then s.taken.value else ParseContainerIds(data[s.carrier].ids)
  }

  /** The IDs of the slices' rows, row after row. */
  function IdsOfSlices(slices: seq<Slice>, data: map<Carrier, Shipment>): seq<string>
    requires forall k :: 0 <= k < |slices| ==> slices[k].carrier in data
  {
    if |slices| == 0 then []
    else IdsOfSlices(slices[..|slices| - 1], data) + SliceIdList(slices[|slices| - 1], data)
  }

  /** The IDs of all rows after one more row. */
  lemma RowIdsAfter(rows: seq<AllocatedRow>, r: AllocatedRow)
    ensures AllContainerIds(IdCells(rows + [r])) == AllContainerIds(IdCells(rows)) + ParseContainerIds(r.row.ids)
  {
    var cells' := IdCells(rows + [r]);
    assert cells'[..|rows|] == IdCells(rows);
    AllContainerIdsSnoc(cells');
  }

  /** Parsing the IDs cells of the rows gives back the IDs the rows took
      (their joined cells parse back, since pool IDs are well-formed) and
      the own IDs of the others. */
  lemma {:induction false} RowIds(slices: seq<Slice>, data: map<Carrier, Shipment>, ranks: map<Carrier, int>,
                                  hist: map<Carrier, real>, total: int, g: real)
    requires forall k :: 0 <= k < |slices| ==> slices[k].carrier in data
    requires AllWellFormed(Taken(slices))
    ensures AllContainerIds(IdCells(Rows(slices, data, ranks, hist, total, g))) == IdsOfSlices(slices, data)
  {
    if |slices| > 0 {
      var init := slices[..|slices| - 1];
      var s := slices[|slices| - 1];
      assert slices == init + [s];
      var t := if s.taken.Some? then s.taken.value else [];
      AllWellFormedAppend(Taken(init), t);
      RowIds(init, data, ranks, hist, total, g);
      RowsSnoc(init, s, data, ranks, hist, total, g);
      RowIdsAfter(Rows(init, data, ranks, hist, total, g), RowOfSlice(s, data, ranks, hist, total, g));
      if s.taken.Some? {
        ParseJoined(t);
      }
    }
  }

  /** The rows hold every ID the slices took, and besides those only IDs
      of the group. */
  lemma {:induction false} IdsOfSlicesBounds(slices: seq<Slice>, data: map<Carrier, Shipment>, groupIds: set<string>)
    requires forall k :: 0 <= k < |slices| ==> slices[k].carrier in data
    requires OwnIdsIn(data, groupIds)
    ensures Elems(Taken(slices)) <= Elems(IdsOfSlices(slices, data)) <= Elems(Taken(slices)) + groupIds
  {
    if |slices| > 0 {
      var init := slices[..|slices| - 1];
      var s := slices[|slices| - 1];
      var t := if s.taken.Some? then s.taken.value else [];
      IdsOfSlicesBounds(init, data, groupIds);
      ElemsAppend(Taken(init), t);
      ElemsAppend(IdsOfSlices(init, data), SliceIdList(s, data));
      if s.taken.None? {
        assert Elems(ParseContainerIds(data[s.carrier].ids)) <= groupIds;
      }
    }
  }

  /** Every carrier's own IDs are among the IDs of the group. */
  ghost predicate OwnIdsIn(data: map<Carrier, Shipment>, groupIds: set<string>)
  {
    forall c :: c in data ==> Elems(ParseContainerIds(data[c].ids)) <= groupIds
  }

  /** The row a carrier's data comes from is a row of the group, so its IDs
      are IDs of the group. */
  lemma OwnIds(group: seq<Shipment>)
    ensures OwnIdsIn(CarrierData(group), Elems(AllContainerIds(ShipmentIdCells(group))))
  {
    var data := CarrierData(group);
    forall c, x | c in data && x in ParseContainerIds(data[c].ids)
      ensures x in AllContainerIds(ShipmentIdCells(group))
    {
      var j := CarrierDataLast(group, c);
      IdOfCell(ShipmentIdCells(group), j, x);
    }
  }

  /** The IDs the first slice took come first. */
  lemma {:induction false} TakenFirst(slices: seq<Slice>)
    requires |slices| > 0 && slices[0].taken.Some?
    ensures Taken(slices) == slices[0].taken.value + Taken(slices[1..])
  {
    if |slices| > 1 {
      var init := slices[..|slices| - 1];
      TakenFirst(init);
      assert init[1..] == slices[1..][..|slices| - 2];
    }
  }

  // ---------------------------------------------------------------------
  // The leftover IDs
  // ---------------------------------------------------------------------

  /** Assigning the IDs left after the row loop to the first row: appended
      to its IDs when it has some, else replacing its (empty) cell. The
      first row's cell is never NaN here when IDs are left over (see
      `FirstSliceTakes`). */
  function AddLeftover(rows: seq<AllocatedRow>, left: seq<string>): (rows': seq<AllocatedRow>)
    ensures |rows'| == |rows|
  {
    if |left| > 0 && |rows| > 0 then
      var first := rows[0].row.ids;
      var joined := if first.Some? && first.value != "" then first.value + ", " + Join(", ", left) else Join(", ", left);
      rows[0 := rows[0].(row := rows[0].row.(ids := Some(joined)))]
    else rows
  }

  /** Joining well-formed IDs gives the empty string only for no IDs. */
  lemma JoinEmpty(xs: seq<string>)
    requires AllWellFormed(xs)
    ensures Join(", ", xs) == "" <==> |xs| == 0
  {
    if |xs| > 1 {
      assert WellFormedId(xs[0]);
      assert Join(", ", xs) == xs[0] + ", " + Join(", ", xs[1..]);
    } else if |xs| == 1 {
      assert WellFormedId(xs[0]);
    }
  }

  /** The first slice with the leftover IDs appended to what it took. */
  function TakeLeftover(slices: seq<Slice>, left: seq<string>): (slices': seq<Slice>)
    requires |slices| > 0 && slices[0].taken.Some?
    ensures |slices'| == |slices| && slices'[1..] == slices[1..]
    ensures slices'[0] == slices[0].(taken := Some(slices[0].taken.value + left))
  {
    slices[0 := slices[0].(taken := Some(slices[0].taken.value + left))]
  }

  /** Giving the leftover to the first row is the first slice taking the
      leftover IDs after its own: the joined cell is the join of both. */
  lemma LeftoverAsSlice(slices: seq<Slice>, left: seq<string>, data: map<Carrier, Shipment>, ranks: map<Carrier, int>,
                        hist: map<Carrier, real>, total: int, g: real)
    requires |slices| > 0 && |left| > 0 && slices[0].taken.Some?
    requires forall k :: 0 <= k < |slices| ==> slices[k].carrier in data
    requires AllWellFormed(slices[0].taken.value) && AllWellFormed(left)
    ensures var slices' := TakeLeftover(slices, left);
      (forall k :: 0 <= k < |slices'| ==> slices'[k].carrier in data) &&
      AddLeftover(Rows(slices, data, ranks, hist, total, g), left) == Rows(slices', data, ranks, hist, total, g)
  {
    var slices' := TakeLeftover(slices, left);
    assert forall k :: 1 <= k < |slices'| ==> slices'[k] == slices'[1..][k - 1] == slices[k];
    var t := slices[0].taken.value;
    JoinEmpty(t);
    if |t| > 0 {
      JoinAppend(", ", t, left);
    } else {
      assert t + left == left;
    }
    var rows := AddLeftover(Rows(slices, data, ranks, hist, total, g), left);
    var rows' := Rows(slices', data, ranks, hist, total, g);
    assert rows[0] == rows'[0];
  }

  /** After the leftover, the rows have taken the whole pool. */
  lemma TakenWithLeftover(slices: seq<Slice>, left: seq<string>, pool: seq<string>)
    requires |slices| > 0 && slices[0].taken.Some?
    requires Taken(slices) + left == pool
    ensures Elems(Taken(TakeLeftover(slices, left))) == Elems(pool)
    ensures AllWellFormed(pool) ==> AllWellFormed(Taken(TakeLeftover(slices, left)))
  {
    var slices' := TakeLeftover(slices, left);
    var t := slices[0].taken.value;
    var rest := Taken(slices[1..]);
    TakenFirst(slices);
    TakenFirst(slices');
    assert Taken(slices') == t + left + rest;
    assert pool == t + rest + left;
    ElemsAppend(t + left, rest);
    ElemsAppend(t, left);
    ElemsAppend(t + rest, left);
    ElemsAppend(t, rest);
    if AllWellFormed(pool) {
      AllWellFormedAppend(t + rest, left);
      AllWellFormedAppend(t, rest);
      AllWellFormedAppend(t, left);
      AllWellFormedAppend(t + left, rest);
    }
  }

  // ---------------------------------------------------------------------
  // Deduplicating the IDs across rows
  // ---------------------------------------------------------------------

  /** The IDs of the first `i + 1` rows. */
  lemma IdsOfRowPrefix(rows: seq<AllocatedRow>, i: nat)
    requires i < |rows|
    ensures AllContainerIds(IdCells(rows[..i + 1])) == AllContainerIds(IdCells(rows[..i])) + ParseContainerIds(rows[i].row.ids)
  {
    assert rows[..i + 1] == rows[..i] + [rows[i]];
    RowIdsAfter(rows[..i], rows[i]);
  }

  /** The IDs a cell keeps are well-formed: they are IDs of the cell. */
  lemma UnseenWellFormed(ids: seq<string>, seen: set<string>)
    requires AllWellFormed(ids)
    ensures AllWellFormed(Unseen(ids, seen))
  {
    var u := Unseen(ids, seen);
    forall k | 0 <= k < |u|
      ensures WellFormedId(u[k])
    {
      assert u[k] in ids;
      var j :| 0 <= j < |ids| && ids[j] == u[k];
    }
  }

  /** One turn of the inner loop: an ID is kept when neither an earlier
      row nor an earlier place in this cell holds it. */
  lemma UniqueStep(ids: seq<string>, j: nat, seen0: set<string>, seen: set<string>)
    requires j < |ids| && seen == seen0 + Elems(ids[..j])
    ensures Unseen(ids[..j + 1], seen0) == Unseen(ids[..j], seen0) + (if ids[j] in seen then [] else [ids[j]])
    ensures seen + {ids[j]} == seen0 + Elems(ids[..j + 1])
  {
    assert ids[..j + 1][..j] == ids[..j];
    UnseenSnoc(ids[..j + 1], seen0);
    assert ids[..j + 1] == ids[..j] + [ids[j]];
    ElemsAppend(ids[..j], [ids[j]]);
  }

  /** One turn of the outer loop keeps the rows so far deduplicated. */
  lemma DedupeRowStep(before: seq<string>, ids: seq<string>, seen: set<string>)
    requires seen == Elems(before)
    ensures Dedupe(before) + Unseen(ids, seen) == Dedupe(before + ids)
    ensures seen + Elems(ids) == Elems(before + ids)
  {
    DedupeAppend(before, ids);
    ElemsAppend(before, ids);
  }

  /** The IDs held by the cells. */
  ghost function SeenIn(cells: seq<Option<string>>): set<string>
  {
    Elems(AllContainerIds(cells))
  }

  /** A cell deduplicated against the IDs already seen: a NaN or blank
      cell stays, any other keeps its unseen IDs (an empty string when
      none is left). */
  function DedupedCell(cell: Option<string>, seen: set<string>): Option<string>
  {
    if BlankCell(cell) then cell else Some(Join(", ", Unseen(ParseContainerIds(cell), seen)))
  }

  /** The cells deduplicated in order. */
  ghost function DedupeCells(cells: seq<Option<string>>): (out: seq<Option<string>>)
    ensures |out| == |cells|
  {
    if |cells| == 0 then []
    else
      var init := cells[..|cells| - 1];
      DedupeCells(init) + [DedupedCell(cells[|cells| - 1], SeenIn(init))]
  }

  /** Each deduplicated cell is its cell deduplicated against the IDs of
      the cells before it. */
  lemma {:induction false} DedupeCellsAt(cells: seq<Option<string>>, k: nat)
    requires k < |cells|
    ensures DedupeCells(cells)[k] == DedupedCell(cells[k], SeenIn(cells[..k]))
  {
    var init := cells[..|cells| - 1];
    if k < |cells| - 1 {
      DedupeCellsAt(init, k);
      assert init[..k] == cells[..k];
    }
  }

  /** Deduplicating the cells deduplicates the IDs: the cells hold each ID
      of the input cells exactly once, in order of first occurrence. */
  lemma {:induction false} DedupeCellsIds(cells: seq<Option<string>>)
    ensures AllContainerIds(DedupeCells(cells)) == Dedupe(AllContainerIds(cells))
  {
    if |cells| > 0 {
      var init := cells[..|cells| - 1];
      var c := cells[|cells| - 1];
      var before := AllContainerIds(init);
      var ids := ParseContainerIds(c);
      var seen := SeenIn(init);
      DedupeCellsIds(init);
      AllContainerIdsSnoc(cells);
      DedupeRowStep(before, ids, seen);
      var out := DedupeCells(cells);
      assert out[..|out| - 1] == DedupeCells(init);
      AllContainerIdsSnoc(out);
      if BlankCell(c) {
        assert ids == [] && Unseen(ids, seen) == [];
        assert before + [] == before;
      } else {
        UnseenWellFormed(ids, seen);
        ParseJoined(Unseen(ids, seen));
      }
    }
  }

  /** One more cell deduplicated. */
  lemma DedupeCellsSnoc(cells: seq<Option<string>>, i: nat)
    requires i < |cells|
    ensures DedupeCells(cells[..i + 1]) == DedupeCells(cells[..i]) + [DedupedCell(cells[i], SeenIn(cells[..i]))]
    ensures SeenIn(cells[..i + 1]) == SeenIn(cells[..i]) + Elems(ParseContainerIds(cells[i]))
  {
    assert cells[..i + 1][..i] == cells[..i];
    assert cells[..i + 1][i] == cells[i];
    AllContainerIdsSnoc(cells[..i + 1]);
    ElemsAppend(AllContainerIds(cells[..i]), ParseContainerIds(cells[i]));
  }

  /** Replacing the first element after a prefix. */
  lemma ReplaceNext<T>(d: seq<T>, rest: seq<T>, x: T)
    requires |rest| > 0
    ensures (d + rest)[|d| := x] == d + [x] + rest[1..]
  {
  }

  /** The inner loop of the deduplication: the IDs of one cell that are
      not yet seen, each once, and the seen set grown by the cell's IDs. */
  method KeepUnseen(ids: seq<string>, seen0: set<string>) returns (unique: seq<string>, seen: set<string>)
    ensures unique == Unseen(ids, seen0)
    ensures seen == seen0 + Elems(ids)
  {
    unique, seen := [], seen0;
    var j := 0;
    while j < |ids|
      invariant 0 <= j <= |ids|
      invariant unique == Unseen(ids[..j], seen0)
      invariant seen == seen0 + Elems(ids[..j])
    {
      UniqueStep(ids, j, seen0, seen);
      if ids[j] !in seen {
        seen := seen + {ids[j]};
        unique := unique + [ids[j]];
      } else {
        assert seen + {ids[j]} == seen;
      }
      j := j + 1;
    }
    assert ids[..j] == ids;
  }

  /** One turn of the deduplication loop: the `i`-th cell deduplicated
      against the IDs seen so far. */
  method DedupeNext(cells: seq<Option<string>>, i: nat, out: seq<Option<string>>, seen: set<string>)
    returns (out': seq<Option<string>>, seen': set<string>)
    requires i < |cells|
    requires out == DedupeCells(cells[..i]) + cells[i..] && seen == SeenIn(cells[..i])
    ensures out' == DedupeCells(cells[..i + 1]) + cells[i + 1..] && seen' == SeenIn(cells[..i + 1])
  {
    DedupeCellsSnoc(cells, i);
    var cell := cells[i];
    var cell' := cell;
    seen' := seen;
    if cell.Some? && Strip(cell.value) != "" {
      var unique;
      unique, seen' := KeepUnseen(ParseContainerIds(cell), seen);
      cell' := Some(Join(", ", unique));
    } else {
      assert ParseContainerIds(cell) == [];
      assert SeenIn(cells[..i]) + Elems([]) == SeenIn(cells[..i]);
    }
    ReplaceNext(DedupeCells(cells[..i]), cells[i..], cell');
    assert cells[i..][1..] == cells[i + 1..];
    out' := out[i := cell'];
  }

  /** The deduplication loop of `_cascading_allocate_single_group`, on
      the IDs column of the result rows. */
  method DedupeAcrossRows(cells: seq<Option<string>>) returns (out: seq<Option<string>>)
    ensures out == DedupeCells(cells)
  {
    out := cells;
    var seen: set<string> := {};
    var i := 0;
    while i < |cells|
      invariant 0 <= i <= |cells|
      invariant out == DedupeCells(cells[..i]) + cells[i..]
      invariant seen == SeenIn(cells[..i])
    {
      out, seen := DedupeNext(cells, i, out, seen);
      i := i + 1;
    }
    assert cells[..i] == cells;
  }

  /** The rows with their IDs cells replaced. */
  function WithIdCells(rows: seq<AllocatedRow>, cells: seq<Option<string>>): (rows': seq<AllocatedRow>)
    requires |cells| == |rows|
    ensures |rows'| == |rows| && IdCells(rows') == cells
    ensures forall k :: 0 <= k < |rows| ==> rows'[k] == rows[k].(row := rows[k].row.(ids := cells[k]))
  {
    seq(|rows|, k requires 0 <= k < |rows| => rows[k].(row := rows[k].row.(ids := cells[k])))
  }

  // ---------------------------------------------------------------------
  // The recount
  // ---------------------------------------------------------------------

  /** A row after the recount: its share of the summed counts when that
      sum is positive, and each cost column the table has recomputed as
      the rate times the count (NaN where the rate is NaN). */
  function RecountRow(r: AllocatedRow, actual: int, columns: set<Column>): AllocatedRow
  {
    var pct := if actual > 0 then SharePct(r.row.count, actual) else r.newPct;
    var rate := if BASE_RATE in columns then Times(r.row.baseRate, r.row.count) else r.row.totalRate;
    var cpc := if CPC in columns then Times(r.row.cpc, r.row.count) else r.row.totalCpc;
    r.(newPct := pct, row := r.row.(totalRate := rate, totalCpc := cpc))
  }

  /** The recount that closes `_cascading_allocate_single_group` when the
      result has an IDs column. */
  function Recount(rows: seq<AllocatedRow>, columns: set<Column>): (rows': seq<AllocatedRow>)
    ensures |rows'| == |rows|
    ensures forall k :: 0 <= k < |rows| ==> rows'[k] == RecountRow(rows[k], SumInt(RowCounts(rows)), columns)
  {
    var actual := SumInt(RowCounts(rows));
    seq(|rows|, k requires 0 <= k < |rows| => RecountRow(rows[k], actual, columns))
  }

  /** The new share of each row. */
  function NewPcts(rows: seq<AllocatedRow>): (ps: seq<real>)
    ensures |ps| == |rows| && forall k :: 0 <= k < |rows| ==> ps[k] == rows[k].newPct
  {
    seq(|rows|, k requires 0 <= k < |rows| => rows[k].newPct)
  }

  /** Shares of a positive total add up to the share of the summed counts. */
  lemma {:induction false} SharesSum(rows: seq<AllocatedRow>, actual: int)
    requires actual > 0
    requires forall k :: 0 <= k < |rows| ==> rows[k].newPct == SharePct(rows[k].row.count, actual)
    ensures SumReal(NewPcts(rows)) == SumInt(RowCounts(rows)) as real / actual as real * 100.0
  {
    if |rows| > 0 {
      var init := rows[..|rows| - 1];
      var c := rows[|rows| - 1].row.count;
      SharesSum(init, actual);
      assert NewPcts(rows)[..|rows| - 1] == NewPcts(init);
      assert RowCounts(rows)[..|rows| - 1] == RowCounts(init);
      var a := actual as real;
      var sum := SumInt(RowCounts(init)) as real;
      assert sum / a * 100.0 + c as real / a * 100.0 == (sum + c as real) / a * 100.0;
    }
  }

  /** After the recount, the new shares of the rows add up to 100 whenever
      the rows hold any containers. */
  lemma RecountShares(rows: seq<AllocatedRow>, columns: set<Column>)
    requires SumInt(RowCounts(rows)) > 0
    ensures SumReal(NewPcts(Recount(rows, columns))) == 100.0
  {
    var rows' := Recount(rows, columns);
    assert RowCounts(rows') == RowCounts(rows);
    SharesSum(rows', SumInt(RowCounts(rows)));
  }

  // ---------------------------------------------------------------------
  // Assembling the rows of a group
  // ---------------------------------------------------------------------

  /** What every result row of a group keeps: its carrier's last row of
      the group with only the count, the IDs and the costs changed, a
      non-zero count, each cost the rate times the new count where the rate
      is known, the carrier's rank and historical share, and the volume
      change and growth flag of the share the count has of the group total. */
  ghost predicate Kept(r: AllocatedRow, data: map<Carrier, Shipment>, ranks: map<Carrier, int>, hist: map<Carrier, real>,
                       total: int, g: real)
  {
    var c := r.row.carrier;
    var pct := SharePct(r.row.count, total);
    c in data && r.row.count != 0 &&
    var base := data[c];
    r.row == base.(count := r.row.count, ids := r.row.ids, totalRate := r.row.totalRate, totalCpc := r.row.totalCpc) &&
    (base.baseRate.Some? ==> r.row.totalRate == Times(base.baseRate, r.row.count)) &&
    (base.cpc.Some? ==> r.row.totalCpc == Times(base.cpc, r.row.count)) &&
    r.rank == RankOf(ranks, c) && r.historicalPct == HistOf(hist, c) &&
    r.change == ChangeOf(pct, r.historicalPct) &&
    r.growthConstrained == (pct >= GrowthLimit(r.historicalPct, g) - 0.1)
  }

  /** `rows'` is `rows` with only IDs cells changed. */
  predicate IdsOnly(rows: seq<AllocatedRow>, rows': seq<AllocatedRow>)
  {
    |rows'| == |rows| && forall k :: 0 <= k < |rows| ==> rows'[k] == rows[k].(row := rows[k].row.(ids := rows'[k].row.ids))
  }

  /** Changing only IDs cells keeps the counts, the carriers, the shares
      and what each row keeps. */
  lemma IdsOnlyKeeps(rows: seq<AllocatedRow>, rows': seq<AllocatedRow>, data: map<Carrier, Shipment>, ranks: map<Carrier, int>,
                     hist: map<Carrier, real>, total: int, g: real)
    requires IdsOnly(rows, rows')
    ensures RowCounts(rows') == RowCounts(rows) && RowCarriers(rows') == RowCarriers(rows) && NewPcts(rows') == NewPcts(rows)
    ensures (forall k :: 0 <= k < |rows| ==> Kept(rows[k], data, ranks, hist, total, g)) ==>
            (forall k :: 0 <= k < |rows'| ==> Kept(rows'[k], data, ranks, hist, total, g))
  {
  }

  /** The carrier of each result row. */
  function RowCarriers(rows: seq<AllocatedRow>): (cs: seq<Carrier>)
    ensures |cs| == |rows| && forall k :: 0 <= k < |rows| ==> cs[k] == rows[k].row.carrier
  {
    seq(|rows|, k requires 0 <= k < |rows| => rows[k].row.carrier)
  }

  /** The rows of the slices keep what they should, with the share the
      row loop computes. */
  lemma RowsKept(slices: seq<Slice>, cs: seq<Carrier>, data: map<Carrier, Shipment>, ranks: map<Carrier, int>,
                 hist: map<Carrier, real>, total: int, g: real)
    requires SlicesOf(slices, cs) && KeyedByCarrier(data)
    requires forall k :: 0 <= k < |slices| ==> slices[k].carrier in data
    ensures var rows := Rows(slices, data, ranks, hist, total, g);
      RowCarriers(rows) == SliceCarriers(slices) && RowCounts(rows) == SliceCounts(slices) &&
      AllKept(rows, data, ranks, hist, total, g) && SharesOf(rows, total)
  {
    var rows := Rows(slices, data, ranks, hist, total, g);
    forall k | 0 <= k < |rows|
      ensures Kept(rows[k], data, ranks, hist, total, g) && rows[k].newPct == SharePct(rows[k].row.count, total)
    {
      RowsOf(slices, data, ranks, hist, total, g, k);
    }
  }

  /** The recount keeps the counts, the carriers, and what each row keeps;
      with a positive sum of counts each share is the share of that sum,
      and otherwise the shares stay. */
  lemma RecountKeeps(rows: seq<AllocatedRow>, columns: set<Column>, data: map<Carrier, Shipment>, ranks: map<Carrier, int>,
                     hist: map<Carrier, real>, total: int, g: real)
    ensures var rows' := Recount(rows, columns);
      RowCounts(rows') == RowCounts(rows) && RowCarriers(rows') == RowCarriers(rows) && IdCells(rows') == IdCells(rows) &&
      ((forall k :: 0 <= k < |rows| ==> Kept(rows[k], data, ranks, hist, total, g)) ==>
       (forall k :: 0 <= k < |rows'| ==> Kept(rows'[k], data, ranks, hist, total, g))) &&
      (SumInt(RowCounts(rows)) > 0 ==> forall k :: 0 <= k < |rows'| ==> rows'[k].newPct == SharePct(rows'[k].row.count, SumInt(RowCounts(rows)))) &&
      (SumInt(RowCounts(rows)) <= 0 ==> NewPcts(rows') == NewPcts(rows))
  {
  }

  /** The leftover changes only the first row's IDs cell. */
  lemma LeftoverIdsOnly(rows: seq<AllocatedRow>, left: seq<string>)
    ensures IdsOnly(rows, AddLeftover(rows, left))
  {
  }

  /** The rows of the row loop and the leftover, for the counts handed out
      by the cascade. */
  ghost function LoopRows(carriers: seq<Carrier>, counts: seq<int>, data: map<Carrier, Shipment>, pool: seq<string>,
                          ranks: map<Carrier, int>, hist: map<Carrier, real>, total: int, g: real): seq<AllocatedRow>
    requires |counts| == |carriers| && InData(carriers, data)
  {
    var h := HandOut(carriers, counts, pool, |carriers|);
    SlicesInData(carriers, counts, data, pool, |carriers|);
    AddLeftover(Rows(h.slices, data, ranks, hist, total, g), h.left)
  }

  /** The rows after the loop and the leftover: one per carrier with a
      non-zero count and no other, distinct when the carriers are, counts
      adding up to what the cascade handed out, and each row what it keeps
      with its share of the group total. */
  lemma LoopRowsKept(carriers: seq<Carrier>, counts: seq<int>, data: map<Carrier, Shipment>, pool: seq<string>,
                     ranks: map<Carrier, int>, hist: map<Carrier, real>, total: int, g: real)
    requires |counts| == |carriers| && InData(carriers, data) && KeyedByCarrier(data)
    ensures var rows := LoopRows(carriers, counts, data, pool, ranks, hist, total, g);
      SumInt(RowCounts(rows)) == SumInt(counts) &&
      (forall i :: 0 <= i < |carriers| && counts[i] != 0 ==> carriers[i] in RowCarriers(rows)) &&
      (forall k :: 0 <= k < |rows| ==> rows[k].row.carrier in carriers) &&
      (NoDup(carriers) ==> NoDup(RowCarriers(rows))) &&
      AllKept(rows, data, ranks, hist, total, g) && SharesOf(rows, total)
  {
    var n := |carriers|;
    var h := HandOut(carriers, counts, pool, n);
    SlicesInData(carriers, counts, data, pool, n);
    HandOutSlices(carriers, counts, pool, n);
    HandOutCounts(carriers, counts, pool, n);
    HandOutCovers(carriers, counts, pool, n);
    if NoDup(carriers) {
      HandOutDistinct(carriers, counts, pool, n);
    }
    assert carriers[..n] == carriers && counts[..n] == counts;
    var rows0 := Rows(h.slices, data, ranks, hist, total, g);
    RowsKept(h.slices, carriers, data, ranks, hist, total, g);
    LeftoverIdsOnly(rows0, h.left);
    IdsOnlyKeeps(rows0, AddLeftover(rows0, h.left), data, ranks, hist, total, g);
  }

  /** The IDs of the rows after the loop and the leftover: exactly the
      pool, possibly with an ID repeated between a row that took it and a
      row past the end of the pool that kept its own. */
  lemma LoopRowsIds(carriers: seq<Carrier>, counts: seq<int>, data: map<Carrier, Shipment>, pool: seq<string>,
                    ranks: map<Carrier, int>, hist: map<Carrier, real>, total: int, g: real)
    requires |counts| == |carriers| && InData(carriers, data)
    requires AllWellFormed(pool) && OwnIdsIn(data, Elems(pool))
    requires |LoopRows(carriers, counts, data, pool, ranks, hist, total, g)| > 0
    ensures Elems(AllContainerIds(IdCells(LoopRows(carriers, counts, data, pool, ranks, hist, total, g)))) == Elems(pool)
  {
    var n := |carriers|;
    var h := HandOut(carriers, counts, pool, n);
    SlicesInData(carriers, counts, data, pool, n);
    HandOutTaken(carriers, counts, pool, n);
    AllWellFormedAppend(Taken(h.slices), h.left);
    var rows := LoopRows(carriers, counts, data, pool, ranks, hist, total, g);
    if |h.left| > 0 {
      FirstSliceTakes(carriers, counts, pool, n);
      TakenFirst(h.slices);
      AllWellFormedAppend(h.slices[0].taken.value, Taken(h.slices[1..]));
      LeftoverAsSlice(h.slices, h.left, data, ranks, hist, total, g);
      var slices' := TakeLeftover(h.slices, h.left);
      TakenWithLeftover(h.slices, h.left, pool);
      RowIds(slices', data, ranks, hist, total, g);
      IdsOfSlicesBounds(slices', data, Elems(pool));
    } else {
      assert Taken(h.slices) == pool;
      RowIds(h.slices, data, ranks, hist, total, g);
      IdsOfSlicesBounds(h.slices, data, Elems(pool));
    }
  }

  /** Deduplicating the IDs cells leaves every ID of the cells exactly once. */
  lemma DedupedIds(cells: seq<Option<string>>)
    ensures NoDup(AllContainerIds(DedupeCells(cells)))
    ensures Elems(AllContainerIds(DedupeCells(cells))) == Elems(AllContainerIds(cells))
  {
    DedupeCellsIds(cells);
    var ids := AllContainerIds(cells);
    forall x ensures x in Dedupe(ids) <==> x in ids {
      InDedupe(ids, x);
    }
  }

  /** The deduplication across rows and the recount, which run when the
      table has an IDs column. */
  ghost function Cleaned(rows: seq<AllocatedRow>, columns: set<Column>): seq<AllocatedRow>
  {
    Recount(WithIdCells(rows, DedupeCells(IdCells(rows))), columns)
  }

  /** Cleaning keeps the counts, the carriers and what each row keeps,
      gives each row its share of the summed counts, leaves every ID of the
      rows exactly once, and makes the shares add up to 100 whenever the
      rows hold any containers. */
  lemma CleanedKeeps(rows: seq<AllocatedRow>, columns: set<Column>, data: map<Carrier, Shipment>, ranks: map<Carrier, int>,
                     hist: map<Carrier, real>, total: int, g: real)
    ensures var rows' := Cleaned(rows, columns);
      RowCounts(rows') == RowCounts(rows) && RowCarriers(rows') == RowCarriers(rows) &&
      ((forall k :: 0 <= k < |rows| ==> Kept(rows[k], data, ranks, hist, total, g)) ==>
       (forall k :: 0 <= k < |rows'| ==> Kept(rows'[k], data, ranks, hist, total, g))) &&
      NoDup(AllContainerIds(IdCells(rows'))) &&
      Elems(AllContainerIds(IdCells(rows'))) == Elems(AllContainerIds(IdCells(rows))) &&
      (SumInt(RowCounts(rows)) > 0 ==>
        (forall k :: 0 <= k < |rows'| ==> rows'[k].newPct == SharePct(rows'[k].row.count, SumInt(RowCounts(rows)))) &&
        SumReal(NewPcts(rows')) == 100.0)
  {
    var cells := DedupeCells(IdCells(rows));
    DedupedIds(IdCells(rows));
    var deduped := WithIdCells(rows, cells);
    IdsOnlyKeeps(rows, deduped, data, ranks, hist, total, g);
    RecountKeeps(deduped, columns, data, ranks, hist, total, g);
    if SumInt(RowCounts(rows)) > 0 {
      RecountShares(deduped, columns);
    }
  }

  /** Deduplicates the IDs cells across the rows, then recounts. */
  method CleanRows(rows: seq<AllocatedRow>, columns: set<Column>) returns (rows': seq<AllocatedRow>)
    ensures rows' == Cleaned(rows, columns)
  {
    var cells := DedupeAcrossRows(IdCells(rows));
    rows' := Recount(WithIdCells(rows, cells), columns);
  }

  /** The row loop followed by the leftover IDs: the rows `LoopRowsKept`
      and `LoopRowsIds` describe. */
  method LoopAndLeftover(carriers: seq<Carrier>, counts: seq<int>, data: map<Carrier, Shipment>, pool: seq<string>,
                         ranks: map<Carrier, int>, hist: map<Carrier, real>, total: int, g: real)
    returns (rows: seq<AllocatedRow>)
    requires |counts| == |carriers| && InData(carriers, data) && KeyedByCarrier(data)
    ensures SumInt(RowCounts(rows)) == SumInt(counts)
    ensures forall i :: 0 <= i < |carriers| && counts[i] != 0 ==> carriers[i] in RowCarriers(rows)
    ensures forall k :: 0 <= k < |rows| ==> rows[k].row.carrier in carriers
    ensures NoDup(carriers) ==> NoDup(RowCarriers(rows))
    ensures AllKept(rows, data, ranks, hist, total, g) && SharesOf(rows, total)
    ensures AllWellFormed(pool) && OwnIdsIn(data, Elems(pool)) && |rows| > 0 ==>
      Elems(AllContainerIds(IdCells(rows))) == Elems(pool)
  {
    var left;
    rows, left := BuildRows(carriers, counts, data, pool, ranks, hist, total, g);
    rows := AddLeftover(rows, left);
    LoopRowsKept(carriers, counts, data, pool, ranks, hist, total, g);
    if AllWellFormed(pool) && OwnIdsIn(data, Elems(pool)) && |rows| > 0 {
      LoopRowsIds(carriers, counts, data, pool, ranks, hist, total, g);
    }
  }

  /** What the rows of a group promise about each row and about the
      shares: each row what `Kept` says; without an IDs column, each share
      is the share of `total`; with one, each share is the share of the
      allocated containers, and the shares add up to 100 whenever any
      container is allocated. */
  ghost predicate Allocation(rows: seq<AllocatedRow>, columns: set<Column>, data: map<Carrier, Shipment>,
                             ranks: map<Carrier, int>, hist: map<Carrier, real>, total: int, g: real)
  {
    var placed := SumInt(RowCounts(rows));
    CopiesOf(rows, data) && AllKept(rows, data, ranks, hist, total, g) &&
    (IDS !in columns ==> SharesOf(rows, total)) &&
    (IDS in columns && placed > 0 ==> SumReal(NewPcts(rows)) == 100.0 && SharesOf(rows, placed))
  }

  /** Every row keeps what `Kept` says. */
  ghost predicate AllKept(rows: seq<AllocatedRow>, data: map<Carrier, Shipment>, ranks: map<Carrier, int>,
                          hist: map<Carrier, real>, total: int, g: real)
  {
    forall k :: 0 <= k < |rows| ==> Kept(rows[k], data, ranks, hist, total, g)
  }

  /** Every row's new percentage is its share of `total`. */
  predicate SharesOf(rows: seq<AllocatedRow>, total: int)
  {
    forall k :: 0 <= k < |rows| ==> rows[k].newPct == SharePct(rows[k].row.count, total)
  }

  /** With an IDs column, the IDs of some rows are exactly `ids`, each
      listed once. */
  ghost predicate IdsCover(rows: seq<AllocatedRow>, columns: set<Column>, ids: set<string>)
  {
    IDS in columns && |rows| > 0 ==>
      NoDup(AllContainerIds(IdCells(rows))) && Elems(AllContainerIds(IdCells(rows))) == ids
  }

  /** Every allocated row names a carrier of the carrier data, with that
      carrier's `Carrier` cell. */
  predicate CopiesOf(rows: seq<AllocatedRow>, data: map<Carrier, Shipment>)
  {
    forall k :: 0 <= k < |rows| ==>
      rows[k].row.carrier in data && rows[k].row.carrierAlt == data[rows[k].row.carrier].carrierAlt
  }

  /** The rows of an allocation are copies of the carrier data. */
  lemma KeptCopies(rows: seq<AllocatedRow>, data: map<Carrier, Shipment>, ranks: map<Carrier, int>,
                   hist: map<Carrier, real>, total: int, g: real)
    requires forall k :: 0 <= k < |rows| ==> Kept(rows[k], data, ranks, hist, total, g)
    ensures CopiesOf(rows, data)
  {
  }

  /** The rows of a group from the counts the cascade handed out in
      `_cascading_allocate_single_group`: the row loop,
      the leftover IDs, and, when the table has an IDs column, the
      deduplication across rows and the recount. */
  method AssembleRows(carriers: seq<Carrier>, counts: seq<int>, data: map<Carrier, Shipment>, pool: seq<string>,
                      ranks: map<Carrier, int>, hist: map<Carrier, real>, total: int, g: real, columns: set<Column>)
    returns (rows: seq<AllocatedRow>)
    requires |counts| == |carriers| && InData(carriers, data) && KeyedByCarrier(data)
    ensures SumInt(RowCounts(rows)) == SumInt(counts)
    ensures forall i :: 0 <= i < |carriers| && counts[i] != 0 ==> carriers[i] in RowCarriers(rows)
    ensures forall k :: 0 <= k < |rows| ==> rows[k].row.carrier in carriers
    ensures NoDup(carriers) ==> NoDup(RowCarriers(rows))
    ensures Allocation(rows, columns, data, ranks, hist, total, g)
    ensures AllWellFormed(pool) && OwnIdsIn(data, Elems(pool)) ==> IdsCover(rows, columns, Elems(pool))
  {
    var loop := LoopAndLeftover(carriers, counts, data, pool, ranks, hist, total, g);
    rows := CleanIfIds(loop, columns, data, ranks, hist, total, g);
  }

  /** The deduplication across rows and the recount when the table has an
      IDs column (in `_cascading_allocate_single_group`);
      the rows as they are otherwise. */
  method CleanIfIds(loop: seq<AllocatedRow>, columns: set<Column>, data: map<Carrier, Shipment>,
                    ranks: map<Carrier, int>, hist: map<Carrier, real>, total: int, g: real)
    returns (rows: seq<AllocatedRow>)
    requires AllKept(loop, data, ranks, hist, total, g) && SharesOf(loop, total)
    ensures RowCounts(rows) == RowCounts(loop) && RowCarriers(rows) == RowCarriers(loop)
    ensures Allocation(rows, columns, data, ranks, hist, total, g)
    ensures IDS in columns ==>
      NoDup(AllContainerIds(IdCells(rows))) && Elems(AllContainerIds(IdCells(rows))) == Elems(AllContainerIds(IdCells(loop)))
    ensures IDS !in columns ==> rows == loop
  {
    rows := loop;
    if IDS in columns {
      CleanedKeeps(loop, columns, data, ranks, hist, total, g);
      rows := CleanRows(loop, columns);
    }
    KeptCopies(rows, data, ranks, hist, total, g);
  }

  // ---------------------------------------------------------------------
  // One group
  // ---------------------------------------------------------------------

  /** The container IDs listed in some rows, in order. */
  function GroupIds(rows: seq<Shipment>): (ids: seq<string>)
    ensures AllWellFormed(ids)
  {
    AllContainerIds(ShipmentIdCells(rows))
  }

  /** The IDs to hand out in a group: the group's own, then those of the
      excluded carriers' rows of the group, each once, when the table has an
      IDs column; none otherwise. */
  function IdPool(columns: set<Column>, group: seq<Shipment>, excluded: seq<Shipment>): (pool: seq<string>)
    ensures NoDup(pool) && AllWellFormed(pool)
    ensures IDS in columns ==> Elems(pool) == Elems(GroupIds(group)) + Elems(GroupIds(excluded))
    ensures IDS !in columns ==> pool == []
  {
    if IDS in columns then
      var all := GroupIds(group) + GroupIds(excluded);
      ElemsAppend(GroupIds(group), GroupIds(excluded));
      assert forall x :: x in Dedupe(all) <==> x in all by {
        forall x ensures x in Dedupe(all) <==> x in all {
          InDedupe(all, x);
        }
      }
      Dedupe(all)
    else []
  }

  /** Some row of the group names a carrier. */
  predicate HasCarrier(group: seq<Shipment>)
  {
    exists i :: 0 <= i < |group| && group[i].carrier.Some?
  }

  /** What the rows allocated for a group promise, with `total` the group's
      containers plus those of the excluded carriers' rows of the group:
      distinct carriers; each row and the shares as `Allocation` says, with
      the group's last row of each carrier, the ranks `_rank_carriers_from_lp`
      gives and the historical shares; every container allocated when the
      growth allowance is not negative, the total is not negative and some
      row names a carrier; and the IDs exactly those of the group and of the
      excluded rows. */
  ghost predicate GroupResult(rows: seq<AllocatedRow>, columns: set<Column>, group: seq<Shipment>, excluded: seq<Shipment>,
                              groupCols: seq<Column>, groupKey: seq<Value>, share: Result<ShareTable>, lp: Table, g: real)
  {
    var total := SumCounts(group) + SumCounts(excluded);
    var carriers := Dedupe(CarriersOf(group));
    NoDup(RowCarriers(rows)) &&
    Allocation(rows, columns, CarrierData(group), GroupRanks(carriers, lp, groupCols, groupKey),
               HistoricalPercentages(carriers, share, groupCols, groupKey), total, g) &&
    IdsCover(rows, columns, Elems(GroupIds(group)) + Elems(GroupIds(excluded)))
  }

  /** A carrier's IDs within some set are within any larger one. */
  lemma OwnIdsWithin(data: map<Carrier, Shipment>, a: set<string>, b: set<string>)
    requires OwnIdsIn(data, a) && a <= b
    ensures OwnIdsIn(data, b)
  {
  }

  /** The group's carriers all have their last row of the group, keyed by
      carrier, and those rows list only IDs of the pool. */
  lemma GroupData(columns: set<Column>, group: seq<Shipment>, excluded: seq<Shipment>)
    ensures InData(Dedupe(CarriersOf(group)), CarrierData(group)) && KeyedByCarrier(CarrierData(group))
    ensures IDS in columns ==> OwnIdsIn(CarrierData(group), Elems(IdPool(columns, group, excluded)))
  {
    CarrierDataDomain(group);
    CarrierDataKeyed(group);
    OwnIds(group);
    if IDS in columns {
      OwnIdsWithin(CarrierData(group), Elems(GroupIds(group)), Elems(IdPool(columns, group, excluded)));
    }
  }

  /** The cascade over the group's carriers: a count per carrier, none for
      NaN, adding up to the total whenever the growth allowance is not
      negative, the total is not negative and some row names a carrier. */
  method GroupCounts(group: seq<Shipment>, carriers: seq<Carrier>, ranks: map<Carrier, int>, hist: map<Carrier, real>,
                     total: int, g: real)
    returns (counts: seq<int>)
    requires carriers == Dedupe(CarriersOf(group))
    ensures |counts| == |carriers|
    ensures g >= 0.0 && total >= 0 && HasCarrier(group) ==>
      SumInt(counts) == total && forall i :: 0 <= i < |carriers| && carriers[i].None? ==> counts[i] == 0
  {
    var fractional, overflowed;
    counts, fractional, overflowed := CascadeAllocateVolume(carriers, ranks, hist, total as real, g);
    if g >= 0.0 && total >= 0 && HasCarrier(group) {
      var i :| 0 <= i < |group| && group[i].carrier.Some?;
      assert CarriersOf(group)[i] in carriers;
      var j :| 0 <= j < |carriers| && carriers[j] == group[i].carrier;
      assert j in RankOrder(carriers, ranks);
    }
  }

  /** A group with a carrier column and containers to allocate, given the
      carriers' ranks and historical shares, in
      `_cascading_allocate_single_group`. */
  method AllocateGroup(columns: set<Column>, group: seq<Shipment>, excluded: seq<Shipment>,
                       ranks: map<Carrier, int>, hist: map<Carrier, real>, g: real)
    returns (rows: seq<AllocatedRow>)
    ensures NoDup(RowCarriers(rows))
    ensures Allocation(rows, columns, CarrierData(group), ranks, hist, SumCounts(group) + SumCounts(excluded), g)
    ensures g >= 0.0 && SumCounts(group) + SumCounts(excluded) >= 0 && HasCarrier(group) ==>
      SumInt(RowCounts(rows)) == SumCounts(group) + SumCounts(excluded)
    ensures IdsCover(rows, columns, Elems(GroupIds(group)) + Elems(GroupIds(excluded)))
  {
    var carriers, counts := CarrierCounts(columns, group, excluded, ranks, hist, g);
    rows := AssembleRows(carriers, counts, CarrierData(group), IdPool(columns, group, excluded), ranks, hist,
                         SumCounts(group) + SumCounts(excluded), g, columns);
  }

  /** The group's distinct carriers and what the cascade hands
      each of them, with what `AssembleRows` needs of the carrier data. */
  method CarrierCounts(columns: set<Column>, group: seq<Shipment>, excluded: seq<Shipment>,
                       ranks: map<Carrier, int>, hist: map<Carrier, real>, g: real)
    returns (carriers: seq<Carrier>, counts: seq<int>)
    ensures |counts| == |carriers| && NoDup(carriers)
    ensures InData(carriers, CarrierData(group)) && KeyedByCarrier(CarrierData(group))
    ensures IDS in columns ==> OwnIdsIn(CarrierData(group), Elems(IdPool(columns, group, excluded)))
    ensures g >= 0.0 && SumCounts(group) + SumCounts(excluded) >= 0 && HasCarrier(group) ==>
      SumInt(counts) == SumCounts(group) + SumCounts(excluded)
  {
    carriers := Dedupe(CarriersOf(group));
    counts := GroupCounts(group, carriers, ranks, hist, SumCounts(group) + SumCounts(excluded), g);
    GroupData(columns, group, excluded);
  }

  /** `_cascading_allocate_single_group`: nothing for an empty group or a
      group with no containers (its own and its excluded rows' together),
      a missing count or carrier column is an error, and otherwise the rows
      `AllocateGroup` promises. */
  method CascadingAllocateSingleGroup(columns: set<Column>, group: seq<Shipment>, excluded: seq<Shipment>,
                                      groupCols: seq<Column>, groupKey: seq<Value>, share: Result<ShareTable>, lp: Table, g: real)
    returns (r: Result<seq<AllocatedRow>>)
    ensures |group| == 0 ==> r == Success([])
    ensures |group| > 0 && COUNT !in columns ==> r.Failure?
    ensures |group| > 0 && COUNT in columns && SumCounts(group) + SumCounts(excluded) == 0 ==> r == Success([])
    ensures |group| > 0 && COUNT in columns && SumCounts(group) + SumCounts(excluded) != 0 && CARRIER !in columns ==> r.Failure?
    ensures r.Failure? ==> |group| > 0 && (COUNT !in columns || CARRIER !in columns)
    ensures r.Success? ==> GroupResult(r.value, columns, group, excluded, groupCols, groupKey, share, lp, g)
    ensures r.Success? ==> CopiesOf(r.value, CarrierData(group))
    ensures r.Success? && g >= 0.0 && SumCounts(group) + SumCounts(excluded) >= 0 && HasCarrier(group) ==>
      SumInt(RowCounts(r.value)) == SumCounts(group) + SumCounts(excluded)
  {
    if |group| == 0 {
      return Success([]);
    }
    if COUNT !in columns {
      return Failure(KeyError(COUNT));
    }
    if SumCounts(group) + SumCounts(excluded) == 0 {
      return Success([]);
    }
    if CARRIER !in columns {
      return Failure(KeyError(CARRIER));
    }
    var carriers := Dedupe(CarriersOf(group));
    var ranks := RankCarriersFromLp(carriers, lp, groupCols, groupKey);
    var hist := HistoricalPercentages(carriers, share, groupCols, groupKey);
    var rows := AllocateGroup(columns, group, excluded, ranks, hist, g);
    return Success(rows);
  }

  // ---------------------------------------------------------------------
  // All groups
  // ---------------------------------------------------------------------

  /** A row of an excluded carrier: its carrier, or its `Carrier` column
      when the table has one, is one of the excluded carriers. */
  predicate IsExcluded(r: Shipment, columns: set<Column>, excluded: set<string>)
  {
    (CARRIER in columns && r.carrier.Some? && r.carrier.value in excluded) ||
    (CARRIER_ALT in columns && r.carrierAlt.Some? && r.carrierAlt.value in excluded)
  }

  /** The rows of carriers that may receive volume, in table order. */
  function Allocatable(rows: seq<Shipment>, columns: set<Column>, excluded: set<string>): (kept: seq<Shipment>)
    ensures forall r :: r in kept <==> r in rows && !IsExcluded(r, columns, excluded)
  {
    if |rows| == 0 then []
    else
      var init := Allocatable(rows[..|rows| - 1], columns, excluded);
      var last := rows[|rows| - 1];
      assert forall r :: r in rows <==> r in rows[..|rows| - 1] || r == last;
      if IsExcluded(last, columns, excluded) then init else init + [last]
  }

  /** The rows of excluded carriers, in table order: their containers are
      handed to the other carriers of their group. */
  function ExcludedRows(rows: seq<Shipment>, columns: set<Column>, excluded: set<string>): (out: seq<Shipment>)
    ensures forall r :: r in out <==> r in rows && IsExcluded(r, columns, excluded)
  {
    if |rows| == 0 then []
    else
      var init := ExcludedRows(rows[..|rows| - 1], columns, excluded);
      var last := rows[|rows| - 1];
      assert forall r :: r in rows <==> r in rows[..|rows| - 1] || r == last;
      if IsExcluded(last, columns, excluded) then init + [last] else init
  }

  /** Splitting off the excluded carriers' rows loses no container. */
  lemma {:induction false} SplitKeepsCounts(rows: seq<Shipment>, columns: set<Column>, excluded: set<string>)
    ensures SumCounts(Allocatable(rows, columns, excluded)) + SumCounts(ExcludedRows(rows, columns, excluded)) == SumCounts(rows)
  {
    if |rows| > 0 {
      var init := rows[..|rows| - 1];
      var last := rows[|rows| - 1];
      SplitKeepsCounts(init, columns, excluded);
      if IsExcluded(last, columns, excluded) {
        SumCountsAppend(ExcludedRows(init, columns, excluded), [last]);
      } else {
        SumCountsAppend(Allocatable(init, columns, excluded), [last]);
      }
    }
  }

  /** The lane with Category inserted at position 0, SSL at 1 and Vessel
      at 2, each only when the table has it. */
  function FrontColumns(columns: set<Column>): (cols: seq<Column>)
    ensures forall c :: c in cols <==> c == LANE || (c in columns && (c == CATEGORY || c == SSL || c == VESSEL))
    ensures CATEGORY in columns ==> cols[0] == CATEGORY
  {
    var c1 := if CATEGORY in columns then Insert([LANE], 0, CATEGORY) else [LANE];
    var c2 := if SSL in columns then Insert(c1, 1, SSL) else c1;
    if VESSEL in columns then Insert(c2, 2, VESSEL) else c2
  }

  /** The grouping columns of `cascading_allocate_with_constraints`: the
      front columns, then Facility, Terminal and the week appended, each
      only when the table has it. */
  function CascadeGroupColumns(columns: set<Column>): (cols: seq<Column>)
    ensures forall c :: c in cols <==>
      c == LANE || (c in columns && (c == CATEGORY || c == SSL || c == VESSEL || c == FACILITY || c == TERMINAL || c == WEEK))
    ensures CATEGORY in columns ==> cols[0] == CATEGORY
    ensures WEEK in columns ==> cols[|cols| - 1] == WEEK
  {
    var c3 := FrontColumns(columns);
    var c4 := AppendWhen(c3, FACILITY in columns, FACILITY);
    var c5 := AppendWhen(c4, TERMINAL in columns, TERMINAL);
    AppendWhen(c5, WEEK in columns && WEEK !in c5, WEEK)
  }

  /** `s` with `c` appended when `b` holds. */
  function AppendWhen(s: seq<Column>, b: bool, c: Column): (r: seq<Column>)
    ensures forall x :: x in r <==> x in s || (b && x == c)
    ensures b ==> |r| > 0 && r[|r| - 1] == c
    ensures |s| > 0 ==> |r| > 0 && r[0] == s[0]
  {
    if b then s + [c] else s
  }

  /** The excluded rows of a group: equal to its key in every grouping
      column, where a NaN cell on either side matches nothing. */
  function ExcludedOfGroup(excl: seq<Shipment>, cols: seq<Column>, key: seq<Value>): (out: seq<Shipment>)
    ensures forall r :: r in out <==> r in excl && Key(r, cols) == key && KeyComplete(key)
  {
    if KeyComplete(key) then RowsWithKey(excl, cols, key) else []
  }

  /** The containers of the excluded rows matched to the groups `ks`. */
  function ExcludedTotals(excl: seq<Shipment>, cols: seq<Column>, ks: seq<seq<Value>>): int
  {
    if |ks| == 0 then 0
    else ExcludedTotals(excl, cols, ks[..|ks| - 1]) + SumCounts(ExcludedOfGroup(excl, cols, ks[|ks| - 1]))
  }

  /** Counts of several rows that are not negative add up to a count that
      is not negative. */
  lemma {:induction false} SumCountsNonNegative(rows: seq<Shipment>)
    requires forall r :: r in rows ==> r.count >= 0
    ensures SumCounts(rows) >= 0
  {
    if |rows| > 0 {
      assert rows[|rows| - 1] in rows;
      SumCountsNonNegative(rows[..|rows| - 1]);
    }
  }

  lemma RowCountsAppend(a: seq<AllocatedRow>, b: seq<AllocatedRow>)
    ensures SumInt(RowCounts(a + b)) == SumInt(RowCounts(a)) + SumInt(RowCounts(b))
  {
    assert RowCounts(a + b) == RowCounts(a) + RowCounts(b);
    SumIntAppend(RowCounts(a), RowCounts(b));
  }

  /** No copy of a row of an excluded carrier's is among the copies of a
      group none of whose rows is one. */
  lemma CopiesNotExcluded(rows: seq<AllocatedRow>, group: seq<Shipment>, columns: set<Column>, excluded: set<string>)
    requires CopiesOf(rows, CarrierData(group))
    requires forall r :: r in group ==> !IsExcluded(r, columns, excluded)
    ensures forall k :: 0 <= k < |rows| ==> !IsExcluded(rows[k].row, columns, excluded)
  {
    forall k | 0 <= k < |rows|
      ensures !IsExcluded(rows[k].row, columns, excluded)
    {
      var j := CarrierDataLast(group, rows[k].row.carrier);
      assert group[j] in group;
    }
  }

  /** When every group allocates all its containers: a growth allowance
      that is not negative, no negative count, and a carrier named in every
      row of a carrier that may receive volume. */
  predicate Conserving(t: Table, excluded: set<string>, g: real)
  {
    g >= 0.0 && (forall r :: r in t.rows ==> r.count >= 0) &&
    (forall r :: r in Allocatable(t.rows, t.columns, excluded) ==> r.carrier.Some?)
  }

  /** `Conserving` for the allocatable rows `alloc` and the excluded rows
      `excl` once they are split. */
  predicate Conserves(alloc: seq<Shipment>, excl: seq<Shipment>, g: real)
  {
    g >= 0.0 && (forall x :: x in alloc ==> x.count >= 0 && x.carrier.Some?) && (forall x :: x in excl ==> x.count >= 0)
  }

  /** A group of allocatable rows that all name a carrier, with no
      negative count there or among the excluded rows, has a carrier and a
      total that is not negative. */
  lemma GroupConserves(alloc: seq<Shipment>, excl: seq<Shipment>, cols: seq<Column>, key: seq<Value>, g: real)
    requires exists x :: x in alloc && Key(x, cols) == key
    requires Conserves(alloc, excl, g)
    ensures HasCarrier(RowsWithKey(alloc, cols, key))
    ensures SumCounts(RowsWithKey(alloc, cols, key)) + SumCounts(ExcludedOfGroup(excl, cols, key)) >= 0
  {
    var group := RowsWithKey(alloc, cols, key);
    var x :| x in alloc && Key(x, cols) == key;
    assert x in group;
    var j :| 0 <= j < |group| && group[j] == x;
    SumCountsNonNegative(group);
    SumCountsNonNegative(ExcludedOfGroup(excl, cols, key));
  }

  /** One turn of the loop over the groups: the group of `key` among the
      allocatable rows `alloc`, with the excluded rows `excl` matched to it. */
  method AllocateKey(columns: set<Column>, alloc: seq<Shipment>, excl: seq<Shipment>, cols: seq<Column>, key: seq<Value>,
                     share: Result<ShareTable>, lp: Table, g: real)
    returns (r: Result<seq<AllocatedRow>>)
    requires exists x :: x in alloc && Key(x, cols) == key
    ensures r.Success? ==> CopiesOf(r.value, CarrierData(RowsWithKey(alloc, cols, key)))
    ensures r.Success? && Conserves(alloc, excl, g) ==>
      SumInt(RowCounts(r.value)) == SumCounts(RowsWithKey(alloc, cols, key)) + SumCounts(ExcludedOfGroup(excl, cols, key))
  {
    if Conserves(alloc, excl, g) {
      GroupConserves(alloc, excl, cols, key, g);
    }
    r := CascadingAllocateSingleGroup(columns, RowsWithKey(alloc, cols, key), ExcludedOfGroup(excl, cols, key),
                                      cols, key, share, lp, g);
  }

  /** The totals over the first `i + 1` keys are those over the first `i`
      and the group of key `i`. */
  lemma TotalsStep(alloc: seq<Shipment>, excl: seq<Shipment>, cols: seq<Column>, keys: seq<seq<Value>>, i: nat)
    requires i < |keys|
    ensures SumGroups(alloc, cols, keys[..i + 1]) == SumGroups(alloc, cols, keys[..i]) + SumCounts(RowsWithKey(alloc, cols, keys[i]))
    ensures ExcludedTotals(excl, cols, keys[..i + 1]) ==
      ExcludedTotals(excl, cols, keys[..i]) + SumCounts(ExcludedOfGroup(excl, cols, keys[i]))
  {
    assert keys[..i + 1][..i] == keys[..i];
  }

  /** The loop over the groups `keys` of the allocatable rows `alloc`,
      concatenating what each group allocates; the first group that fails
      makes the whole call fail. */
  method AllocateGroups(columns: set<Column>, excluded: set<string>, alloc: seq<Shipment>, excl: seq<Shipment>,
                        cols: seq<Column>, keys: seq<seq<Value>>, share: Result<ShareTable>, lp: Table, g: real)
    returns (r: Result<seq<AllocatedRow>>)
    requires forall k :: k in keys ==> exists x :: x in alloc && Key(x, cols) == k
    requires forall x :: x in alloc ==> !IsExcluded(x, columns, excluded)
    ensures r.Success? ==> forall k :: 0 <= k < |r.value| ==> !IsExcluded(r.value[k].row, columns, excluded)
    ensures r.Success? && Conserves(alloc, excl, g) ==>
      SumInt(RowCounts(r.value)) == SumGroups(alloc, cols, keys) + ExcludedTotals(excl, cols, keys)
  {
    var out: seq<AllocatedRow> := [];
    var i := 0;
    while i < |keys|
      invariant 0 <= i <= |keys|
      invariant GroupsDone(out, columns, excluded, alloc, excl, cols, keys[..i], g)
    {
      assert keys[i] in keys;
      var res := AllocateNext(columns, excluded, alloc, excl, cols, keys, i, out, share, lp, g);
      if res.Failure? {
        return Failure(res.error);
      }
      out := res.value;
      i := i + 1;
    }
    assert keys[..i] == keys;
    return Success(out);
  }

  /** What the rows of the groups `done` promise: none is excluded, and
      they add up to the groups' rows and excluded totals. */
  ghost predicate GroupsDone(out: seq<AllocatedRow>, columns: set<Column>, excluded: set<string>, alloc: seq<Shipment>,
                             excl: seq<Shipment>, cols: seq<Column>, done: seq<seq<Value>>, g: real)
  {
    (forall k :: 0 <= k < |out| ==> !IsExcluded(out[k].row, columns, excluded)) &&
    (Conserves(alloc, excl, g) ==> SumInt(RowCounts(out)) == SumGroups(alloc, cols, done) + ExcludedTotals(excl, cols, done))
  }

  /** One turn of the loop over the groups: the rows of group `keys[i]`
      appended to `out`. */
  method AllocateNext(columns: set<Column>, excluded: set<string>, alloc: seq<Shipment>, excl: seq<Shipment>,
                      cols: seq<Column>, keys: seq<seq<Value>>, i: nat, out: seq<AllocatedRow>,
                      share: Result<ShareTable>, lp: Table, g: real)
    returns (r: Result<seq<AllocatedRow>>)
    requires i < |keys| && exists x :: x in alloc && Key(x, cols) == keys[i]
    requires forall x :: x in alloc ==> !IsExcluded(x, columns, excluded)
    requires GroupsDone(out, columns, excluded, alloc, excl, cols, keys[..i], g)
    ensures r.Success? ==> GroupsDone(r.value, columns, excluded, alloc, excl, cols, keys[..i + 1], g)
  {
    var res := AllocateKey(columns, alloc, excl, cols, keys[i], share, lp, g);
    if res.Failure? {
      return Failure(res.error);
    }
    CopiesNotExcluded(res.value, RowsWithKey(alloc, cols, keys[i]), columns, excluded);
    RowCountsAppend(out, res.value);
    TotalsStep(alloc, excl, cols, keys, i);
    return Success(out + res.value);
  }

  /** The rows of the excluded carriers split off, the others grouped by
      `CascadeGroupColumns` with NaN keys kept, and every group allocated in
      ascending key order. */
  method AllocateAllGroups(t: Table, excluded: set<string>, share: Result<ShareTable>, lp: Table, g: real)
    returns (r: Result<seq<AllocatedRow>>)
    ensures r.Success? ==> forall k :: 0 <= k < |r.value| ==> !IsExcluded(r.value[k].row, t.columns, excluded)
    ensures r.Success? && Conserving(t, excluded, g) ==>
      var alloc := Allocatable(t.rows, t.columns, excluded);
      var cols := CascadeGroupColumns(t.columns);
      SumInt(RowCounts(r.value)) ==
        SumCounts(alloc) + ExcludedTotals(ExcludedRows(t.rows, t.columns, excluded), cols, AllGroupKeys(alloc, cols))
  {
    var alloc := Allocatable(t.rows, t.columns, excluded);
    var excl := ExcludedRows(t.rows, t.columns, excluded);
    var cols := CascadeGroupColumns(t.columns);
    var keys := AllGroupKeys(alloc, cols);
    KeysOfRows(alloc, cols, keys);
    SumGroupsCovers(alloc, cols, keys);
    ConservingSplit(t, excluded, g);
    r := AllocateGroups(t.columns, excluded, alloc, excl, cols, keys, share, lp, g);
  }

  /** `Conserving` data splits into allocatable and excluded rows that `Conserves`. */
  lemma ConservingSplit(t: Table, excluded: set<string>, g: real)
    ensures Conserving(t, excluded, g) ==>
      Conserves(Allocatable(t.rows, t.columns, excluded), ExcludedRows(t.rows, t.columns, excluded), g)
  {
  }

  /** `cascading_allocate_with_constraints` for the excluded carriers, the
      table the historical shares come from (the data itself when absent),
      the number of historical weeks, the current week, the LP output for
      the data, and the growth allowance `g`. */
  method CascadingAllocateWithConstraints(t: Table, excluded: set<string>, history: Option<Table>, nWeeks: int,
                                          currentWeek: int, lp: Table, g: real)
    returns (r: Result<seq<AllocatedRow>>)
    ensures |t.rows| == 0 ==> r == Success([])
    ensures |t.rows| > 0 && LANE !in t.columns ==> r.Failure?
    ensures r.Success? ==> forall k :: 0 <= k < |r.value| ==> !IsExcluded(r.value[k].row, t.columns, excluded)
    ensures r.Success? && Conserving(t, excluded, g) ==>
      var alloc := Allocatable(t.rows, t.columns, excluded);
      var cols := CascadeGroupColumns(t.columns);
      SumInt(RowCounts(r.value)) ==
        SumCounts(alloc) + ExcludedTotals(ExcludedRows(t.rows, t.columns, excluded), cols, AllGroupKeys(alloc, cols))
  {
    if |t.rows| == 0 {
      return Success([]);
    }
    if |ExcludedRows(t.rows, t.columns, excluded)| > 0 && COUNT !in t.columns {
      return Failure(KeyError(COUNT));
    }
    if LANE !in t.columns {
      return Failure(KeyError(LANE));
    }
    r := AllocateAllGroups(t, excluded, CarrierVolumeShare(history.GetOr(t), nWeeks, currentWeek), lp, g);
  }
}
