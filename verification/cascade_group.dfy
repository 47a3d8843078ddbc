/**
 * The per-group driver of optimization/cascading_logic.py: ranking the
 * carriers of a group from the LP output, looking up their historical
 * shares, handing out the group's container IDs after the cascade and
 * removing IDs that ended up in two rows.
 */
module CascadeGroup {
  import opened Wrappers
  import opened Seqs
  import opened Text
  import opened Frame
  import opened Groups
  import opened Utils
  import opened HistoricVolume
  import opened CascadeAllocation

  // ---------------------------------------------------------------------
  // Alphabetical ranking
  // ---------------------------------------------------------------------

  /** `[c for c in carriers if pd.notna(c)]`. */
  function ValidCodes(carriers: seq<Carrier>): (cs: seq<string>)
    ensures forall c :: c in cs <==> Some(c) in carriers
    ensures |cs| <= |carriers|
    ensures NoDup(carriers) ==> NoDup(cs)
  {
    if |carriers| == 0 then []
    else
      var p := carriers[..|carriers| - 1];
      var last := carriers[|carriers| - 1];
      var cs := ValidCodes(p);
      assert forall c :: c in carriers <==> c in p || c == last;
      if last.Some? then
        assert NoDup(carriers) ==> last !in p;
        cs + [last.value]
      else cs
  }

  function CodeAt(cs: seq<string>, i: nat): string
  {
    if i < |cs| then cs[i] else ""
  }

  /** Positions by code ascending, then by position. */
  function CodeOrder(cs: seq<string>): (nat, nat) -> bool
  {
    (i: nat, j: nat) => Less(CodeAt(cs, i), CodeAt(cs, j)) || (CodeAt(cs, i) == CodeAt(cs, j) && i < j)
  }

  lemma CodeOrderIsOrder(cs: seq<string>, n: nat)
    ensures StrictOrderBelow(CodeOrder(cs), n)
  {
    forall a: nat, b: nat, c: nat {
      LessIsOrder(CodeAt(cs, a), CodeAt(cs, b), CodeAt(cs, c));
    }
  }

  /** `sorted(codes)`: Python's string order, ascending. */
  function SortCodes(cs: seq<string>): (sorted: seq<string>)
    ensures |sorted| == |cs|
    ensures forall c :: c in sorted <==> c in cs
    ensures NoDup(cs) ==> NoDup(sorted)
    ensures forall i, j :: 0 <= i < j < |sorted| ==> !Less(sorted[j], sorted[i])
  {
    CodeOrderIsOrder(cs, |cs|);
    var order := SortedPositions(|cs|, CodeOrder(cs));
    SortedCodesAscending(cs, order);
    Permuted(cs, order)
  }

  lemma SortedCodesAscending(cs: seq<string>, order: seq<nat>)
    requires IsOrderOf(order, |cs|) && SortedBy(order, CodeOrder(cs))
    ensures forall i, j :: 0 <= i < j < |order| ==> !Less(Permuted(cs, order)[j], Permuted(cs, order)[i])
  {
    OrderFacts(order, |cs|);
    var s := Permuted(cs, order);
    forall i, j | 0 <= i < j < |s| ensures !Less(s[j], s[i]) {
      assert CodeOrder(cs)(order[i], order[j]);
      if Less(s[i], s[j]) {
        LessAsymmetric(s[i], s[j]);
      } else {
        LessIrreflexive(s[i]);
      }
    }
  }

  /** `{c: idx + 1 for idx, c in enumerate(sorted)}`: a later duplicate
      overwrites an earlier one. */
  function Enumerate(sorted: seq<string>): (ranks: map<Carrier, int>)
    ensures forall c :: c in ranks <==> c.Some? && c.value in sorted
    ensures forall c :: c in ranks ==> 1 <= ranks[c] <= |sorted|
  {
    if |sorted| == 0 then map[]
    else Enumerate(sorted[..|sorted| - 1])[Some(sorted[|sorted| - 1]) := |sorted|]
  }

  lemma {:induction false} EnumerateDistinct(sorted: seq<string>)
    requires NoDup(sorted)
    ensures forall k :: 0 <= k < |sorted| ==> Enumerate(sorted)[Some(sorted[k])] == k + 1
  {
    if |sorted| > 0 {
      var p := sorted[..|sorted| - 1];
      assert NoDup(p);
      EnumerateDistinct(p);
      forall k | 0 <= k < |p| ensures sorted[k] != sorted[|sorted| - 1] {
      }
    }
  }

  /** The ranking used when there is no LP output for the group: the
      non-NaN carriers, alphabetically, ranked from 1. */
  function AlphabeticalRanks(carriers: seq<Carrier>): map<Carrier, int>
  {
    Enumerate(SortCodes(ValidCodes(carriers)))
  }

  /** Alphabetical ranks cover exactly the non-NaN carriers, run from 1 to
      their number, and follow the string order; so no two carriers share a
      rank. */
  lemma AlphabeticalRanksSpec(carriers: seq<Carrier>)
    requires NoDup(carriers)
    ensures var ranks := AlphabeticalRanks(carriers);
      (forall c :: c in ranks <==> c in carriers && c.Some?) &&
      (forall c :: c in ranks ==> 1 <= ranks[c] <= |ValidCodes(carriers)|) &&
      (forall a, b :: a in ranks && b in ranks && Less(a.value, b.value) ==> ranks[a] < ranks[b]) &&
      (forall a, b :: a in ranks && b in ranks && a != b ==> ranks[a] != ranks[b])
  {
    var s := SortCodes(ValidCodes(carriers));
    var ranks := AlphabeticalRanks(carriers);
    EnumerateDistinct(s);
    forall a, b | a in ranks && b in ranks && Less(a.value, b.value) ensures ranks[a] < ranks[b] {
      var i := IndexOf(s, a.value);
      var j := IndexOf(s, b.value);
      assert ranks[a] == i + 1 && ranks[b] == j + 1;
      if j == i {
        LessIrreflexive(a.value);
      }
    }
    forall a, b | a in ranks && b in ranks && a != b ensures ranks[a] != ranks[b] {
      LessTotal(a.value, b.value);
    }
  }

  // ---------------------------------------------------------------------
  // Ranking from the LP output
  // ---------------------------------------------------------------------

  /** A row of the LP output belongs to the group when each group column
      the LP table has holds the group's value; a NaN cell equals nothing. */
  predicate InGroup(r: Shipment, columns: set<Column>, groupCols: seq<Column>, groupKey: seq<Value>)
  {
    forall i :: 0 <= i < |groupCols| && i < |groupKey| && groupCols[i] in columns ==>
      Cell(r, groupCols[i]) != Missing && Cell(r, groupCols[i]) == groupKey[i]
  }

  function LpGroup(lp: Table, groupCols: seq<Column>, groupKey: seq<Value>): (g: seq<Shipment>)
    ensures forall r :: r in g <==> r in lp.rows && InGroup(r, lp.columns, groupCols, groupKey)
  {
    Filter(lp.rows, r => InGroup(r, lp.columns, groupCols, groupKey))
  }

  /** `lp_group.sort_values(container_column, ascending=False)`. */
  function ByLpVolume(g: seq<Shipment>): (sorted: seq<Shipment>)
    ensures multiset(sorted) == multiset(g)
    ensures forall i, j :: 0 <= i < j < |sorted| ==> sorted[i].count >= sorted[j].count
  {
    SortDesc(g, (r: Shipment) => r.count)
  }

  /** The rank comprehension over the sorted LP group: a carrier of the
      group gets its 1-based position, its last row winning; NaN carriers
      and carriers outside `carriers` get none. */
  function LpRanks(sorted: seq<Shipment>, carriers: seq<Carrier>): map<Carrier, int>
  {
    if |sorted| == 0 then map[]
    else
      var c := sorted[|sorted| - 1].carrier;
      var m := LpRanks(sorted[..|sorted| - 1], carriers);
      if c.Some? && c in carriers then m[c := |sorted|] else m
  }

  /** The carriers of the rows, in order. */
  function CarriersOf(rows: seq<Shipment>): (cs: seq<Carrier>)
    ensures |cs| == |rows| && forall k :: 0 <= k < |rows| ==> cs[k] == rows[k].carrier
  {
    seq(|rows|, k requires 0 <= k < |rows| => rows[k].carrier)
  }

  /** Exactly the non-NaN carriers of the group that occur in the sorted LP
      group are ranked. */
  lemma {:induction false} LpRanksDomain(sorted: seq<Shipment>, carriers: seq<Carrier>)
    ensures forall c :: c in LpRanks(sorted, carriers) <==> c.Some? && c in carriers && c in CarriersOf(sorted)
  {
    if |sorted| > 0 {
      var p := sorted[..|sorted| - 1];
      LpRanksDomain(p, carriers);
      assert CarriersOf(sorted) == CarriersOf(p) + [sorted[|sorted| - 1].carrier];
    }
  }

  /** An LP rank is the 1-based position of the carrier's last row in the
      sorted LP group. */
  lemma {:induction false} LpRankIsLast(sorted: seq<Shipment>, carriers: seq<Carrier>, c: Carrier)
    requires c in LpRanks(sorted, carriers)
    ensures var r := LpRanks(sorted, carriers)[c];
      1 <= r <= |sorted| && sorted[r - 1].carrier == c &&
      forall k :: r <= k < |sorted| ==> sorted[k].carrier != c
  {
    var p := sorted[..|sorted| - 1];
    var last := sorted[|sorted| - 1].carrier;
    var m := LpRanks(p, carriers);
    if c != last || !(last.Some? && last in carriers) {
      assert c in m;
      LpRankIsLast(p, carriers, c);
      assert forall k :: 0 <= k < |p| ==> p[k] == sorted[k];
      if c == last {
        LpRanksDomain(p, carriers);
      }
    }
  }

  /** The loop giving each carrier still unranked the next rank, from
      `next` on, in the order of `carriers`. */
  function FillFrom(carriers: seq<Carrier>, ranks: map<Carrier, int>, next: int): map<Carrier, int>
    decreases |carriers|
  {
    if |carriers| == 0 then ranks
    else if carriers[0] in ranks then FillFrom(carriers[1..], ranks, next)
    else FillFrom(carriers[1..], ranks[carriers[0] := next], next + 1)
  }

  /** The fill keeps every rank already given, ranks every carrier, and
      gives the newly ranked carriers distinct ranks from `next` on. */
  lemma {:induction false} FillFromSpec(carriers: seq<Carrier>, ranks: map<Carrier, int>, next: int)
    ensures var r := FillFrom(carriers, ranks, next);
      (forall c :: c in r <==> c in ranks || c in carriers) &&
      (forall c :: c in ranks ==> r[c] == ranks[c]) &&
      (forall c :: c in r && c !in ranks ==> next <= r[c] < next + |carriers|) &&
      (forall c, d :: c in r && d in r && c !in ranks && d !in ranks && c != d ==> r[c] != r[d])
    decreases |carriers|
  {
    if |carriers| > 0 {
      var rest := carriers[1..];
      var c0 := carriers[0];
      assert forall c :: c in carriers <==> c == c0 || c in rest;
      if c0 in ranks {
        FillFromSpec(rest, ranks, next);
      } else {
        var m := ranks[c0 := next];
        FillFromSpec(rest, m, next + 1);
      }
    }
  }

  /** Without duplicates among the carriers, an unranked carrier listed
      earlier gets a smaller rank. */
  lemma {:induction false} FillFromOrder(carriers: seq<Carrier>, ranks: map<Carrier, int>, next: int, i: nat, j: nat)
    requires NoDup(carriers) && i < j < |carriers|
    requires carriers[i] !in ranks && carriers[j] !in ranks
    ensures var r := FillFrom(carriers, ranks, next);
      carriers[i] in r && carriers[j] in r && r[carriers[i]] < r[carriers[j]]
    decreases |carriers|
  {
    FillFromSpec(carriers, ranks, next);
    var rest := carriers[1..];
    assert NoDup(rest);
    if i == 0 {
      var m := ranks[carriers[0] := next];
      FillFromSpec(rest, m, next + 1);
      assert carriers[0] in m;
      assert carriers[j] == rest[j - 1];
    } else {
      assert carriers[i] == rest[i - 1] && carriers[j] == rest[j - 1];
      assert carriers[0] != carriers[i] && carriers[0] != carriers[j];
      if carriers[0] in ranks {
        FillFromOrder(rest, ranks, next, i - 1, j - 1);
      } else {
        FillFromOrder(rest, ranks[carriers[0] := next], next + 1, i - 1, j - 1);
      }
    }
  }

  /** The case of `_rank_carriers_from_lp` that falls back to alphabetical
      ranks: no LP output, none for this group, or no carrier or count
      column in it. */
  predicate UsesAlphabetical(lp: Table, groupCols: seq<Column>, groupKey: seq<Value>)
  {
    |lp.rows| == 0 || |LpGroup(lp, groupCols, groupKey)| == 0 || CARRIER !in lp.columns || COUNT !in lp.columns
  }

  /** `_rank_carriers_from_lp`. */
  method RankCarriersFromLp(carriers: seq<Carrier>, lp: Table, groupCols: seq<Column>, groupKey: seq<Value>)
    returns (ranks: map<Carrier, int>)
    ensures ranks == GroupRanks(carriers, lp, groupCols, groupKey)
  {
    if UsesAlphabetical(lp, groupCols, groupKey) {
      return AlphabeticalRanks(carriers);
    }
    var ranked := LpRanks(ByLpVolume(LpGroup(lp, groupCols, groupKey)), carriers);
    ranks := ranked;
    var next := |ranked| + 1;
    var i := 0;
    while i < |carriers|
      invariant 0 <= i <= |carriers|
      invariant FillFrom(carriers[i..], ranks, next) == FillFrom(carriers, ranked, |ranked| + 1)
    {
      assert carriers[i..][1..] == carriers[i + 1..];
      if carriers[i] !in ranks {
        ranks := ranks[carriers[i] := next];
        next := next + 1;
      }
      i := i + 1;
    }
  }

  /** The ranks `_rank_carriers_from_lp` computes. */
  function GroupRanks(carriers: seq<Carrier>, lp: Table, groupCols: seq<Column>, groupKey: seq<Value>): map<Carrier, int>
  {
    if UsesAlphabetical(lp, groupCols, groupKey) then AlphabeticalRanks(carriers)
    else
      var ranked := LpRanks(ByLpVolume(LpGroup(lp, groupCols, groupKey)), carriers);
      FillFrom(carriers, ranked, |ranked| + 1)
  }

  /** With LP output for the group, every carrier is ranked; a carrier of
      the LP output keeps its position there, and the others follow in
      input order from one past the number of LP-ranked carriers. */
  lemma LpRanksSpec(carriers: seq<Carrier>, lp: Table, groupCols: seq<Column>, groupKey: seq<Value>)
    requires !UsesAlphabetical(lp, groupCols, groupKey)
    ensures var sorted := ByLpVolume(LpGroup(lp, groupCols, groupKey));
      var ranked := LpRanks(sorted, carriers);
      var ranks := GroupRanks(carriers, lp, groupCols, groupKey);
      (forall c :: c in carriers ==> c in ranks) &&
      (forall c :: c in ranked ==> c in ranks && ranks[c] == ranked[c]) &&
      (forall c :: c in ranked ==> 1 <= ranked[c] <= |sorted| && sorted[ranked[c] - 1].carrier == c) &&
      (forall c :: c in carriers && c !in ranked ==> |ranked| + 1 <= ranks[c] < |ranked| + 1 + |carriers|) &&
      (forall c, d :: c in carriers && d in carriers && c !in ranked && d !in ranked && c != d ==> ranks[c] != ranks[d])
  {
    var sorted := ByLpVolume(LpGroup(lp, groupCols, groupKey));
    var ranked := LpRanks(sorted, carriers);
    assert GroupRanks(carriers, lp, groupCols, groupKey) == FillFrom(carriers, ranked, |ranked| + 1);
    LpRankPositions(sorted, carriers);
    FillFromSpec(carriers, ranked, |ranked| + 1);
  }

  /** Every LP rank is the 1-based position of a row of its carrier in the sorted LP group. */
  lemma LpRankPositions(sorted: seq<Shipment>, carriers: seq<Carrier>)
    ensures var ranked := LpRanks(sorted, carriers);
      forall c :: c in ranked ==> 1 <= ranked[c] <= |sorted| && sorted[ranked[c] - 1].carrier == c
  {
    var ranked := LpRanks(sorted, carriers);
    forall c | c in ranked ensures 1 <= ranked[c] <= |sorted| && sorted[ranked[c] - 1].carrier == c {
      LpRankIsLast(sorted, carriers, c);
    }
  }

  /** The fallback ranks start right after the number of LP-ranked
      carriers, not after the largest LP rank: when the sorted LP group lists
      a carrier of another group first, a carrier missing from the LP output
      shares its rank with an LP-ranked one. */
  lemma LpRankCollision(x: Shipment, a: Shipment)
    requires x.carrier == Some("X") && a.carrier == Some("A")
    ensures var carriers := [Some("A"), Some("B")];
      var ranked := LpRanks([x, a], carriers);
      var ranks := FillFrom(carriers, ranked, |ranked| + 1);
      Some("A") in ranks && Some("B") in ranks && ranks[Some("A")] == 2 && ranks[Some("B")] == 2
  {
    var carriers := [Some("A"), Some("B")];
    assert [x, a][..1] == [x] && [x][..0] == [];
    assert LpRanks([x], carriers) == map[];
    var ranked := LpRanks([x, a], carriers);
    assert ranked == map[Some("A") := 2];
    assert carriers[1..] == [Some("B")];
    assert FillFrom(carriers, ranked, 2) == FillFrom([Some("B")], ranked, 2);
  }

  /** The ranking the fallback loop evidently intends: the carriers missing
      from the LP output are numbered from one past the length of the
      sorted LP group, so after every LP rank. */
  function IntendedRanks(carriers: seq<Carrier>, lp: Table, groupCols: seq<Column>, groupKey: seq<Value>): map<Carrier, int>
  {
    if UsesAlphabetical(lp, groupCols, groupKey) then AlphabeticalRanks(carriers)
    else
      var sorted := ByLpVolume(LpGroup(lp, groupCols, groupKey));
      FillFrom(carriers, LpRanks(sorted, carriers), |sorted| + 1)
  }

  /** With LP output for the group, the intended ranking ranks every
      carrier, keeps the LP ranks, puts every other carrier after all of
      them, and gives no two carriers the same rank. */
  lemma IntendedRanksDistinct(carriers: seq<Carrier>, lp: Table, groupCols: seq<Column>, groupKey: seq<Value>)
    requires !UsesAlphabetical(lp, groupCols, groupKey)
    ensures var sorted := ByLpVolume(LpGroup(lp, groupCols, groupKey));
      var ranked := LpRanks(sorted, carriers);
      var ranks := IntendedRanks(carriers, lp, groupCols, groupKey);
      (forall c :: c in carriers ==> c in ranks) &&
      (forall c :: c in ranked ==> c in ranks && ranks[c] == ranked[c]) &&
      (forall c, d :: c in ranked && d in ranks && d !in ranked ==> ranks[c] < ranks[d]) &&
      (forall c, d :: c in ranks && d in ranks && c != d ==> ranks[c] != ranks[d])
  {
    var sorted := ByLpVolume(LpGroup(lp, groupCols, groupKey));
    var ranked := LpRanks(sorted, carriers);
    assert IntendedRanks(carriers, lp, groupCols, groupKey) == FillFrom(carriers, ranked, |sorted| + 1);
    LpRanksDistinct(sorted, carriers);
    FillAfter(carriers, ranked, |sorted| + 1);
  }

  /** Distinct carriers have distinct LP ranks, all within the sorted LP
      group. */
  lemma LpRanksDistinct(sorted: seq<Shipment>, carriers: seq<Carrier>)
    ensures forall c :: c in LpRanks(sorted, carriers) ==> 1 <= LpRanks(sorted, carriers)[c] <= |sorted|
    ensures forall c, d :: c in LpRanks(sorted, carriers) && d in LpRanks(sorted, carriers) && c != d ==>
              LpRanks(sorted, carriers)[c] != LpRanks(sorted, carriers)[d]
  {
    var ranked := LpRanks(sorted, carriers);
    LpRankPositions(sorted, carriers);
    forall c, d | c in ranked && d in ranked && c != d
      ensures ranked[c] != ranked[d]
    {
      assert sorted[ranked[c] - 1].carrier == c && sorted[ranked[d] - 1].carrier == d;
    }
  }

  /** Filling from `next` on, above distinct ranks that are all below
      `next`, gives distinct ranks with every new one above every old one. */
  lemma FillAfter(carriers: seq<Carrier>, ranks: map<Carrier, int>, next: int)
    requires forall c :: c in ranks ==> ranks[c] < next
    requires forall c, d :: c in ranks && d in ranks && c != d ==> ranks[c] != ranks[d]
    ensures var r := FillFrom(carriers, ranks, next);
      (forall c :: c in carriers ==> c in r) &&
      (forall c :: c in ranks ==> c in r && r[c] == ranks[c]) &&
      (forall c, d :: c in ranks && d in r && d !in ranks ==> r[c] < r[d]) &&
      (forall c, d :: c in r && d in r && c != d ==> r[c] != r[d])
  {
    FillFromSpec(carriers, ranks, next);
  }

  // ---------------------------------------------------------------------
  // Historical percentages
  // ---------------------------------------------------------------------

  /** A share row belongs to the group when the group's lane cell, and its
      category cell when the share table has a category, are the row's; the
      share table has no other grouping column of the cascade. */
  predicate ShareInGroup(row: ShareRow, groupCols: seq<Column>, groupKey: seq<Value>)
  {
    forall i :: 0 <= i < |groupCols| && i < |groupKey| ==>
      (groupCols[i] == LANE ==> groupKey[i] == Str(row.lane)) &&
      (groupCols[i] == CATEGORY && row.category.Some? ==> groupKey[i] == Str(row.category.value))
  }

  /** The share rows of the group; none when the share table is empty, has
      no history or could not be computed. */
  function HistGroup(share: Result<ShareTable>, groupCols: seq<Column>, groupKey: seq<Value>): (rows: seq<ShareRow>)
    ensures forall row :: row in rows <==>
      share.Success? && share.value.Shares? && row in share.value.rows && ShareInGroup(row, groupCols, groupKey)
  {
    if share.Success? && share.value.Shares? then
      Filter(share.value.rows, row => ShareInGroup(row, groupCols, groupKey))
    else []
  }

  /** `hist_dict.get(carrier, 0)` where `hist_dict` maps each carrier to
      the share of its last row. */
  function ShareOf(rows: seq<ShareRow>, c: Carrier): real
  {
    if |rows| == 0 then 0.0
    else if Some(rows[|rows| - 1].carrier) == c then rows[|rows| - 1].sharePct
    else ShareOf(rows[..|rows| - 1], c)
  }

  /** A carrier without a row gets 0. */
  lemma {:induction false} ShareOfAbsent(rows: seq<ShareRow>, c: Carrier)
    requires forall k :: 0 <= k < |rows| ==> Some(rows[k].carrier) != c
    ensures ShareOf(rows, c) == 0.0
  {
    if |rows| > 0 {
      ShareOfAbsent(rows[..|rows| - 1], c);
    }
  }

  /** Otherwise a carrier gets the share of its last row. */
  lemma {:induction false} ShareOfLast(rows: seq<ShareRow>, c: Carrier, k: nat)
    requires k < |rows| && Some(rows[k].carrier) == c
    requires forall j :: k < j < |rows| ==> Some(rows[j].carrier) != c
    ensures ShareOf(rows, c) == rows[k].sharePct
  {
    if k < |rows| - 1 {
      ShareOfLast(rows[..|rows| - 1], c, k);
    }
  }

  /** `_get_historical_percentages`. */
  function HistoricalPercentages(carriers: seq<Carrier>, share: Result<ShareTable>,
                                 groupCols: seq<Column>, groupKey: seq<Value>): map<Carrier, real>
  {
    var rows := HistGroup(share, groupCols, groupKey);
    map c | c in carriers :: ShareOf(rows, c)
  }

  /** There is a percentage for exactly the given carriers. It is 0 for a
      NaN carrier, for a carrier with no share row in the group, and for
      every carrier when the share table failed, is empty or has no
      history; otherwise it is the share of the carrier's last row in the
      group. */
  lemma HistoricalPercentagesSpec(carriers: seq<Carrier>, share: Result<ShareTable>,
                                  groupCols: seq<Column>, groupKey: seq<Value>)
    ensures var pcts := HistoricalPercentages(carriers, share, groupCols, groupKey);
      var rows := HistGroup(share, groupCols, groupKey);
      (forall c :: c in pcts <==> c in carriers) &&
      (forall c :: c in pcts && (c.None? || !share.Success? || !share.value.Shares?) ==> pcts[c] == 0.0) &&
      (forall c :: c in pcts && (forall row :: row in rows ==> Some(row.carrier) != c) ==> pcts[c] == 0.0) &&
      (forall c, k :: (c in pcts && 0 <= k < |rows| && Some(rows[k].carrier) == c &&
         (forall j :: k < j < |rows| ==> Some(rows[j].carrier) != c)) ==> pcts[c] == rows[k].sharePct)
  {
    var rows := HistGroup(share, groupCols, groupKey);
    forall c | c in carriers && forall row :: row in rows ==> Some(row.carrier) != c {
      ShareOfAbsent(rows, c);
    }
    forall c, k | c in carriers && 0 <= k < |rows| && Some(rows[k].carrier) == c &&
      (forall j :: k < j < |rows| ==> Some(rows[j].carrier) != c) {
      ShareOfLast(rows, c, k);
    }
  }

  // ---------------------------------------------------------------------
  // The row loop and its container IDs
  // ---------------------------------------------------------------------

  datatype VolumeChange = Increase | Decrease | Stable

  /** A row of the cascading result: the carrier's row with its new count,
      IDs and costs, and the columns the cascade adds (the notes text is
      not modelled). */
  datatype AllocatedRow = AllocatedRow(
    row: Shipment,
    rank: int,
    historicalPct: real,
    newPct: real,
    change: VolumeChange,
    growthConstrained: bool)

  /** `Volume_Change`: more than 0.1 points up or down, else stable. */
  function ChangeOf(newPct: real, hist: real): VolumeChange
  {
    if newPct > hist + 0.1 then Increase
    else if newPct < hist - 0.1 then Decrease
    else Stable
  }

  /** The largest share, in percent, the first pass allows. */
  function GrowthLimit(hist: real, g: real): real
  {
    if hist > 0.0 then hist * (1.0 + g) else 100.0
  }

  function SharePct(count: int, total: int): real
  {
    if total > 0 then count as real / total as real * 100.0 else 0.0
  }

  /** `rate * count`, NaN when the rate is NaN. */
  function Times(rate: Option<real>, count: int): Option<real>
  {
    if rate.Some? then Some(rate.value * count as real) else None
  }

  /** The row emitted for a carrier with a non-zero count: a copy of its
      last row with the new count and IDs; the costs are recomputed where
      the rate is known. */
  function EmittedRow(base: Shipment, count: int, ids: Option<string>, rank: int, hist: real, total: int, g: real): AllocatedRow
  {
    var pct := SharePct(count, total);
    var row := base.(count := count, ids := ids,
                     totalRate := if base.baseRate.Some? then Times(base.baseRate, count) else base.totalRate,
                     totalCpc := if base.cpc.Some? then Times(base.cpc, count) else base.totalCpc);
    AllocatedRow(row, rank, hist, pct, ChangeOf(pct, hist), pct >= GrowthLimit(hist, g) - 0.1)
  }

  /** `carrier_data`: each carrier of the group mapped to its row, a later
      row of the same carrier replacing an earlier one. */
  function CarrierData(group: seq<Shipment>): map<Carrier, Shipment>
  {
    if |group| == 0 then map[]
    else CarrierData(group[..|group| - 1])[group[|group| - 1].carrier := group[|group| - 1]]
  }

  /** Row `k` is the group's last row of carrier `c`. */
  predicate IsLastOf(group: seq<Shipment>, k: nat, c: Carrier)
  {
    k < |group| && group[k].carrier == c && forall j :: k < j < |group| ==> group[j].carrier != c
  }

  /** Every carrier of the group has an entry. */
  lemma {:induction false} CarrierDataDomain(group: seq<Shipment>)
    ensures forall c :: c in CarrierData(group) <==> c in CarriersOf(group)
  {
    if |group| > 0 {
      var p := group[..|group| - 1];
      CarrierDataDomain(p);
      assert CarriersOf(group) == CarriersOf(p) + [group[|group| - 1].carrier];
    }
  }

  /** A carrier's entry is the group's last row of that carrier. */
  lemma {:induction false} CarrierDataLast(group: seq<Shipment>, c: Carrier) returns (k: nat)
    requires c in CarrierData(group)
    ensures IsLastOf(group, k, c) && group[k] == CarrierData(group)[c]
  {
    var p := group[..|group| - 1];
    if c == group[|group| - 1].carrier {
      k := |group| - 1;
    } else {
      k := CarrierDataLast(p, c);
      assert group[k] == p[k];
    }
  }

  /** Each carrier's row is a row of that carrier. */
  predicate KeyedByCarrier(data: map<Carrier, Shipment>)
  {
    forall c :: c in data ==> data[c].carrier == c
  }

  /** `carrier_data` maps each carrier to one of its own rows. */
  lemma CarrierDataKeyed(group: seq<Shipment>)
    ensures KeyedByCarrier(CarrierData(group))
  {
    forall c | c in CarrierData(group)
      ensures CarrierData(group)[c].carrier == c
    {
      var k := CarrierDataLast(group, c);
    }
  }

  /** A row's IDs: its slice of the pool, or its own IDs once the pool is
      used up. */
  function IdsAfter(slice: Option<seq<string>>, own: Option<string>): Option<string>
  {
    if slice.Some? then Some(Join(", ", slice.value)) else own
  }

  function Min(a: int, b: int): int
  {
    if a <= b then a else b
  }
}
