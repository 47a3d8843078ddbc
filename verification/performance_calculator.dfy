/** components/performance_calculator.py: each carrier's volume-weighted
    performance score, the best-performing carrier of a lane/week group, and
    the cost of giving every lane/week's volume to its best performer. */
module PerformanceCalculator {
  import opened Wrappers
  import opened PyMath
  import opened Seqs
  import opened Frame
  import opened Groups

  // ----- Volume-weighted performance per carrier -----

  /** Sum of the scores of `rows` (a missing score adds nothing). */
  function ScoreSum(rows: seq<Shipment>): real
  {
    if |rows| == 0 then 0.0
    else ScoreSum(rows[..|rows| - 1]) + rows[|rows| - 1].perf.GetOr(0.0)
  }

  /** Sum of score times container count over `rows`. */
  function WeightedScoreSum(rows: seq<Shipment>): real
  {
    if |rows| == 0 then 0.0
    else WeightedScoreSum(rows[..|rows| - 1]) + rows[|rows| - 1].perf.GetOr(0.0) * rows[|rows| - 1].count as real
  }

  /** The average of a carrier's scored rows: weighted by container count
      when counts are used and their total is positive, the plain mean
      otherwise. */
  function CarrierAverage(scored: seq<Shipment>, useCount: bool): real
    requires |scored| > 0
  {
    if useCount && SumCounts(scored) > 0 then WeightedScoreSum(scored) / SumCounts(scored) as real
    else ScoreSum(scored) / |scored| as real
  }

  lemma {:induction false} ScoreSumsWithin(rows: seq<Shipment>, lo: real, hi: real)
    requires forall r :: r in rows ==> r.perf.Some? && lo <= r.perf.value <= hi
    ensures lo * |rows| as real <= ScoreSum(rows) <= hi * |rows| as real
  {
    if |rows| > 0 {
      var init := rows[..|rows| - 1];
      assert forall r :: r in init ==> r in rows;
      ScoreSumsWithin(init, lo, hi);
      assert rows[|rows| - 1] in rows;
      ScoreSumStep(rows, lo, hi);
    } else {
      EmptyWithin(lo, hi, ScoreSum(rows), |rows| as real);
    }
  }

  lemma ScoreSumStep(rows: seq<Shipment>, lo: real, hi: real)
    requires |rows| > 0
    requires var init := rows[..|rows| - 1]; lo * |init| as real <= ScoreSum(init) <= hi * |init| as real
    requires var x := rows[|rows| - 1]; x.perf.Some? && lo <= x.perf.value <= hi
    ensures lo * |rows| as real <= ScoreSum(rows) <= hi * |rows| as real
  {
    var init, x := rows[..|rows| - 1], rows[|rows| - 1];
    AccumulateWithin(ScoreSum(init), |init| as real, x.perf.value, 1.0, lo, hi, ScoreSum(rows), |rows| as real);
  }

  lemma {:induction false} WeightedSumsWithin(rows: seq<Shipment>, lo: real, hi: real)
    requires forall r :: r in rows ==> r.perf.Some? && lo <= r.perf.value <= hi && r.count >= 0
    ensures lo * SumCounts(rows) as real <= WeightedScoreSum(rows) <= hi * SumCounts(rows) as real
  {
    if |rows| > 0 {
      var init := rows[..|rows| - 1];
      assert forall r :: r in init ==> r in rows;
      WeightedSumsWithin(init, lo, hi);
      assert rows[|rows| - 1] in rows;
      WeightedSumStep(rows, lo, hi);
    } else {
      EmptyWithin(lo, hi, WeightedScoreSum(rows), SumCounts(rows) as real);
    }
  }

  lemma WeightedSumStep(rows: seq<Shipment>, lo: real, hi: real)
    requires |rows| > 0
    requires var init := rows[..|rows| - 1];
      lo * SumCounts(init) as real <= WeightedScoreSum(init) <= hi * SumCounts(init) as real
    requires var x := rows[|rows| - 1]; x.perf.Some? && lo <= x.perf.value <= hi && x.count >= 0
    ensures lo * SumCounts(rows) as real <= WeightedScoreSum(rows) <= hi * SumCounts(rows) as real
  {
    var init, x := rows[..|rows| - 1], rows[|rows| - 1];
    AccumulateWithin(WeightedScoreSum(init), SumCounts(init) as real, x.perf.value, x.count as real, lo, hi,
                     WeightedScoreSum(rows), SumCounts(rows) as real);
  }

  /** A carrier's average lies between its lowest and its highest score
      (given non-negative container counts). */
  lemma AverageWithinScores(scored: seq<Shipment>, useCount: bool, lo: real, hi: real)
    requires |scored| > 0
    requires forall r :: r in scored ==> r.perf.Some? && lo <= r.perf.value <= hi && r.count >= 0
    ensures lo <= CarrierAverage(scored, useCount) <= hi
  {
    if useCount && SumCounts(scored) > 0 {
      WeightedSumsWithin(scored, lo, hi);
      QuotientWithin(WeightedScoreSum(scored), SumCounts(scored) as real, lo, hi);
    } else {
      ScoreSumsWithin(scored, lo, hi);
      QuotientWithin(ScoreSum(scored), |scored| as real, lo, hi);
    }
  }

  /** `carrier_col`: "Carrier" when present, else "Dray SCAC(FL)". */
  function CarrierColumn(columns: set<Column>): Column
  {
    if CARRIER_ALT in columns then CARRIER_ALT else CARRIER
  }

  /** The carrier cells of one column, NaN included (`unique()`'s input). */
  function CarrierCells(rows: seq<Shipment>, col: Column): (cells: seq<Value>)
    ensures |cells| == |rows| && forall i :: 0 <= i < |rows| ==> cells[i] == Cell(rows[i], col)
  {
    seq(|rows|, i requires 0 <= i < |rows| => Cell(rows[i], col))
  }

  /** The rows of carrier `c` that have a performance score. */
  function Scored(rows: seq<Shipment>, col: Column, c: string): (s: seq<Shipment>)
    ensures forall r :: r in s <==> r in rows && Cell(r, col) == Str(c) && r.perf.Some?
  {
    Filter(rows, (r: Shipment) => Cell(r, col) == Str(c) && r.perf.Some?)
  }

  predicate HasScore(t: Table, col: Column, c: string)
  {
    |Scored(t.rows, col, c)| > 0
  }

  /** The average `get_carrier_weighted_performance` gives a scored carrier. */
  function Average(t: Table, col: Column, c: string): real
    requires HasScore(t, col, c)
  {
    CarrierAverage(Scored(t.rows, col, c), COUNT in t.columns)
  }

  /** One turn of the loop: the entry, if any, for one carrier cell. */
  function Step(t: Table, col: Column, m: map<string, real>, v: Value): map<string, real>
  {
    if v.Str? && HasScore(t, col, v.s) then m[v.s := Average(t, col, v.s)] else m
  }

  /** The dictionary built over `cells` in turn: an entry for each carrier
      named there that has a score. */
  function Averages(t: Table, col: Column, cells: seq<Value>): (m: map<string, real>)
    ensures forall c :: c in m <==> Str(c) in cells && HasScore(t, col, c)
    ensures forall c :: c in m ==> m[c] == Average(t, col, c)
  {
    if |cells| == 0 then map[]
    else
      var init := cells[..|cells| - 1];
      var v := cells[|cells| - 1];
      assert forall x :: x in cells <==> x in init || x == v by {
        assert cells == init + [v];
      }
      Step(t, col, Averages(t, col, init), v)
  }

  /** What `get_carrier_weighted_performance` returns: an entry for exactly
      the carriers having at least one score, holding that carrier's average. */
  function WeightedPerformance(t: Table): (w: map<string, real>)
    ensures forall c :: c in w <==>
      exists r :: r in t.rows && Cell(r, CarrierColumn(t.columns)) == Str(c) && r.perf.Some?
    ensures forall c :: c in w ==>
      w[c] == CarrierAverage(Scored(t.rows, CarrierColumn(t.columns), c), COUNT in t.columns)
  {
    var col := CarrierColumn(t.columns);
    var cells := Dedupe(CarrierCells(t.rows, col));
    forall c | exists r :: r in t.rows && Cell(r, col) == Str(c) && r.perf.Some?
      ensures Str(c) in cells && |Scored(t.rows, col, c)| > 0
    {
      var r :| r in t.rows && Cell(r, col) == Str(c) && r.perf.Some?;
      var i :| 0 <= i < |t.rows| && t.rows[i] == r;
      assert CarrierCells(t.rows, col)[i] == Str(c);
      assert r in Scored(t.rows, col, c);
    }
    forall c | Str(c) in cells && |Scored(t.rows, col, c)| > 0
      ensures exists r :: r in t.rows && Cell(r, col) == Str(c) && r.perf.Some?
    {
      assert Scored(t.rows, col, c)[0] in Scored(t.rows, col, c);
    }
    Averages(t, col, cells)
  }

  lemma AveragesStep(t: Table, col: Column, cells: seq<Value>, i: nat)
    requires i < |cells|
    ensures Averages(t, col, cells[..i + 1]) == Step(t, col, Averages(t, col, cells[..i]), cells[i])
  {
    var p := cells[..i + 1];
    assert |p| == i + 1 && p[..i] == cells[..i] && p[i] == cells[i];
  }

  /** `get_carrier_weighted_performance`: one pass over the
      distinct carrier cells; a NaN cell equals no cell and adds nothing. */
  method GetCarrierWeightedPerformance(t: Table) returns (weighted: map<string, real>)
    ensures weighted == WeightedPerformance(t)
  {
    var col := CarrierColumn(t.columns);
    var carriers := Dedupe(CarrierCells(t.rows, col));
    weighted := map[];
    var i := 0;
    while i < |carriers|
      invariant 0 <= i <= |carriers|
      invariant weighted == Averages(t, col, carriers[..i])
    {
      var v := carriers[i];
      var scored := if v.Str? then Scored(t.rows, col, v.s) else [];
      AveragesStep(t, col, carriers, i);
      if |scored| > 0 && COUNT in t.columns {
        var volume := SumCounts(scored);
        if volume > 0 {
          weighted := weighted[v.s := WeightedScoreSum(scored) / volume as real];
        } else {
          weighted := weighted[v.s := ScoreSum(scored) / |scored| as real];
        }
      } else if |scored| > 0 {
        weighted := weighted[v.s := ScoreSum(scored) / |scored| as real];
      }
      i := i + 1;
    }
    assert carriers[..i] == carriers;
  }

  // ----- The inline per-carrier scores of calculate_performance_optimization -----

  /** The inline score of `calculate_performance_optimization` as written: the
      weighted average of the
      carrier's scored rows with no guard on the volume, so a zero volume
      divides by zero (`None`: NaN, or an infinity when the numerator is
      not zero); 0 for a carrier without scores. */
  function InlineScoreAsWritten(t: Table, c: string): Option<real>
  {
    var scored := Scored(t.rows, CARRIER, c);
    if |scored| > 0 then
      if SumCounts(scored) == 0 then None
      else Some(WeightedScoreSum(scored) / SumCounts(scored) as real)
    else Some(0.0)
  }

  /** A carrier whose scored rows carry no containers gets no usable
      score, although it has scores. */
  lemma ZeroVolumeScoreIsLost(t: Table, c: string)
    requires HasScore(t, CARRIER, c) && SumCounts(Scored(t.rows, CARRIER, c)) == 0
    ensures InlineScoreAsWritten(t, c) == None
  {
  }

  /** A row of carrier `c` with score `p` and `n` containers. */
  function ScoredRow(c: string, p: real, n: int): Shipment
  {
    Shipment(None, None, None, None, Some("L"), None, None, Some(1), Some(c), None, n,
             None, None, None, None, None, Some(p), None, None)
  }

  /** The smallest such input: one row of carrier "A" with score 70 and
      no containers. The inline score is NaN; the corrected one is 70. */
  lemma ZeroVolumeExample()
    ensures var t := Table({LANE, WEEK, CARRIER, COUNT, PERFORMANCE}, [ScoredRow("A", 70.0, 0)]);
      InlineScoreAsWritten(t, "A") == None && CarrierScore(t, "A") == 70.0
  {
    var t := Table({LANE, WEEK, CARRIER, COUNT, PERFORMANCE}, [ScoredRow("A", 70.0, 0)]);
    var r := ScoredRow("A", 70.0, 0);
    assert r in Scored(t.rows, CARRIER, "A");
    assert Scored(t.rows, CARRIER, "A") == [r];
    assert SumCounts([r]) == 0;
    assert ScoreSum([r]) == 70.0;
  }

  /** The corrected inline score: the same volume-weighted average with the
      plain-mean fallback that `get_carrier_weighted_performance` applies
      when the volume is not positive; 0 for a carrier without scores. */
  function CarrierScore(t: Table, c: string): real
  {
    if HasScore(t, CARRIER, c) then CarrierAverage(Scored(t.rows, CARRIER, c), true) else 0.0
  }

  /** With the fallback, a carrier's score lies between its lowest and
      highest score (non-negative counts), where the inline one is NaN. */
  lemma CarrierScoreWithinScores(t: Table, c: string, lo: real, hi: real)
    requires HasScore(t, CARRIER, c)
    requires forall r :: r in t.rows && r.carrier == Some(c) && r.perf.Some? ==>
      lo <= r.perf.value <= hi && r.count >= 0
    ensures lo <= CarrierScore(t, c) <= hi
  {
    AverageWithinScores(Scored(t.rows, CARRIER, c), true, lo, hi);
  }

  /** Where the inline score is defined, the corrected one agrees with it. */
  lemma CarrierScoreAgrees(t: Table, c: string)
    requires InlineScoreAsWritten(t, c).Some?
    requires HasScore(t, CARRIER, c) ==> SumCounts(Scored(t.rows, CARRIER, c)) > 0
    ensures InlineScoreAsWritten(t, c) == Some(CarrierScore(t, c))
  {
  }

  /** The carrier-score dictionary (corrected) built over `cells`: an
      entry for each carrier named there. */
  function ScoresOver(t: Table, cells: seq<Value>): (m: map<string, real>)
    ensures forall c :: c in m <==> Str(c) in cells
    ensures forall c :: c in m ==> m[c] == CarrierScore(t, c)
  {
    if |cells| == 0 then map[]
    else
      var init := cells[..|cells| - 1];
      var v := cells[|cells| - 1];
      assert forall x :: x in cells <==> x in init || x == v by {
        assert cells == init + [v];
      }
      ScoreStep(t, ScoresOver(t, init), v)
  }

  function ScoreStep(t: Table, m: map<string, real>, v: Value): map<string, real>
  {
    if v.Str? then m[v.s := CarrierScore(t, v.s)] else m
  }

  lemma ScoresStep(t: Table, cells: seq<Value>, i: nat)
    requires i < |cells|
    ensures ScoresOver(t, cells[..i + 1]) == ScoreStep(t, ScoresOver(t, cells[..i]), cells[i])
  {
    var p := cells[..i + 1];
    assert |p| == i + 1 && p[..i] == cells[..i] && p[i] == cells[i];
  }

  /** Every carrier of the table, with its (corrected) inline score. */
  function CarrierScores(t: Table): (m: map<string, real>)
    ensures forall c :: c in m <==> exists r :: r in t.rows && r.carrier == Some(c)
    ensures forall c :: c in m ==> m[c] == CarrierScore(t, c)
  {
    var cells := Dedupe(CarrierCells(t.rows, CARRIER));
    CarrierCellsNamed(t.rows);
    ScoresOver(t, cells)
  }

  /** The deduplicated carrier cells name exactly the carriers of `rows`. */
  lemma CarrierCellsNamed(rows: seq<Shipment>)
    ensures forall c :: Str(c) in Dedupe(CarrierCells(rows, CARRIER)) <==> exists r :: r in rows && r.carrier == Some(c)
  {
    var cells := Dedupe(CarrierCells(rows, CARRIER));
    forall c | exists r :: r in rows && r.carrier == Some(c)
      ensures Str(c) in cells
    {
      var r :| r in rows && r.carrier == Some(c);
      var i :| 0 <= i < |rows| && rows[i] == r;
      assert CarrierCells(rows, CARRIER)[i] == Str(c);
    }
    forall c | Str(c) in cells
      ensures exists r :: r in rows && r.carrier == Some(c)
    {
      var i :| 0 <= i < |rows| && CarrierCells(rows, CARRIER)[i] == Str(c);
      assert rows[i].carrier == Some(c);
    }
  }

  /** The carrier-score dictionary with the zero-volume fallback: one entry per
      carrier (a
      NaN carrier forms no group). */
  method ComputeCarrierScores(t: Table) returns (scores: map<string, real>)
    ensures scores == CarrierScores(t)
  {
    var carriers := Dedupe(CarrierCells(t.rows, CARRIER));
    scores := map[];
    var i := 0;
    while i < |carriers|
      invariant 0 <= i <= |carriers|
      invariant scores == ScoresOver(t, carriers[..i])
    {
      var v := carriers[i];
      ScoresStep(t, carriers, i);
      if v.Str? {
        var scored := Scored(t.rows, CARRIER, v.s);
        var score := 0.0;
        if |scored| > 0 {
          var volume := SumCounts(scored);
          if volume > 0 {
            score := WeightedScoreSum(scored) / volume as real;
          } else {
            score := ScoreSum(scored) / |scored| as real;
          }
        }
        assert score == CarrierScore(t, v.s);
        scores := scores[v.s := score];
      }
      i := i + 1;
    }
    assert carriers[..i] == carriers;
  }

  /** `dict.get(carrier, 0)`: a NaN carrier or one without an entry gets 0. */
  function Lookup(scores: map<string, real>, carrier: Option<string>): real
  {
    if carrier.Some? && carrier.value in scores then scores[carrier.value] else 0.0
  }

  /** Looked up by carrier, the inline scores and those of
      `get_carrier_weighted_performance` agree on a table that has a
      container count column and no "Carrier" column. */
  lemma CarrierScoresMatchWeighted(t: Table, carrier: Option<string>)
    requires COUNT in t.columns && CARRIER_ALT !in t.columns
    ensures Lookup(CarrierScores(t), carrier) == Lookup(WeightedPerformance(t), carrier)
  {
    if carrier.Some? {
      var c := carrier.value;
      if HasScore(t, CARRIER, c) {
        var r := Scored(t.rows, CARRIER, c)[0];
        assert r in Scored(t.rows, CARRIER, c);
        assert Cell(r, CARRIER) == Str(c);
      }
    }
  }

  // ----- The best performer of a lane/week group -----

  datatype Source = Actual | VolumeWeightedAverage

  /** A carrier's entry in `carriers_performance`. */
  datatype Offer = Offer(perf: real, rate: Option<real>, source: Source)

  /** `(best_carrier, best_performance, performance_source, best_rate)`;
      `NoData` is `(None, 0, 'No Data', 0)`. */
  datatype Best = NoData | Best(carrier: Option<string>, perf: real, source: Source, rate: Option<real>)

  /** `rate_col`: CPC for the CPC rate type, Base Rate otherwise. */
  function RateOf(r: Shipment, useCpc: bool): Option<real>
  {
    if useCpc then r.cpc else r.baseRate
  }

  /** The row's score when it has one, else its carrier's average, else 0. */
  function Effective(r: Shipment, scores: map<string, real>, useCpc: bool): Offer
  {
    if r.perf.Some? then Offer(r.perf.value, RateOf(r, useCpc), Actual)
    else Offer(Lookup(scores, r.carrier), RateOf(r, useCpc), VolumeWeightedAverage)
  }

  /** The carrier cells of a group in row order (a NaN carrier is one key). */
  function CarrierSeq(group: seq<Shipment>): (cs: seq<Option<string>>)
    ensures |cs| == |group| && forall i :: 0 <= i < |group| ==> cs[i] == group[i].carrier
  {
    seq(|group|, i requires 0 <= i < |group| => group[i].carrier)
  }

  /** `carriers_performance` after the rows of `group`: each row overwrites
      its carrier's entry. */
  function Offers(group: seq<Shipment>, scores: map<string, real>, useCpc: bool): (m: map<Option<string>, Offer>)
    ensures forall c :: c in m <==> c in CarrierSeq(group)
  {
    if |group| == 0 then map[]
    else
      var init := group[..|group| - 1];
      var x := group[|group| - 1];
      assert CarrierSeq(group) == CarrierSeq(init) + [x.carrier];
      OfferStep(Offers(init, scores, useCpc), x, scores, useCpc)
  }

  /** One row's turn: it overwrites its carrier's entry. */
  function OfferStep(m: map<Option<string>, Offer>, x: Shipment, scores: map<string, real>, useCpc: bool): map<Option<string>, Offer>
  {
    m[x.carrier := Effective(x, scores, useCpc)]
  }

  /** A carrier's entry comes from its last row in the group. */
  lemma {:induction false} OffersLastWins(group: seq<Shipment>, scores: map<string, real>, useCpc: bool, j: nat)
    requires j < |group|
    requires forall k :: j < k < |group| ==> group[k].carrier != group[j].carrier
    ensures group[j].carrier in Offers(group, scores, useCpc)
    ensures Offers(group, scores, useCpc)[group[j].carrier] == Effective(group[j], scores, useCpc)
  {
    if j < |group| - 1 {
      var init := group[..|group| - 1];
      assert init[j] == group[j];
      OffersLastWins(init, scores, useCpc, j);
    }
  }

  lemma OffersStep(group: seq<Shipment>, scores: map<string, real>, useCpc: bool, i: nat)
    requires i < |group|
    ensures Offers(group[..i + 1], scores, useCpc) == OfferStep(Offers(group[..i], scores, useCpc), group[i], scores, useCpc)
  {
    var p := group[..i + 1];
    assert |p| == i + 1 && p[..i] == group[..i] && p[i] == group[i];
  }

  lemma KeysStep(group: seq<Shipment>, i: nat)
    requires i < |group|
    ensures var c := group[i].carrier;
      var d := Dedupe(CarrierSeq(group[..i]));
      Dedupe(CarrierSeq(group[..i + 1])) == (if c in CarrierSeq(group[..i]) then d else d + [c])
  {
    var p := group[..i + 1];
    assert |p| == i + 1 && p[..i] == group[..i] && p[i] == group[i];
    var cs := CarrierSeq(p);
    assert cs[..i] == CarrierSeq(group[..i]);
    InDedupe(CarrierSeq(group[..i]), group[i].carrier);
  }

  /** The rows of a group in turn: the dictionary's keys in
      insertion order, and its final entries. */
  method CollectOffers(group: seq<Shipment>, scores: map<string, real>, useCpc: bool)
    returns (keys: seq<Option<string>>, offers: map<Option<string>, Offer>)
    ensures keys == Dedupe(CarrierSeq(group))
    ensures offers == Offers(group, scores, useCpc)
  {
    keys := [];
    offers := map[];
    var i := 0;
    while i < |group|
      invariant 0 <= i <= |group|
      invariant keys == Dedupe(CarrierSeq(group[..i]))
      invariant offers == Offers(group[..i], scores, useCpc)
    {
      var record := group[i];
      var carrier := record.carrier;
      var offer;
      if record.perf.Some? {
        offer := Offer(record.perf.value, RateOf(record, useCpc), Actual);
      } else {
        offer := Offer(Lookup(scores, carrier), RateOf(record, useCpc), VolumeWeightedAverage);
      }
      OffersStep(group, scores, useCpc, i);
      KeysStep(group, i);
      if carrier !in offers {
        keys := keys + [carrier];
      }
      offers := offers[carrier := offer];
      i := i + 1;
    }
    assert group[..i] == group;
  }

  /** Python `max` by key: the first position of a largest value (a later
      value replaces the current one only when strictly greater). */
  function ArgMax(xs: seq<real>): (m: nat)
    requires |xs| > 0
    ensures m < |xs|
    ensures forall i :: 0 <= i < |xs| ==> xs[i] <= xs[m]
    ensures forall i :: 0 <= i < m ==> xs[i] < xs[m]
  {
    if |xs| == 1 then 0
    else
      var b := ArgMax(xs[..|xs| - 1]);
      if xs[|xs| - 1] > xs[b] then |xs| - 1 else b
  }

  /** The performances of the dictionary's keys, in key order. */
  function Perfs(keys: seq<Option<string>>, offers: map<Option<string>, Offer>): (ps: seq<real>)
    requires forall k :: k in keys ==> k in offers
    ensures |ps| == |keys| && forall i :: 0 <= i < |keys| ==> ps[i] == offers[keys[i]].perf
  {
    seq(|keys|, i requires 0 <= i < |keys| => offers[keys[i]].perf)
  }

  /** The dictionary's best entry: the first key of highest performance. */
  function BestEntry(keys: seq<Option<string>>, offers: map<Option<string>, Offer>): (b: Best)
    requires |keys| > 0 && forall k :: k in keys ==> k in offers
    ensures b.Best? && b.carrier in keys
  {
    var best := keys[ArgMax(Perfs(keys, offers))];
    Best(best, offers[best].perf, offers[best].source, offers[best].rate)
  }

  /** What `find_best_performer_for_lane_week` returns for a group. */
  function BestPerformer(group: seq<Shipment>, scores: map<string, real>, useCpc: bool): (b: Best)
    ensures b.NoData? <==> |group| == 0
  {
    if |group| == 0 then NoData
    else
      var keys := Dedupe(CarrierSeq(group));
      assert CarrierSeq(group)[0] in keys;
      BestEntry(keys, Offers(group, scores, useCpc))
  }

  /** A carrier's earlier rows in the group do not count: with rows A (90),
      B (50), A (10), A's entry holds 10 and B is the best performer,
      though A's first row scored higher. */
  lemma LastRowOfCarrierDecides()
    ensures var g := [ScoredRow("A", 90.0, 1), ScoredRow("B", 50.0, 1), ScoredRow("A", 10.0, 1)];
      BestPerformer(g, map[], false) == Best(Some("B"), 50.0, Actual, None)
  {
    var g := [ScoredRow("A", 90.0, 1), ScoredRow("B", 50.0, 1), ScoredRow("A", 10.0, 1)];
    var cs := CarrierSeq(g);
    assert cs == [Some("A"), Some("B"), Some("A")];
    assert cs[..2][..1] == [Some("A")];
    assert Dedupe(cs) == [Some("A"), Some("B")];
    OffersLastWins(g, map[], false, 1);
    OffersLastWins(g, map[], false, 2);
    var offers := Offers(g, map[], false);
    assert Perfs([Some("A"), Some("B")], offers) == [10.0, 50.0];
  }

  /** The collected dictionary is empty exactly for an empty group, and
      otherwise its best entry is the group's best performer. */
  lemma CollectedBest(group: seq<Shipment>, scores: map<string, real>, useCpc: bool,
                      keys: seq<Option<string>>, offers: map<Option<string>, Offer>)
    requires keys == Dedupe(CarrierSeq(group)) && offers == Offers(group, scores, useCpc)
    ensures |keys| > 0 <==> BestPerformer(group, scores, useCpc).Best?
    ensures |keys| > 0 ==> forall k :: k in keys ==> k in offers
    ensures |keys| > 0 ==> BestEntry(keys, offers) == BestPerformer(group, scores, useCpc)
  {
    if |group| > 0 {
      assert CarrierSeq(group)[0] in keys;
    }
  }

  /** `find_best_performer_for_lane_week`. */
  method FindBestPerformer(group: seq<Shipment>, weighted: map<string, real>, rateType: string) returns (b: Best)
    ensures b == BestPerformer(group, weighted, rateType == "CPC")
  {
    var keys, offers := CollectOffers(group, weighted, rateType == "CPC");
    CollectedBest(group, weighted, rateType == "CPC", keys, offers);
    if |keys| > 0 {
      b := BestEntry(keys, offers);
    } else {
      b := NoData;
    }
  }

  /** Keys of `dict.fromkeys(cs)` are ordered as their first occurrences. */
  lemma EarlierKey<T>(cs: seq<T>, i: nat, m: nat)
    requires i < |Dedupe(cs)| && m < |Dedupe(cs)|
    requires IndexOf(cs, Dedupe(cs)[i]) < IndexOf(cs, Dedupe(cs)[m])
    ensures i < m
  {
    DedupeOrder(cs);
  }

  /** The best performer's entry is its carrier's, no carrier of the group
      performs better, and every carrier first met before it performs
      strictly worse (ties go to the first). */
  lemma BestPerformerIsBest(group: seq<Shipment>, scores: map<string, real>, useCpc: bool)
    requires |group| > 0
    ensures var b := BestPerformer(group, scores, useCpc);
      var offers := Offers(group, scores, useCpc);
      var cs := CarrierSeq(group);
      b.Best? && b.carrier in offers && offers[b.carrier] == Offer(b.perf, b.rate, b.source) &&
      (forall c :: c in offers ==> offers[c].perf <= b.perf) &&
      (forall c :: c in offers && IndexOf(cs, c) < IndexOf(cs, b.carrier) ==> offers[c].perf < b.perf)
  {
    var cs := CarrierSeq(group);
    var keys := Dedupe(cs);
    var offers := Offers(group, scores, useCpc);
    assert cs[0] in keys;
    var ps := Perfs(keys, offers);
    var m := ArgMax(ps);
    forall c | c in offers ensures offers[c].perf <= offers[keys[m]].perf
    {
      var i :| 0 <= i < |keys| && keys[i] == c;
    }
    forall c | c in offers && IndexOf(cs, c) < IndexOf(cs, keys[m])
      ensures offers[c].perf < offers[keys[m]].perf
    {
      var i :| 0 <= i < |keys| && keys[i] == c;
      EarlierKey(cs, i, m);
    }
  }

  // ----- The performance-based cost of all lane/week groups -----

  /** `group_cols`: Lane and Week Number, and Category when present. */
  function PerfGroupColumns(columns: set<Column>): (cols: seq<Column>)
    ensures |cols| == if CATEGORY in columns then 3 else 2
  {
    [LANE, WEEK] + (if CATEGORY in columns then [CATEGORY] else [])
  }

  /** `total_rate_col`: Total CPC for the CPC rate type, Total Rate otherwise. */
  function TotalOf(r: Shipment, useCpc: bool): Option<real>
  {
    if useCpc then r.totalCpc else r.totalRate
  }

  /** The columns the calculation reads once the score column is present;
      a missing one raises KeyError. */
  predicate Readable(t: Table, useCpc: bool)
  {
    CARRIER in t.columns && LANE in t.columns && WEEK in t.columns &&
    ((exists r :: r in t.rows && r.carrier.Some? && r.perf.Some?) ==> COUNT in t.columns) &&
    (GroupKeys(t.rows, PerfGroupColumns(t.columns)) != [] ==>
       COUNT in t.columns && (if useCpc then CPC in t.columns && TOTAL_CPC in t.columns
                              else BASE_RATE in t.columns && TOTAL_RATE in t.columns))
  }

  /** NaN-propagating arithmetic on cells (`None` is NaN). */
  function Plus(a: Option<real>, b: Option<real>): Option<real>
  {
    if a.Some? && b.Some? then Some(a.value + b.value) else None
  }

  function Minus(a: Option<real>, b: Option<real>): Option<real>
  {
    if a.Some? && b.Some? then Some(a.value - b.value) else None
  }

  function Times(rate: Option<real>, n: int): Option<real>
  {
    if rate.Some? then Some(rate.value * n as real) else None
  }

  /** `row.get(column, '')`. */
  function TextOr(columns: set<Column>, col: Column, v: Option<string>): Option<string>
  {
    if col in columns then v else Some("")
  }

  /** One record of `performance_data_list`. */
  datatype Detail = Detail(
    lane: Value, week: Value, category: Value,
    currentCarrier: Option<string>, currentRate: Option<real>, currentTotal: Option<real>,
    currentPerf: Option<real>, count: int,
    bestCarrier: Option<string>, bestRate: Option<real>, bestScore: real, bestSource: Source,
    hypothetical: Option<real>, costDifference: Option<real>, perfDifference: Option<real>,
    port: Option<string>, facility: Option<string>, scac: Option<string>)

  /** The record of row `r` of the group with key `key` and best entry `b`. */
  function DetailOf(t: Table, key: seq<Value>, r: Shipment, b: Best, useCpc: bool): Detail
    requires b.Best? && |key| == |PerfGroupColumns(t.columns)|
  {
    var hypothetical := Times(b.rate, r.count);
    Detail(key[0], key[1], if CATEGORY in t.columns then key[2] else Str(""),
           r.carrier, RateOf(r, useCpc), TotalOf(r, useCpc), r.perf, r.count,
           b.carrier, b.rate, b.perf, b.source,
           hypothetical, Minus(hypothetical, TotalOf(r, useCpc)), Minus(Some(b.perf), r.perf),
           TextOr(t.columns, PORT, r.port), TextOr(t.columns, FACILITY, r.facility), r.carrier)
  }

  /** The rows of one lane/week group, in table order. */
  function Group(t: Table, key: seq<Value>): seq<Shipment>
  {
    RowsWithKey(t.rows, PerfGroupColumns(t.columns), key)
  }

  /** The best entry of a group, scored with the (corrected) inline scores. */
  function GroupBest(t: Table, key: seq<Value>, useCpc: bool): Best
  {
    BestPerformer(Group(t, key), CarrierScores(t), useCpc)
  }

  /** The records of one group `g` with best entry `b`: one per row. */
  function GroupDetails(t: Table, key: seq<Value>, g: seq<Shipment>, b: Best, useCpc: bool): (ds: seq<Detail>)
    requires |key| == |PerfGroupColumns(t.columns)|
    ensures |ds| == if b.NoData? then 0 else |g|
  {
    if b.NoData? then []
    else seq(|g|, j requires 0 <= j < |g| => DetailOf(t, key, g[j], b, useCpc))
  }

  predicate KeysFit(t: Table, keys: seq<seq<Value>>)
  {
    forall k :: 0 <= k < |keys| ==> |keys[k]| == |PerfGroupColumns(t.columns)|
  }

  /** `highest_perf_cost` after the groups `keys`: each adds its best rate
      times its volume. */
  function CostOver(t: Table, useCpc: bool, keys: seq<seq<Value>>): Option<real>
  {
    if |keys| == 0 then Some(0.0)
    else
      var key := keys[|keys| - 1];
      var b := GroupBest(t, key, useCpc);
      var cost := CostOver(t, useCpc, keys[..|keys| - 1]);
      if b.NoData? then cost else Plus(cost, Times(b.rate, SumCounts(Group(t, key))))
  }

  /** `performance_data_list` after the groups `keys`. */
  function DetailsOver(t: Table, useCpc: bool, keys: seq<seq<Value>>): seq<Detail>
    requires KeysFit(t, keys)
  {
    if |keys| == 0 then []
    else
      var key := keys[|keys| - 1];
      DetailsOver(t, useCpc, keys[..|keys| - 1]) + GroupDetails(t, key, Group(t, key), GroupBest(t, key, useCpc), useCpc)
  }

  lemma KeysPrefix(t: Table, useCpc: bool, keys: seq<seq<Value>>, k: nat)
    requires k < |keys| && KeysFit(t, keys)
    ensures KeysFit(t, keys[..k]) && KeysFit(t, keys[..k + 1])
    ensures keys[..k + 1][..k] == keys[..k] && keys[..k + 1][k] == keys[k]
    ensures CostOver(t, useCpc, keys[..k + 1]) ==
      (var b := GroupBest(t, keys[k], useCpc);
       if b.NoData? then CostOver(t, useCpc, keys[..k])
       else Plus(CostOver(t, useCpc, keys[..k]), Times(b.rate, SumCounts(Group(t, keys[k])))))
    ensures DetailsOver(t, useCpc, keys[..k + 1]) ==
      DetailsOver(t, useCpc, keys[..k]) + GroupDetails(t, keys[k], Group(t, keys[k]), GroupBest(t, keys[k], useCpc), useCpc)
  {
    assert keys[..k + 1][..k] == keys[..k];
  }

  lemma GroupDetailsStep(t: Table, key: seq<Value>, g: seq<Shipment>, b: Best, useCpc: bool, j: nat)
    requires |key| == |PerfGroupColumns(t.columns)|
    requires b.Best? && j < |g|
    ensures GroupDetails(t, key, g, b, useCpc)[..j + 1] ==
      GroupDetails(t, key, g, b, useCpc)[..j] + [DetailOf(t, key, g[j], b, useCpc)]
  {
    var ds := GroupDetails(t, key, g, b, useCpc);
    assert ds[..j + 1] == ds[..j] + [ds[j]];
  }

  /** The record loop: one record per row of the group. */
  method AppendGroupDetails(t: Table, key: seq<Value>, group: seq<Shipment>, best: Best, useCpc: bool,
                            details: seq<Detail>) returns (out: seq<Detail>)
    requires |key| == |PerfGroupColumns(t.columns)| && best.Best?
    ensures out == details + GroupDetails(t, key, group, best, useCpc)
  {
    out := details;
    var j := 0;
    while j < |group|
      invariant 0 <= j <= |group|
      invariant out == details + GroupDetails(t, key, group, best, useCpc)[..j]
    {
      GroupDetailsStep(t, key, group, best, useCpc, j);
      out := out + [DetailOf(t, key, group[j], best, useCpc)];
      j := j + 1;
    }
    assert GroupDetails(t, key, group, best, useCpc)[..j] == GroupDetails(t, key, group, best, useCpc);
  }

  /** One lane/week group: its carriers' dictionary, its
      best performer, the cost of its volume at the best rate, and its
      records. */
  method AddGroup(t: Table, key: seq<Value>, scores: map<string, real>, useCpc: bool,
                  cost: Option<real>, details: seq<Detail>) returns (cost': Option<real>, details': seq<Detail>)
    requires |key| == |PerfGroupColumns(t.columns)| && scores == CarrierScores(t)
    ensures var b := GroupBest(t, key, useCpc);
      cost' == (if b.NoData? then cost else Plus(cost, Times(b.rate, SumCounts(Group(t, key))))) &&
      details' == details + GroupDetails(t, key, Group(t, key), b, useCpc)
  {
    var group := RowsWithKey(t.rows, PerfGroupColumns(t.columns), key);
    var carrierKeys, offers := CollectOffers(group, scores, useCpc);
    CollectedBest(group, scores, useCpc, carrierKeys, offers);
    if |carrierKeys| > 0 {
      var best := BestEntry(carrierKeys, offers);
      var volume := SumCounts(group);
      cost' := Plus(cost, Times(best.rate, volume));
      details' := AppendGroupDetails(t, key, group, best, useCpc, details);
    } else {
      cost', details' := cost, details;
      assert details + [] == details;
    }
  }

  /** `calculate_performance_optimization`, the inline scores
      taken with the zero-volume fallback: without a score column, (0, []);
      a column the calculation reads but the table lacks raises KeyError;
      otherwise the summed cost of giving each lane/week group's volume to
      its best performer, and one record per row of each group. */
  method CalculatePerformanceOptimization(t: Table, rateType: string) returns (r: Result<(Option<real>, seq<Detail>)>)
    ensures PERFORMANCE !in t.columns ==> r == Success((Some(0.0), []))
    ensures r.Failure? <==> PERFORMANCE in t.columns && !Readable(t, rateType == "CPC")
    ensures r.Failure? ==> r.error == "KeyError"
    ensures PERFORMANCE in t.columns && r.Success? ==>
      var keys := GroupKeys(t.rows, PerfGroupColumns(t.columns));
      KeysFit(t, keys) &&
      r.value == (CostOver(t, rateType == "CPC", keys), DetailsOver(t, rateType == "CPC", keys))
  {
    if PERFORMANCE !in t.columns {
      return Success((Some(0.0), []));
    }
    var useCpc := rateType == "CPC";
    if !Readable(t, useCpc) {
      return Failure("KeyError");
    }
    var scores := ComputeCarrierScores(t);
    var keys := GroupKeys(t.rows, PerfGroupColumns(t.columns));
    var cost, details := AddGroups(t, keys, scores, useCpc);
    r := Success((cost, details));
  }

  /** The loop over the groups `keys`. */
  method AddGroups(t: Table, keys: seq<seq<Value>>, scores: map<string, real>, useCpc: bool)
    returns (cost: Option<real>, details: seq<Detail>)
    requires KeysFit(t, keys) && scores == CarrierScores(t)
    ensures cost == CostOver(t, useCpc, keys) && details == DetailsOver(t, useCpc, keys)
  {
    cost := Some(0.0);
    details := [];
    var k := 0;
    while k < |keys|
      invariant 0 <= k <= |keys| && KeysFit(t, keys[..k])
      invariant cost == CostOver(t, useCpc, keys[..k])
      invariant details == DetailsOver(t, useCpc, keys[..k])
    {
      cost, details := AddGroup(t, keys[k], scores, useCpc, cost, details);
      KeysPrefix(t, useCpc, keys, k);
      k := k + 1;
    }
    assert keys[..k] == keys;
  }

  // ----- What the cost and the records say -----

  /** The sum of the records' hypothetical costs (NaN-propagating). */
  function HypotheticalSum(ds: seq<Detail>): Option<real>
  {
    if |ds| == 0 then Some(0.0) else Plus(HypotheticalSum(ds[..|ds| - 1]), ds[|ds| - 1].hypothetical)
  }

  lemma {:induction false} HypotheticalSumAppend(a: seq<Detail>, b: seq<Detail>)
    ensures HypotheticalSum(a + b) == Plus(HypotheticalSum(a), HypotheticalSum(b))
    decreases |b|
  {
    if |b| == 0 {
      assert a + b == a;
    } else {
      assert (a + b)[..|a + b| - 1] == a + b[..|b| - 1];
      HypotheticalSumAppend(a, b[..|b| - 1]);
    }
  }

  lemma GroupDetailsSnoc(t: Table, key: seq<Value>, g: seq<Shipment>, b: Best, useCpc: bool)
    requires |key| == |PerfGroupColumns(t.columns)| && b.Best? && |g| > 0
    ensures GroupDetails(t, key, g, b, useCpc) ==
      GroupDetails(t, key, g[..|g| - 1], b, useCpc) + [DetailOf(t, key, g[|g| - 1], b, useCpc)]
  {
  }

  /** Multiplying by a rate distributes over a sum of counts. */
  lemma TimesAdd(rate: Option<real>, a: int, b: int)
    ensures Plus(Times(rate, a), Times(rate, b)) == Times(rate, a + b)
  {
    if rate.Some? {
      var x := Times(rate, a).value;
      var y := Times(rate, b).value;
      var z := Times(rate, a + b).value;
      assert x == rate.value * a as real && y == rate.value * b as real;
      assert z == rate.value * (a + b) as real;
      assert x + y == z;
    }
  }

  /** A group's records' hypothetical costs add up to its best rate times
      its volume. */
  lemma {:induction false} GroupHypotheticals(t: Table, key: seq<Value>, g: seq<Shipment>, b: Best, useCpc: bool)
    requires |key| == |PerfGroupColumns(t.columns)| && b.Best? && |g| > 0
    ensures HypotheticalSum(GroupDetails(t, key, g, b, useCpc)) == Times(b.rate, SumCounts(g))
  {
    var init := g[..|g| - 1];
    var x := g[|g| - 1];
    GroupDetailsSnoc(t, key, g, b, useCpc);
    var ds := GroupDetails(t, key, g, b, useCpc);
    assert ds[..|ds| - 1] == GroupDetails(t, key, init, b, useCpc);
    assert ds[|ds| - 1].hypothetical == Times(b.rate, x.count);
    assert SumCounts(g) == SumCounts(init) + x.count;
    if |init| > 0 {
      GroupHypotheticals(t, key, init, b, useCpc);
      TimesAdd(b.rate, SumCounts(init), x.count);
    }
  }

  /** The cost is the sum of the records' hypothetical costs: every group's
      volume at its best performer's rate, row by row. */
  lemma {:induction false} CostIsSumOfHypotheticalCosts(t: Table, useCpc: bool, keys: seq<seq<Value>>)
    requires KeysFit(t, keys)
    ensures CostOver(t, useCpc, keys) == HypotheticalSum(DetailsOver(t, useCpc, keys))
  {
    if |keys| > 0 {
      var init := keys[..|keys| - 1];
      var key := keys[|keys| - 1];
      assert KeysFit(t, init);
      CostIsSumOfHypotheticalCosts(t, useCpc, init);
      var b := GroupBest(t, key, useCpc);
      var gd := GroupDetails(t, key, Group(t, key), b, useCpc);
      HypotheticalSumAppend(DetailsOver(t, useCpc, init), gd);
      if b.Best? {
        GroupHypotheticals(t, key, Group(t, key), b, useCpc);
      }
    }
  }

  /** Record `d` describes row `r`: its carrier, count, current rate and
      total in the columns of the rate type, the best performer of its
      group, and the differences against the best. */
  predicate Describes(t: Table, useCpc: bool, d: Detail, r: Shipment)
  {
    var cols := PerfGroupColumns(t.columns);
    r in t.rows && KeyComplete(Key(r, cols)) &&
    d.currentCarrier == r.carrier && d.scac == r.carrier && d.count == r.count && d.currentPerf == r.perf &&
    d.currentRate == RateOf(r, useCpc) && d.currentTotal == TotalOf(r, useCpc) &&
    GroupBest(t, Key(r, cols), useCpc) == Best(d.bestCarrier, d.bestScore, d.bestSource, d.bestRate) &&
    d.hypothetical == Times(d.bestRate, r.count) &&
    d.costDifference == Minus(d.hypothetical, d.currentTotal) &&
    d.perfDifference == Minus(Some(d.bestScore), r.perf)
  }

  /** Every record describes a row of the table. */
  lemma {:induction false} EveryDetailDescribesARow(t: Table, useCpc: bool, keys: seq<seq<Value>>)
    requires KeysFit(t, keys) && forall i :: 0 <= i < |keys| ==> KeyComplete(keys[i])
    ensures forall d :: d in DetailsOver(t, useCpc, keys) ==> exists r :: Describes(t, useCpc, d, r)
  {
    if |keys| > 0 {
      var init := keys[..|keys| - 1];
      var key := keys[|keys| - 1];
      assert KeysFit(t, init);
      EveryDetailDescribesARow(t, useCpc, init);
      var b := GroupBest(t, key, useCpc);
      var g := Group(t, key);
      var gd := GroupDetails(t, key, g, b, useCpc);
      forall d | d in gd ensures exists r :: Describes(t, useCpc, d, r) {
        var j :| 0 <= j < |gd| && gd[j] == d;
        assert Key(g[j], PerfGroupColumns(t.columns)) == key && g[j] in t.rows;
        assert Describes(t, useCpc, d, g[j]);
      }
    }
  }

  /** The rows `groupby(group_cols)` keeps: those with no NaN key cell. */
  function Complete(cols: seq<Column>): Shipment -> bool
  {
    (r: Shipment) => KeyComplete(Key(r, cols))
  }

  /** The number of rows in the groups `ks`. */
  function GroupSizes(rows: seq<Shipment>, cols: seq<Column>, ks: seq<seq<Value>>): nat
  {
    if |ks| == 0 then 0
    else GroupSizes(rows, cols, ks[..|ks| - 1]) + |RowsWithKey(rows, cols, ks[|ks| - 1])|
  }

  lemma {:induction false} GroupSizesEmpty(cols: seq<Column>, ks: seq<seq<Value>>)
    ensures GroupSizes([], cols, ks) == 0
  {
    if |ks| > 0 {
      GroupSizesEmpty(cols, ks[..|ks| - 1]);
    }
  }

  lemma {:induction false} GroupSizesSnoc(rows: seq<Shipment>, x: Shipment, cols: seq<Column>, ks: seq<seq<Value>>)
    requires NoDup(ks)
    ensures GroupSizes(rows + [x], cols, ks) == GroupSizes(rows, cols, ks) + (if Key(x, cols) in ks then 1 else 0)
  {
    if |ks| > 0 {
      var init := ks[..|ks| - 1];
      var k := ks[|ks| - 1];
      assert ks == init + [k];
      assert NoDup(init);
      GroupSizesSnoc(rows, x, cols, init);
      RowsWithKeySnoc(rows, x, cols, k);
      if Key(x, cols) == k {
        assert Key(x, cols) !in init;
      }
    }
  }

  /** Groups that take in every complete row once hold exactly the complete rows. */
  lemma {:induction false} GroupSizesCover(rows: seq<Shipment>, cols: seq<Column>, ks: seq<seq<Value>>)
    requires NoDup(ks)
    requires forall r :: r in rows ==> (Key(r, cols) in ks <==> KeyComplete(Key(r, cols)))
    ensures GroupSizes(rows, cols, ks) == |Filter(rows, Complete(cols))|
  {
    if |rows| == 0 {
      GroupSizesEmpty(cols, ks);
    } else {
      var init := rows[..|rows| - 1];
      var x := rows[|rows| - 1];
      assert rows == init + [x];
      assert forall r :: r in init ==> r in rows;
      GroupSizesCover(init, cols, ks);
      GroupSizesSnoc(init, x, cols, ks);
      FilterSnoc(rows, Complete(cols));
    }
  }

  /** Each group named by a row has at least that row. */
  lemma {:induction false} DetailsCount(t: Table, useCpc: bool, keys: seq<seq<Value>>)
    requires KeysFit(t, keys)
    requires forall i :: 0 <= i < |keys| ==> exists r :: r in t.rows && Key(r, PerfGroupColumns(t.columns)) == keys[i]
    ensures |DetailsOver(t, useCpc, keys)| == GroupSizes(t.rows, PerfGroupColumns(t.columns), keys)
  {
    if |keys| > 0 {
      var init := keys[..|keys| - 1];
      var key := keys[|keys| - 1];
      assert KeysFit(t, init);
      assert forall i :: 0 <= i < |init| ==> init[i] == keys[i];
      DetailsCount(t, useCpc, init);
      var r :| r in t.rows && Key(r, PerfGroupColumns(t.columns)) == key;
      assert r in Group(t, key);
    }
  }

  /** One record per row whose lane, week (and category) are all present. */
  lemma OneDetailPerRow(t: Table, useCpc: bool)
    ensures var cols := PerfGroupColumns(t.columns);
      var keys := GroupKeys(t.rows, cols);
      KeysFit(t, keys) && |DetailsOver(t, useCpc, keys)| == |Filter(t.rows, Complete(cols))|
  {
    var cols := PerfGroupColumns(t.columns);
    var keys := GroupKeys(t.rows, cols);
    GroupKeysFromRows(t.rows, cols);
    forall i | 0 <= i < |keys| ensures exists r :: r in t.rows && Key(r, cols) == keys[i] {
      assert keys[i] in keys;
    }
    DetailsCount(t, useCpc, keys);
    forall r | r in t.rows ensures Key(r, cols) in keys <==> KeyComplete(Key(r, cols)) {
      if Key(r, cols) in keys {
        var i :| 0 <= i < |keys| && keys[i] == Key(r, cols);
      }
    }
    GroupSizesCover(t.rows, cols, keys);
  }
}
